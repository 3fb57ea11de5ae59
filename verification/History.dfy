/** What no later commit can change, and what every run of commits conserves. */
module History {
  import opened Wrappers
  import opened Int64
  import opened Ordering
  import opened Rows
  import opened Queries
  import opened Proposals
  import opened Invariants
  import opened CommitSpec
  import opened VerifySpec
  import opened Attestation
  import opened LedgerInvariant
  import opened Runs

  // ---- how one commit changes the log ----

  /** A commit either changes nothing or appends one batch of the next seq with its entries. */
  ghost predicate Extends(db: Db, after: Db, req: CommitRequest, b: BatchRow, rows: seq<EntryRow>) {
    && after.batches == db.batches + [b] && after.entries == db.entries + rows
    && after.accounts == db.accounts && after.pools == db.pools
    && b.head.pool == req.pool && b.head.seqNo == NextPoolSeq(db, req.pool)
    && b.head.kind == req.proposal.kind && b.head.reverses == req.proposal.reverses
    && b.head.idempotencyKey == req.idempotencyKey
    && BatchInsertable(db, b)
    && Moves(rows) == ProposalMoves(req.proposal.entries)
    && (forall e :: e in rows ==> e.pool == req.pool && e.seqNo == b.head.seqNo)
    && Verdict(db, req.pool, b.head.seqNo, b.head.seqNo - 1, req.proposal).None?
  }

  lemma CommitExtends(d: Digest, db: Db, req: CommitRequest, env: Env)
    ensures var after := Commit(d, db, req, env).0;
            if Writes(d, db, req, env)
            then Extends(db, after, req, NewBatch(d, db, req, env), NewEntries(db, req, env))
            else after == db
  {
    hide Moves, ProposalMoves, Sum, PoolBatches, MaxSeq, DeltasFit, UpsertFails, EntryFails, BooksFailure;
    hide Verdict, Upserted, UpsertFits, BatchInsertable, Link, AuditFor, EventFor;
    if Writes(d, db, req, env) { RowsOfNewBatch(req, env, NextPoolSeq(db, req.pool)); }
  }

  // ---- history is stable ----

  lemma {:induction false} UptoOfRows(rows: seq<EntryRow>, pool: string, seqNo: int, q: string, s: int)
    requires forall e :: e in rows ==> e.pool == pool && e.seqNo == seqNo
    ensures Upto(rows, q, s) == if q == pool && seqNo <= s then rows else []
  {
    if rows != [] {
      var n := |rows| - 1;
      assert rows == rows[..n] + [rows[n]];
      UptoOfRows(rows[..n], pool, seqNo, q, s);
    }
  }

  lemma UptoAfter(db: Db, after: Db, req: CommitRequest, b: BatchRow, rows: seq<EntryRow>, q: string, s: int)
    requires Extends(db, after, req, b, rows)
    ensures Upto(after.entries, q, s)
         == Upto(db.entries, q, s) + if q == req.pool && b.head.seqNo <= s then rows else []
  {
    hide Verdict, BatchInsertable;
    UptoAppend(db.entries, rows, q, s);
    UptoOfRows(rows, req.pool, b.head.seqNo, q, s);
  }

  function Head(db: Db, pool: string): int { MaxSeq(PoolBatches(db.batches, pool)) }

  lemma HeadAfter(db: Db, after: Db, req: CommitRequest, b: BatchRow, rows: seq<EntryRow>, q: string)
    requires Extends(db, after, req, b, rows)
    ensures Head(after, q) == if q == req.pool then Head(db, q) + 1 else Head(db, q)
  {
    hide Verdict, BatchInsertable;
    PoolBatchesSnoc(db.batches, b, q);
    var bs := PoolBatches(db.batches, q);
    assert bs + [] == bs;
    assert (bs + [b])[..|bs|] == bs;
  }

  /** No commit changes a balance as of a seq the pool has already reached, in any pool. */
  lemma CommitKeepsHistory(d: Digest, db: Db, req: CommitRequest, env: Env, pool: string, k: SnapKey, s: int)
    requires s <= Head(db, pool)
    ensures var after := Commit(d, db, req, env).0;
            Balance(after.entries, pool, k, s) == Balance(db.entries, pool, k, s) && s <= Head(after, pool)
  {
    hide Commit, Writes, Extends;
    CommitExtends(d, db, req, env);
    if Writes(d, db, req, env) {
      var b, rows := NewBatch(d, db, req, env), NewEntries(db, req, env);
      ExtendKeepsHistory(db, Commit(d, db, req, env).0, req, b, rows, pool, k, s);
    }
  }

  lemma ExtendKeepsHistory(db: Db, after: Db, req: CommitRequest, b: BatchRow, rows: seq<EntryRow>, pool: string, k: SnapKey, s: int)
    requires s <= Head(db, pool) && Extends(db, after, req, b, rows)
    ensures Balance(after.entries, pool, k, s) == Balance(db.entries, pool, k, s) && s <= Head(after, pool)
  {
    hide Verdict, BatchInsertable;
    UptoAfter(db, after, req, b, rows, pool, s);
    HeadAfter(db, after, req, b, rows, pool);
    assert Upto(db.entries, pool, s) + [] == Upto(db.entries, pool, s);
  }

  lemma {:induction false} HistoryIsStable(d: Digest, db: Db, steps: seq<Step>, pool: string, k: SnapKey, s: int)
    requires s <= Head(db, pool)
    ensures var after := Run(d, db, steps);
            Balance(after.entries, pool, k, s) == Balance(db.entries, pool, k, s) && s <= Head(after, pool)
  {
    hide Commit, Balance, Head;
    if steps != [] {
      var n := |steps| - 1;
      HistoryIsStable(d, db, steps[..n], pool, k, s);
      CommitKeepsHistory(d, Run(d, db, steps[..n]), steps[n].req, steps[n].env, pool, k, s);
    }
  }

  // ---- retries ----

  lemma KeyIsKept(d: Digest, db: Db, req: CommitRequest, env: Env, pool: string, key: string)
    requires FindByIdempotencyKey(db.batches, pool, key).Some?
    ensures FindByIdempotencyKey(Commit(d, db, req, env).0.batches, pool, key)
         == FindByIdempotencyKey(db.batches, pool, key)
  {
    hide Commit, Writes, Verdict;
    CommitExtends(d, db, req, env);
    if Writes(d, db, req, env) {
      var b := NewBatch(d, db, req, env);
      var after := Commit(d, db, req, env).0;
      assert after.batches[..|db.batches|] == db.batches;
      KeyIsThere(db.batches, pool, key);
    }
  }

  lemma {:induction false} KeyIsThere(bs: seq<BatchRow>, pool: string, key: string)
    requires FindByIdempotencyKey(bs, pool, key).Some?
    ensures var b := FindByIdempotencyKey(bs, pool, key).value;
            b in bs && b.head.pool == pool && b.head.idempotencyKey == Some(key)
  {
    var n := |bs| - 1;
    assert bs == bs[..n] + [bs[n]];
    if !(bs[n].head.pool == pool && bs[n].head.idempotencyKey == Some(key)) { KeyIsThere(bs[..n], pool, key); }
  }

  lemma {:induction false} KeyIsKeptByRun(d: Digest, db: Db, steps: seq<Step>, pool: string, key: string)
    requires FindByIdempotencyKey(db.batches, pool, key).Some?
    ensures FindByIdempotencyKey(Run(d, db, steps).batches, pool, key) == FindByIdempotencyKey(db.batches, pool, key)
  {
    hide Commit, FindByIdempotencyKey;
    if steps != [] {
      var n := |steps| - 1;
      KeyIsKeptByRun(d, db, steps[..n], pool, key);
      KeyIsKept(d, Run(d, db, steps[..n]), steps[n].req, steps[n].env, pool, key);
    }
  }

  /**
   * At any later point of any run, a valid request reusing the pool and the key gets the first
   * batch back and changes no table, whatever it proposes and whoever asks.
   */
  lemma RetryReturnsFirstBatch(d: Digest, db: Db, first: Step, between: seq<Step>, retry: Step)
    requires first.req.idempotencyKey.Some? && Writes(d, db, first.req, first.env)
    requires retry.req.pool == first.req.pool && retry.req.idempotencyKey == first.req.idempotencyKey
    requires ValidRequest(retry.req) && Lookup !in retry.env.fails && EndTransaction !in retry.env.fails
    ensures var later := Run(d, Commit(d, db, first.req, first.env).0, between);
            Commit(d, later, retry.req, retry.env)
              == (later, Ok(ReplayReceipt(NewBatch(d, db, first.req, first.env))))
  {
    hide Writes, WriteResult, Verdict, ValidRequest, BatchInsertable;
    CommitExtends(d, db, first.req, first.env);
    var after, b := Commit(d, db, first.req, first.env).0, NewBatch(d, db, first.req, first.env);
    assert after.batches[|after.batches| - 1] == b;
    KeyIsKeptByRun(d, after, between, first.req.pool, first.req.idempotencyKey.value);
  }

  // ---- conservation ----

  /** Each kind the batch moves is under a declared rule that it sums to zero. */
  ghost predicate DeclaresZeroSum(p: BatchProposal) {
    forall e :: e in p.entries ==>
      exists inv :: inv in p.invariants && (inv.kind == SumZero || inv.kind == LargestRemainderSumsToDebit)
                    && InScope(e.kind, inv.balanceKind)
  }

  /** The balances of one kind over all accounts of a pool, system accounts included. */
  ghost function PoolTotal(es: seq<EntryRow>, pool: string, kind: string, s: int): int {
    Sum(KindAmounts(Moves(Upto(es, pool, s)), kind))
  }

  lemma ZeroSumBatch(db: Db, after: Db, req: CommitRequest, b: BatchRow, rows: seq<EntryRow>, kind: string)
    requires Extends(db, after, req, b, rows) && DeclaresZeroSum(req.proposal)
    ensures Sum(KindAmounts(Moves(rows), kind)) == 0
  {
    hide Verdict, BatchInsertable, Group, Moves, ProposalMoves, MaxSeq, DeclaresZeroSum;
    ZeroSumProposal(db, req.pool, b.head.seqNo, req.proposal, kind);
  }

  lemma ZeroSumProposal(db: Db, pool: string, seqNo: int, p: BatchProposal, kind: string)
    requires Verdict(db, pool, seqNo, seqNo - 1, p).None? && DeclaresZeroSum(p)
    ensures Sum(KindAmounts(ProposalMoves(p.entries), kind)) == 0
  {
    hide Verdict, Group, ProposalMoves, DeclaresZeroSum;
    var ms := ProposalMoves(p.entries);
    if forall m :: m in ms ==> ByKind(m) != kind {
      GroupOfUntouched(ByKind, ms, kind);
    } else {
      var m :| m in ms && ByKind(m) == kind;
      var inv := CoveringRule(p, m);
      AcceptedSumsToZero(db, pool, seqNo, seqNo - 1, p, inv, kind);
    }
  }

  lemma CoveringRule(p: BatchProposal, m: Move) returns (inv: Invariant)
    requires DeclaresZeroSum(p) && m in ProposalMoves(p.entries)
    ensures inv in p.invariants && (inv.kind == SumZero || inv.kind == LargestRemainderSumsToDebit)
    ensures InScope(m.key.kind, inv.balanceKind)
  {
    var i :| 0 <= i < |p.entries| && ProposalMoves(p.entries)[i] == m;
    assert p.entries[i] in p.entries;
    inv :| inv in p.invariants && (inv.kind == SumZero || inv.kind == LargestRemainderSumsToDebit)
           && InScope(p.entries[i].kind, inv.balanceKind);
  }

  lemma CommitConserves(d: Digest, db: Db, req: CommitRequest, env: Env, pool: string, kind: string, s: int)
    requires PoolTotal(db.entries, pool, kind, s) == 0 && (req.pool == pool && Writes(d, db, req, env) ==> DeclaresZeroSum(req.proposal))
    ensures PoolTotal(Commit(d, db, req, env).0.entries, pool, kind, s) == 0
  {
    hide Commit, Writes, Extends, DeclaresZeroSum;
    CommitExtends(d, db, req, env);
    if Writes(d, db, req, env) {
      var after, b, rows := Commit(d, db, req, env).0, NewBatch(d, db, req, env), NewEntries(db, req, env);
      UptoAfter(db, after, req, b, rows, pool, s);
      if pool == req.pool && b.head.seqNo <= s {
        ZeroSumBatch(db, after, req, b, rows, kind);
        MovesAppend(Upto(db.entries, pool, s), rows);
        GroupAppend(ByKind, Moves(Upto(db.entries, pool, s)), Moves(rows), kind);
        SumAppend(KindAmounts(Moves(Upto(db.entries, pool, s)), kind), KindAmounts(Moves(rows), kind));
      } else {
        assert Upto(db.entries, pool, s) + [] == Upto(db.entries, pool, s);
      }
    }
  }

  /** Step `i` of a run wrote a batch, rather than being refused, failing or replaying an old one. */
  ghost predicate Wrote(d: Digest, db: Db, steps: seq<Step>, i: nat)
    requires i < |steps|
  {
    Writes(d, Run(d, db, steps[..i]), steps[i].req, steps[i].env)
  }

  lemma WrotePrefix(d: Digest, db: Db, steps: seq<Step>, n: nat)
    requires n <= |steps|
    ensures forall i: nat :: i < n ==> Wrote(d, db, steps[..n], i) == Wrote(d, db, steps, i)
  {
    hide Writes, Run;
    forall i: nat | i < n ensures Wrote(d, db, steps[..n], i) == Wrote(d, db, steps, i) {
      assert steps[..n][..i] == steps[..i];
    }
  }

  /**
   * If every batch committed to a pool declares that what it moves sums to zero, the balances of all
   * the pool's accounts sum to zero for every kind at every seq.
   */
  lemma {:induction false} RunConserves(d: Digest, db: Db, steps: seq<Step>, pool: string, kind: string, s: int)
    requires Genesis(db)
    requires forall i: nat :: i < |steps| && steps[i].req.pool == pool && Wrote(d, db, steps, i) ==>
               DeclaresZeroSum(steps[i].req.proposal)
    ensures PoolTotal(Run(d, db, steps).entries, pool, kind, s) == 0
  {
    hide Commit, DeclaresZeroSum, Writes;
    if steps != [] {
      var n := |steps| - 1;
      WrotePrefix(d, db, steps, n);
      assert Wrote(d, db, steps, n) == Writes(d, Run(d, db, steps[..n]), steps[n].req, steps[n].env);
      RunConserves(d, db, steps[..n], pool, kind, s);
      CommitConserves(d, Run(d, db, steps[..n]), steps[n].req, steps[n].env, pool, kind, s);
    }
  }

  // ---- floors ----

  /** A batch that moves `kind` declares the floor for it. */
  ghost predicate DeclaresFloor(p: BatchProposal, kind: string, floor: int64) {
    (exists e :: e in p.entries && e.kind == kind) ==>
      exists inv :: inv in p.invariants && inv.kind == NonNegative && inv.floor == Some(floor)
                    && InScope(kind, inv.balanceKind)
  }

  lemma BatchInItsPool(db: Db, b: BatchRow) returns (i: nat)
    requires b in db.batches
    ensures i < |Log(db, b.head.pool)| && Log(db, b.head.pool)[i] == Item(b, EntriesOf(db.entries, b.head.id))
  {
    PoolBatchesMembers(db.batches, b.head.pool);
    var bs := PoolBatches(db.batches, b.head.pool);
    i :| 0 <= i < |bs| && bs[i] == b;
  }

  /** Every entry carries its batch's pool and a seq that pool has reached. */
  lemma EntriesBelowHead(d: Digest, db: Db, e: EntryRow)
    requires Inv(d, db) && e in db.entries
    ensures e.seqNo <= |Log(db, e.pool)|
  {
    hide AuditInv, Link, Mirrors;
    assert HasBatch(db.batches, e.batch);
    var b :| b in db.batches && b.head.id == e.batch;
    var i := BatchInItsPool(db, b);
    EntriesOfMembers(db.entries, b.head.id);
    assert PoolInv(d, db, b.head.pool);
    assert BatchHolds(d, Log(db, b.head.pool), i);
  }

  lemma {:induction false} UptoSaturates(es: seq<EntryRow>, pool: string, n: int, s: int)
    requires n <= s && forall e :: e in es && e.pool == pool ==> e.seqNo <= n
    ensures Upto(es, pool, s) == Upto(es, pool, n)
  {
    if es != [] {
      var m := |es| - 1;
      assert es == es[..m] + [es[m]];
      UptoSaturates(es[..m], pool, n, s);
    }
  }

  /** Past the head a balance is the balance at the head. */
  lemma BalancePastHead(d: Digest, db: Db, pool: string, k: SnapKey, s: int)
    requires Inv(d, db) && Head(db, pool) <= s
    ensures Balance(db.entries, pool, k, s) == Balance(db.entries, pool, k, Head(db, pool))
  {
    assert PoolInv(d, db, pool);
    NextSeqIsNext(d, db, pool);
    forall e | e in db.entries && e.pool == pool ensures e.seqNo <= Head(db, pool) { EntriesBelowHead(d, db, e); }
    UptoSaturates(db.entries, pool, Head(db, pool), s);
  }

  ghost predicate IsPerson(db: Db, account: string) { account in db.accounts && db.accounts[account] == Person }

  /** What one commit does to one balance: a deduction stops at the floor. */
  lemma CommitRespectsFloor(d: Digest, db: Db, req: CommitRequest, env: Env, pool: string, k: SnapKey, floor: int64)
    requires Sized(d) && Inv(d, db) && IsPerson(db, k.account)
    requires req.pool == pool && Writes(d, db, req, env) ==> DeclaresFloor(req.proposal, k.kind, floor)
    ensures var after := Commit(d, db, req, env).0;
            var was, now := Balance(db.entries, pool, k, Head(db, pool)), Balance(after.entries, pool, k, Head(after, pool));
            now >= was || now >= floor
  {
    hide Commit, Writes, Inv, PoolInv, Link, Verdict, BatchInsertable, Balance;
    CommitExtends(d, db, req, env);
    if Writes(d, db, req, env) {
      var after, b, rows := Commit(d, db, req, env).0, NewBatch(d, db, req, env), NewEntries(db, req, env);
      HeadAfter(db, after, req, b, rows, pool);
      if pool != req.pool {
        CommitKeepsHistory(d, db, req, env, pool, k, Head(db, pool));
      } else {
        BalanceAfter(d, db, after, req, b, rows, k);
        DeductionStopsAtFloor(db, after, req, b, rows, k, floor);
      }
    }
  }

  lemma BalanceAfter(d: Digest, db: Db, after: Db, req: CommitRequest, b: BatchRow, rows: seq<EntryRow>, k: SnapKey)
    requires Inv(d, db) && Extends(db, after, req, b, rows)
    ensures Balance(after.entries, req.pool, k, b.head.seqNo)
         == Balance(db.entries, req.pool, k, Head(db, req.pool)) + Net(Moves(rows), k)
  {
    hide Verdict, BatchInsertable, Inv, Moves, Net;
    var s := b.head.seqNo;
    UptoAfter(db, after, req, b, rows, req.pool, s);
    MovesAppend(Upto(db.entries, req.pool, s), rows);
    NetAppend(Moves(Upto(db.entries, req.pool, s)), Moves(rows), k);
    BalancePastHead(d, db, req.pool, k, s);
  }

  lemma DeductionStopsAtFloor(db: Db, after: Db, req: CommitRequest, b: BatchRow, rows: seq<EntryRow>, k: SnapKey, floor: int64)
    requires Extends(db, after, req, b, rows) && IsPerson(db, k.account) && DeclaresFloor(req.proposal, k.kind, floor)
    ensures Net(Moves(rows), k) < 0 ==> Balance(db.entries, req.pool, k, Head(db, req.pool)) + Net(Moves(rows), k) >= floor
  {
    hide Verdict, BatchInsertable, Balance, Upto, MaxSeq, Group, ProposalMoves;
    var p := req.proposal;
    var ms := ProposalMoves(p.entries);
    if forall m :: m in ms ==> ByKey(m) != k {
      GroupOfUntouched(ByKey, ms, k);
    } else if Net(ms, k) < 0 {
      var m :| m in ms && ByKey(m) == k;
      KindIsMoved(p.entries, m);
      var inv :| inv in p.invariants && inv.kind == NonNegative && inv.floor == Some(floor) && InScope(k.kind, inv.balanceKind);
      AcceptedKeepsFloor(db, req.pool, b.head.seqNo, b.head.seqNo - 1, p, inv, k);
    }
  }

  lemma KindIsMoved(entries: seq<EntryProposal>, m: Move)
    requires m in ProposalMoves(entries)
    ensures exists e :: e in entries && e.kind == m.key.kind
  {
    var i :| 0 <= i < |entries| && ProposalMoves(entries)[i] == m;
    assert entries[i] in entries;
  }

  lemma CommitKeepsAccounts(d: Digest, db: Db, req: CommitRequest, env: Env)
    ensures Commit(d, db, req, env).0.accounts == db.accounts && Commit(d, db, req, env).0.pools == db.pools
  {
    hide WriteFailure, Refusal;
    AllOrNothing(d, db, req, env);
  }

  lemma {:induction false} RunKeepsAccounts(d: Digest, db: Db, steps: seq<Step>)
    ensures Run(d, db, steps).accounts == db.accounts
  {
    hide Commit;
    if steps != [] {
      var n := |steps| - 1;
      RunKeepsAccounts(d, db, steps[..n]);
      CommitKeepsAccounts(d, Run(d, db, steps[..n]), steps[n].req, steps[n].env);
    }
  }

  /**
   * If every batch committed to a pool that moves a kind declares the floor for it, no person's
   * balance of that kind is ever below the floor or below zero, whichever is lower, at any seq.
   */
  lemma {:induction false} RunRespectsFloor(d: Digest, db: Db, steps: seq<Step>, pool: string, k: SnapKey, floor: int64, s: int)
    requires Sized(d) && Genesis(db) && IsPerson(db, k.account)
    requires forall i: nat :: i < |steps| && steps[i].req.pool == pool && Wrote(d, db, steps, i) ==>
               DeclaresFloor(steps[i].req.proposal, k.kind, floor)
    ensures Balance(Run(d, db, steps).entries, pool, k, s) >= if floor < 0 then floor else 0
  {
    hide Commit, DeclaresFloor, Inv, Balance, Head, Genesis, Writes;
    if steps == [] {
      EmptyBalance(db, pool, k, s);
    } else {
      var n := |steps| - 1;
      var before := Run(d, db, steps[..n]);
      var after := Commit(d, before, steps[n].req, steps[n].env).0;
      WrotePrefix(d, db, steps, n);
      assert Wrote(d, db, steps, n) == Writes(d, before, steps[n].req, steps[n].env);
      RunRespectsFloor(d, db, steps[..n], pool, k, floor, s);
      RunRespectsFloor(d, db, steps[..n], pool, k, floor, Head(before, pool));
      GenesisInv(d, db);
      RunKeepsInv(d, db, steps[..n]);
      RunKeepsAccounts(d, db, steps[..n]);
      CommitRespectsFloor(d, before, steps[n].req, steps[n].env, pool, k, floor);
      if s <= Head(before, pool) {
        CommitKeepsHistory(d, before, steps[n].req, steps[n].env, pool, k, s);
      } else {
        RunKeepsInv(d, db, steps);
        LaterBalance(d, before, steps[n].req, steps[n].env, pool, k, s);
      }
    }
  }

  lemma EmptyBalance(db: Db, pool: string, k: SnapKey, s: int)
    requires Genesis(db)
    ensures Balance(db.entries, pool, k, s) == 0
  {
    assert Moves([]) == [];
  }

  lemma LaterBalance(d: Digest, db: Db, req: CommitRequest, env: Env, pool: string, k: SnapKey, s: int)
    requires Inv(d, db) && Head(db, pool) < s
    requires Inv(d, Commit(d, db, req, env).0)
    ensures var after := Commit(d, db, req, env).0;
            Balance(after.entries, pool, k, s) == Balance(after.entries, pool, k, Head(after, pool))
  {
    hide Commit, Writes, Inv, Balance, Extends;
    var after := Commit(d, db, req, env).0;
    CommitExtends(d, db, req, env);
    if Writes(d, db, req, env) {
      HeadAfter(db, after, req, NewBatch(d, db, req, env), NewEntries(db, req, env), pool);
    }
    BalancePastHead(d, after, pool, k, s);
  }

  // ---- reversal links ----

  ghost predicate Reverses(bs: seq<BatchRow>, i: nat, j: nat)
    requires i < |bs| && j < |bs|
  {
    bs[i].head.reverses == Some(bs[j].head.id)
  }

  /** Only reversals point; they point back within their pool; and nothing is pointed at twice. */
  ghost predicate LinksOk(bs: seq<BatchRow>) {
    && (forall i :: 0 <= i < |bs| ==> (bs[i].head.reverses.Some? <==> bs[i].head.kind == KIND_REVERSAL))
    && (forall i :: 0 <= i < |bs| && bs[i].head.reverses.Some? ==> PointsBack(bs, i))
    && (forall i, j :: 0 <= i < j < |bs| && bs[i].head.reverses.Some? ==> bs[i].head.reverses != bs[j].head.reverses)
  }

  ghost predicate PointsBack(bs: seq<BatchRow>, i: nat)
    requires i < |bs|
  {
    exists j :: 0 <= j < i && Reverses(bs, i, j) && bs[j].head.pool == bs[i].head.pool
                && bs[j].head.seqNo < bs[i].head.seqNo
  }

  lemma {:induction false} FoundBatch(bs: seq<BatchRow>, id: string)
    requires FindBatch(bs, id).Some?
    ensures exists j :: 0 <= j < |bs| && bs[j] == FindBatch(bs, id).value && bs[j].head.id == id
  {
    var n := |bs| - 1;
    if bs[n].head.id != id {
      FoundBatch(bs[..n], id);
      var j :| 0 <= j < n && bs[..n][j] == FindBatch(bs[..n], id).value && bs[..n][j].head.id == id;
      assert bs[j] == FindBatch(bs, id).value;
    }
  }

  lemma {:induction false} BelowMax(bs: seq<BatchRow>, b: BatchRow)
    requires b in bs
    ensures b.head.seqNo <= MaxSeq(bs)
  {
    var n := |bs| - 1;
    assert bs == bs[..n] + [bs[n]];
    if b != bs[n] { BelowMax(bs[..n], b); }
  }

  lemma NewLink(db: Db, after: Db, req: CommitRequest, b: BatchRow, rows: seq<EntryRow>)
    requires Extends(db, after, req, b, rows)
    ensures b.head.reverses.Some? <==> b.head.kind == KIND_REVERSAL
    ensures b.head.reverses.Some? ==> PointsBack(after.batches, |db.batches|)
  {
    hide BatchInsertable;
    if b.head.reverses.Some? {
      var id := b.head.reverses.value;
      FoundBatch(db.batches, id);
      var j :| 0 <= j < |db.batches| && db.batches[j] == FindBatch(db.batches, id).value && db.batches[j].head.id == id;
      PoolBatchesMembers(db.batches, req.pool);
      assert db.batches[j] in db.batches;
      BelowMax(PoolBatches(db.batches, req.pool), db.batches[j]);
      assert after.batches[j] == db.batches[j];
      assert Reverses(after.batches, |db.batches|, j);
    }
  }

  lemma CommitKeepsLinks(d: Digest, db: Db, req: CommitRequest, env: Env)
    requires LinksOk(db.batches)
    ensures LinksOk(Commit(d, db, req, env).0.batches)
  {
    hide Commit, Writes, Verdict, PointsBack;
    CommitExtends(d, db, req, env);
    if Writes(d, db, req, env) {
      var after, b := Commit(d, db, req, env).0, NewBatch(d, db, req, env);
      NewLink(db, after, req, b, NewEntries(db, req, env));
      ExtendLinks(db, after, b);
    }
  }

  lemma ExtendLinks(db: Db, after: Db, b: BatchRow)
    requires LinksOk(db.batches) && after.batches == db.batches + [b] && BatchInsertable(db, b)
    requires b.head.reverses.Some? <==> b.head.kind == KIND_REVERSAL
    requires b.head.reverses.Some? ==> PointsBack(after.batches, |db.batches|)
    ensures LinksOk(after.batches)
  {
    var bs, n := after.batches, |db.batches|;
    forall i | 0 <= i < n && bs[i].head.reverses.Some? ensures PointsBack(bs, i) {
      var j :| 0 <= j < i && Reverses(db.batches, i, j) && db.batches[j].head.pool == db.batches[i].head.pool
               && db.batches[j].head.seqNo < db.batches[i].head.seqNo;
      assert Reverses(bs, i, j);
    }
    forall i, j | 0 <= i < j < |bs| && bs[i].head.reverses.Some?
      ensures bs[i].head.reverses != bs[j].head.reverses
    {
      if j == n { assert db.batches[i] in db.batches; }
    }
  }

  /** In every ledger a run can build the reversal pointers form disjoint chains. */
  lemma {:induction false} RunKeepsLinks(d: Digest, db: Db, steps: seq<Step>)
    requires Genesis(db)
    ensures LinksOk(Run(d, db, steps).batches)
  {
    hide Commit, PointsBack;
    if steps != [] {
      var n := |steps| - 1;
      RunKeepsLinks(d, db, steps[..n]);
      CommitKeepsLinks(d, Run(d, db, steps[..n]), steps[n].req, steps[n].env);
    }
  }

  /** Following the pointers from a batch terminates, at a batch that is not a reversal. */
  ghost function Origin(bs: seq<BatchRow>, i: nat): (o: nat)
    requires LinksOk(bs) && i < |bs|
    ensures o <= i && bs[o].head.kind != KIND_REVERSAL && bs[o].head.pool == bs[i].head.pool
  {
    if bs[i].head.reverses.None? then i
    else
      assert PointsBack(bs, i);
      var j :| 0 <= j < i && Reverses(bs, i, j) && bs[j].head.pool == bs[i].head.pool;
      Origin(bs, j)
  }
}
