/** Exactly which commits are written, when no statement fails of itself (internal/ledger/commit.go). */
module Writable {
  import opened Wrappers
  import opened Int64
  import opened Ordering
  import opened Rows
  import opened Hex
  import opened Queries
  import opened Proposals
  import opened Invariants
  import opened Acceptance
  import opened CommitSpec
  import opened LedgerInvariant
  import opened History
  import opened OverflowRuns

  const KINDS: set<string> :=
    {"attendance", "award", "adjustment", "decay", "cap", "start_points", "zero_sum_credit",
     "reversal", "correction", "re_attribution", "migration", "import", "seed", "write_off"}

  const SOURCES: set<string> := {"web", "api", "discord", "parser", "import", "system"}

  const ACTORS: set<string> := {"user", "service_account", "system", "boot", "import", "anonymous"}

  /** A request names its pool, source, actor, kind and strategy, and a key only if it is one. */
  ghost predicate Complete(req: CommitRequest) {
    && req.pool != "" && req.source in SOURCES && req.actor.kind in ACTORS && req.proposal.kind in KINDS
    && req.proposal.strategyId != "" && req.proposal.strategyVersion != ""
    && req.idempotencyKey != Some("")
  }

  /** Nothing stored in the pool carries the request's references, and no batch at all reverses what it reverses. */
  ghost predicate Unclaimed(db: Db, req: CommitRequest) {
    && (forall b :: b in db.batches && b.head.pool == req.pool && req.idempotencyKey != None ==> b.head.idempotencyKey != req.idempotencyKey)
    && (forall b :: b in db.batches && b.head.pool == req.pool && req.sourceRef != None ==> b.head.sourceRef != req.sourceRef)
    && (forall b :: b in db.batches && req.proposal.reverses != None ==> b.head.reverses != req.proposal.reverses)
  }

  ghost predicate RulesPass(db: Db, req: CommitRequest) {
    var head, p := Head(db, req.pool), req.proposal;
    && (forall rule :: rule in UNIVERSAL ==> Holds(db, req.pool, head + 1, head, p, rule))
    && forall inv :: inv in p.invariants ==> Accepts(db, req.pool, head, p, inv)
  }

  ghost predicate HeadsReadable(db: Db, req: CommitRequest) {
    ReadHead(db.meta, HeadKey(req.pool)).Ok? && ReadHead(db.meta, AUDIT_HEAD).Ok?
  }

  /** The schema's own checks on what does not come from the rules. */
  ghost predicate ColumnsOk(db: Db, req: CommitRequest, env: Env) {
    req.pool in db.pools && req.proposal.effectiveAt >= 0 && env.recordedAt >= 0
  }

  lemma ValidIsComplete(req: CommitRequest)
    ensures ValidRequest(req) <==> Complete(req)
  {}

  /** A call that is not complete is refused before anything is read. */
  lemma IncompleteIsRefused(d: Digest, db: Db, req: CommitRequest, env: Env)
    ensures !Complete(req) ==> Commit(d, db, req, env) == (db, Err(InvalidRequest))
    ensures Complete(req) ==> Commit(d, db, req, env).1 != Err(InvalidRequest)
  {
    hide Refusal, WriteFailure, Written, NewBatch, NewEntries;
    ValidIsComplete(req);
    if Complete(req) { RefusalIsNotInvalid(db, req); FailureIsNotInvalid(d, db, req, env); }
  }

  lemma RefusalIsNotInvalid(db: Db, req: CommitRequest)
    ensures Refusal(db, req) != Some(InvalidRequest)
  {
    hide KeyVerdict, SumsToZero, PrefixesFit, MaxSeq;
    var next := NextPoolSeq(db, req.pool);
    VerdictIsNotInvalid(db, req.pool, next, next - 1, req.proposal, req.proposal.invariants);
  }

  lemma {:induction false} VerdictIsNotInvalid(db: Db, pool: string, seqNo: int, head: int, p: BatchProposal, invs: seq<Invariant>)
    ensures AllDeclared(db, pool, head, p, invs) != Some(InvalidRequest)
    ensures UniversalVerdict(db, pool, seqNo, head, p) != Some(InvalidRequest)
  {
    hide DeclaredVerdict, Accepts, PrefixesFit, Looked, Unreadable;
    if invs != [] {
      DeclaredIs(db, pool, head, p, invs[0]);
      VerdictIsNotInvalid(db, pool, seqNo, head, p, invs[1..]);
    }
  }

  lemma FailureIsNotInvalid(d: Digest, db: Db, req: CommitRequest, env: Env)
    ensures WriteFailure(d, db, req, env, NewBatch(d, db, req, env), NewEntries(db, req, env)) != Some(InvalidRequest)
  {
    hide NewBatch, NewEntries, BatchInsertable, EntryFails, DeltasFit, UpsertFails, UpsertFits, AuditInsertable, OutboxInsertable, NextAudit;
  }

  lemma {:induction false} KeyFree(bs: seq<BatchRow>, pool: string, key: string)
    ensures FindByIdempotencyKey(bs, pool, key).None? <==>
      forall b :: b in bs && b.head.pool == pool ==> b.head.idempotencyKey != Some(key)
  {
    if bs != [] {
      var n := |bs| - 1;
      assert bs == bs[..n] + [bs[n]];
      KeyFree(bs[..n], pool, key);
    }
  }

  lemma RulesAre(db: Db, req: CommitRequest, head: int)
    requires DistinctBy(IdOf, db.batches) && head == Head(db, req.pool)
    ensures Verdict(db, req.pool, head + 1, head, req.proposal).None? <==> RulesPass(db, req)
  {
    hide Verdict, Holds, Accepts, MaxSeq, PoolBatches;
    VerdictIs(db, req.pool, head + 1, head, req.proposal);
  }

  lemma RefusalIs(db: Db, req: CommitRequest)
    requires DistinctBy(IdOf, db.batches)
    ensures Refusal(db, req).None? <==> RulesPass(db, req) && ReadHead(db.meta, HeadKey(req.pool)).Ok?
  {
    hide Verdict, RulesPass, MaxSeq, PoolBatches, ReadHead;
    RulesAre(db, req, Head(db, req.pool));
  }

  lemma BatchFits(d: Digest, db: Db, req: CommitRequest, env: Env)
    requires Complete(req) && RulesPass(db, req)
    ensures BatchInsertable(db, NewBatch(d, db, req, env)) <==>
      ColumnsOk(db, req, env) && Unclaimed(db, req) && forall b :: b in db.batches ==> b.head.id != env.mint(0)
  {
    hide Link, PoolBatches, MaxSeq, ReadHead, Sum, ProposalMoves, Accepts, PrefixesFit;
    var b := NewBatch(d, db, req, env);
    ValidIsComplete(req);
    EachUniversal(db, req.pool, Head(db, req.pool) + 1, Head(db, req.pool), req.proposal);
    forall o | o in db.batches && o.head.pool == req.pool ensures o.head.seqNo != b.head.seqNo {
      SeqsBelowNext(db.batches, req.pool, o);
    }
  }

  /** The ids of the entries are new, and no two are the same. */
  ghost predicate EntryIdsFresh(db: Db, env: Env, n: nat) {
    && (forall e, i: nat :: e in db.entries && 1 <= i <= n ==> e.id != env.mint(i))
    && forall i: nat, j: nat :: 1 <= i < j <= n ==> env.mint(i) != env.mint(j)
  }

  lemma EntriesFit(d: Digest, db: Db, req: CommitRequest, env: Env)
    requires env.fails == {} && RulesPass(db, req) && req.pool in db.pools
    ensures var rows, db1 := NewEntries(db, req, env), db.(batches := db.batches + [NewBatch(d, db, req, env)]);
      (forall i :: 0 <= i < |rows| ==> !EntryFails(db1, rows, i, env.fails)) <==> EntryIdsFresh(db, env, |req.proposal.entries|)
  {
    hide Link, PoolBatches, MaxSeq, ReadHead, Sum, ProposalMoves, Accepts, PrefixesFit;
    var rows, b := NewEntries(db, req, env), NewBatch(d, db, req, env);
    var db1, n := db.(batches := db.batches + [b]), |rows|;
    assert b in db1.batches && b.head.id == env.mint(0);
    EachUniversal(db, req.pool, Head(db, req.pool) + 1, Head(db, req.pool), req.proposal);
    forall i | 0 <= i < n ensures !EntryFails(db1, rows, i, env.fails) <==> IdIsFresh(db, env, i) { EntryFits(db, db1, req, env, rows, i); }
    if EntryIdsFresh(db, env, n) {
      forall i | 0 <= i < n ensures IdIsFresh(db, env, i) {}
    }
    if forall i :: 0 <= i < n ==> IdIsFresh(db, env, i) {
      forall e, i: nat | e in db.entries && 1 <= i <= n ensures e.id != env.mint(i) { assert IdIsFresh(db, env, i - 1); }
      forall i: nat, j: nat | 1 <= i < j <= n ensures env.mint(i) != env.mint(j) { assert IdIsFresh(db, env, j - 1); }
    }
  }

  ghost predicate IdIsFresh(db: Db, env: Env, i: nat) {
    && (forall e :: e in db.entries ==> e.id != env.mint(i + 1))
    && forall j: nat :: 1 <= j <= i ==> env.mint(j) != env.mint(i + 1)
  }

  lemma EntryFits(db: Db, db1: Db, req: CommitRequest, env: Env, rows: seq<EntryRow>, i: nat)
    requires rows == NewEntries(db, req, env) && i < |rows| && env.fails == {} && req.pool in db.pools
    requires db1.pools == db.pools && db1.accounts == db.accounts && db1.entries == db.entries
    requires exists b :: b in db1.batches && b.head.id == env.mint(0)
    requires req.proposal.entries[i].amount != 0 && req.proposal.entries[i].account in db.accounts
    ensures !EntryFails(db1, rows, i, env.fails) <==> IdIsFresh(db, env, i)
  {
    hide PoolBatches, MaxSeq;
    var all := db.entries + rows[..i];
    if IdIsFresh(db, env, i) {
      forall o | o in all ensures o.id != rows[i].id {
        if o !in db.entries {
          var j :| 0 <= j < i && rows[j] == o;
          assert env.mint(j + 1) != env.mint(i + 1);
        }
      }
    }
    if forall o :: o in all ==> o.id != rows[i].id {
      forall j: nat | 1 <= j <= i ensures env.mint(j) != env.mint(i + 1) { assert rows[..i][j - 1] == rows[j - 1] && rows[j - 1] in all; }
    }
  }

  /** No account's change, and no cached balance after it, leaves 64 bits. */
  ghost predicate CacheHasRoom(db: Db, req: CommitRequest) {
    var ms := ProposalMoves(req.proposal.entries);
    forall m :: m in ms ==>
      && PrefixesFit(Amounts(ms, m.key))
      && InRange((if m.key in CacheOf(db, req.pool) then CacheOf(db, req.pool)[m.key].amount else 0) + Net(ms, m.key))
  }

  lemma RoomIs(db: Db, req: CommitRequest, fails: set<Statement>)
    requires fails == {}
    ensures var ms, cache := ProposalMoves(req.proposal.entries), CacheOf(db, req.pool);
      (DeltasFit(ms) && forall k :: k in Keys(ms) ==> !UpsertFails(cache, ms, k, fails)) <==> CacheHasRoom(db, req)
  {
    hide ProposalMoves, PrefixesFit, Group, Sum;
    var ms := ProposalMoves(req.proposal.entries);
    if CacheHasRoom(db, req) {
      forall k | k in Keys(ms) ensures PrefixesFit(Amounts(ms, k)) && !UpsertFails(CacheOf(db, req.pool), ms, k, fails) {
        var m :| m in ms && m.key == k;
      }
    }
    assert forall m :: m in ms ==> m.key in Keys(ms);
  }

  /** The ids of the audit row and the event are new. */
  ghost predicate BookIdsFresh(db: Db, env: Env, n: nat) {
    && (forall a :: a in db.audit ==> a.body.id != env.mint(n + 1))
    && (forall o :: o in db.outbox ==> o.id != env.mint(n + 2))
  }

  lemma BooksFit(d: Digest, db: Db, db1: Db, req: CommitRequest, env: Env)
    requires env.fails == {} && Complete(req)
    requires db1.audit == db.audit && db1.outbox == db.outbox && db1.meta == db.meta
    requires exists b :: b in db1.batches && b.head.id == env.mint(0)
    ensures BooksFailure(d, db1, req, env).None? <==>
      ReadHead(db.meta, AUDIT_HEAD).Ok? && BookIdsFresh(db, env, |req.proposal.entries|)
  {
    hide ReadHead, MaxAuditSeq;
    ValidIsComplete(req);
    forall a | a in db.audit ensures a.body.seqNo != MaxAuditSeq(db.audit) + 1 { AuditBelowNext(db.audit, a); }
  }

  /**
   * With no statement failing of itself, a commit is written if and only if: the request is complete;
   * no stored batch claims its key, its reference or what it reverses; every rule lets it through; both
   * heads can be read; the schema takes its columns; there is room; and the ids it mints are new.
   */
  lemma WritesIff(d: Digest, db: Db, req: CommitRequest, env: Env)
    requires DistinctBy(IdOf, db.batches) && env.fails == {}
    ensures Writes(d, db, req, env) <==>
      && Complete(req) && Unclaimed(db, req) && RulesPass(db, req) && HeadsReadable(db, req) && ColumnsOk(db, req, env)
      && CacheHasRoom(db, req)
      && (forall b :: b in db.batches ==> b.head.id != env.mint(0))
      && EntryIdsFresh(db, env, |req.proposal.entries|) && BookIdsFresh(db, env, |req.proposal.entries|)
  {
    hide RulesPass, ReadHead, CacheHasRoom, EntryIdsFresh, BookIdsFresh, ColumnsOk, Refusal, WriteFailure, ValidRequest, NewBatch, NewEntries;
    ValidIsComplete(req);
    RefusalIs(db, req);
    if req.idempotencyKey.Some? { KeyFree(db.batches, req.pool, req.idempotencyKey.value); }
    if Complete(req) && RulesPass(db, req) { FailureIs(d, db, req, env); }
    if CacheHasRoom(db, req) { RoomHasSubtotals(db, req); }
  }

  /** The batch and its entries are taken by their tables. */
  ghost predicate RowsTaken(db: Db, req: CommitRequest, env: Env) {
    && ColumnsOk(db, req, env) && Unclaimed(db, req) && (forall b :: b in db.batches ==> b.head.id != env.mint(0))
    && EntryIdsFresh(db, env, |req.proposal.entries|)
  }

  ghost predicate SubtotalsFit(req: CommitRequest) {
    var ms := ProposalMoves(req.proposal.entries);
    forall m :: m in ms ==> PrefixesFit(Amounts(ms, m.key))
  }

  lemma RowsFailureIs(d: Digest, db: Db, req: CommitRequest, env: Env)
    requires env.fails == {} && Complete(req) && RulesPass(db, req)
    ensures RowsFailure(db, NewBatch(d, db, req, env), NewEntries(db, req, env), env.fails) ==
      if !RowsTaken(db, req, env) then Some(StoreFailure)
      else if !SubtotalsFit(req) then Some(DeltaOverflow)
      else if !CacheHasRoom(db, req) then Some(StoreFailure)
      else None
  {
    hide RulesPass, CacheHasRoom, EntryIdsFresh, Unclaimed, Complete, Link, BatchInsertable, EntryFails;
    hide UpsertFails, PoolBatches, MaxSeq, ProposalMoves, Moves, NewBatch, PrefixesFit, Group;
    var b, rows := NewBatch(d, db, req, env), NewEntries(db, req, env);
    RowsOfNewBatch(req, env, NextPoolSeq(db, req.pool));
    NewBatchPool(d, db, req, env);
    BatchFits(d, db, req, env);
    if req.pool in db.pools { EntriesFit(d, db, req, env); }
    RoomIs(db, req, env.fails);
    SubtotalsAre(req);
    if CacheHasRoom(db, req) { RoomHasSubtotals(db, req); }
  }

  lemma NewBatchPool(d: Digest, db: Db, req: CommitRequest, env: Env)
    ensures NewBatch(d, db, req, env).head.pool == req.pool
  {
    hide Link, MaxSeq, PoolBatches, Sum;
  }

  lemma SubtotalsAre(req: CommitRequest)
    ensures SubtotalsFit(req) <==> DeltasFit(ProposalMoves(req.proposal.entries))
  {
    hide PrefixesFit, Group, ProposalMoves;
    var ms := ProposalMoves(req.proposal.entries);
    assert forall m :: m in ms ==> m.key in Keys(ms);
  }

  lemma RoomHasSubtotals(db: Db, req: CommitRequest)
    requires CacheHasRoom(db, req)
    ensures SubtotalsFit(req)
  {
    hide PrefixesFit, Group, ProposalMoves;
  }

  lemma BooksFailureIs(d: Digest, db: Db, db1: Db, req: CommitRequest, env: Env)
    requires env.fails == {} && Complete(req)
    requires db1.audit == db.audit && db1.outbox == db.outbox && db1.meta == db.meta
    requires exists b :: b in db1.batches && b.head.id == env.mint(0)
    ensures BooksFailure(d, db1, req, env) ==
      if ReadHead(db.meta, AUDIT_HEAD).Err? then Some(BadHead)
      else if !BookIdsFresh(db, env, |req.proposal.entries|) then Some(StoreFailure)
      else None
  {
    hide ReadHead, AuditInsertable, OutboxInsertable, BookIdsFresh, NextAudit, Complete;
    BooksFit(d, db, db1, req, env);
  }

  /**
   * What a complete request that nobody made before comes to, when no statement fails of itself: the
   * first that applies of a rule's refusal, an unreadable head, rows the tables do not take, a change of
   * one account that overflows, a cached balance that would, an unreadable audit head, and an id that is
   * not new. With none of them it is written.
   */
  lemma OutcomeIs(d: Digest, db: Db, req: CommitRequest, env: Env)
    requires DistinctBy(IdOf, db.batches) && env.fails == {} && Complete(req) && !Replays(db, req)
    ensures var out, head := Commit(d, db, req, env).1, Head(db, req.pool);
      if !RulesPass(db, req) then
        out.Err? && Verdict(db, req.pool, head + 1, head, req.proposal) == Some(out.error)
      else if ReadHead(db.meta, HeadKey(req.pool)).Err? then out == Err(BadHead)
      else if !RowsTaken(db, req, env) then out == Err(StoreFailure)
      else if !SubtotalsFit(req) then out == Err(DeltaOverflow)
      else if !CacheHasRoom(db, req) then out == Err(StoreFailure)
      else if ReadHead(db.meta, AUDIT_HEAD).Err? then out == Err(BadHead)
      else if !BookIdsFresh(db, env, |req.proposal.entries|) then out == Err(StoreFailure)
      else out.Ok?
  {
    hide RulesPass, ReadHead, CacheHasRoom, RowsTaken, SubtotalsFit, BookIdsFresh, Complete, ValidRequest, Verdict, WriteFailure, NewBatch, NewEntries, MaxSeq, PoolBatches;
    ValidIsComplete(req);
    RulesAre(db, req, Head(db, req.pool));
    if RulesPass(db, req) { FailureIs(d, db, req, env); }
  }

  lemma FailureIs(d: Digest, db: Db, req: CommitRequest, env: Env)
    requires env.fails == {} && Complete(req) && RulesPass(db, req)
    ensures WriteFailure(d, db, req, env, NewBatch(d, db, req, env), NewEntries(db, req, env)) ==
      if !RowsTaken(db, req, env) then Some(StoreFailure)
      else if !SubtotalsFit(req) then Some(DeltaOverflow)
      else if !CacheHasRoom(db, req) then Some(StoreFailure)
      else if ReadHead(db.meta, AUDIT_HEAD).Err? then Some(BadHead)
      else if !BookIdsFresh(db, env, |req.proposal.entries|) then Some(StoreFailure)
      else None
  {
    hide RulesPass, ReadHead, CacheHasRoom, RowsTaken, SubtotalsFit, BookIdsFresh, Complete, RowsFailure, BooksFailure, NewBatch, NewEntries, Upserted;
    var b, rows := NewBatch(d, db, req, env), NewEntries(db, req, env);
    RowsFailureIs(d, db, req, env);
    if RowsFailure(db, b, rows, env.fails).None? {
      WrittenRowsFit(db, b, rows, env.fails);
      var db1 := WithRows(db, b, rows);
      NewBatchId(d, db, req, env);
      assert b in db1.batches && b.head.id == env.mint(0);
      BooksFailureIs(d, db, db1, req, env);
    }
  }

  lemma NewBatchId(d: Digest, db: Db, req: CommitRequest, env: Env)
    ensures NewBatch(d, db, req, env).head.id == env.mint(0)
  {
    hide Link, MaxSeq, PoolBatches, Sum;
  }

  /** A commit is written only when every statement it sends goes through. */
  lemma WrittenSentAll(d: Digest, db: Db, req: CommitRequest, env: Env)
    requires Writes(d, db, req, env)
    ensures {InsertBatch, InsertAudit, InsertOutbox, LedgerHead, AuditHead, EndTransaction} !! env.fails
    ensures req.idempotencyKey != None ==> Lookup !in env.fails
    ensures forall i: nat :: i < |req.proposal.entries| ==> InsertEntry(i) !in env.fails
    ensures forall m :: m in ProposalMoves(req.proposal.entries) ==> Upsert(m.key) !in env.fails
  {
    hide Link, Refusal, BatchInsertable, EntryInsertable, AuditInsertable, OutboxInsertable, UpsertFits, DeltasFit, MaxSeq, PoolBatches, ProposalMoves, Moves;
    var b, rows := NewBatch(d, db, req, env), NewEntries(db, req, env);
    var db1 := db.(batches := db.batches + [b]);
    RowsOfNewBatch(req, env, NextPoolSeq(db, req.pool));
    forall i: nat | i < |rows| ensures InsertEntry(i) !in env.fails { assert !EntryFails(db1, rows, i, env.fails); }
    forall m | m in Moves(rows) ensures Upsert(m.key) !in env.fails {
      assert m.key in Keys(Moves(rows)) && !UpsertFails(CacheOf(db, b.head.pool), Moves(rows), m.key, env.fails);
    }
  }
}
