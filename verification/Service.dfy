/**
 * The commit service and the tables it writes (internal/ledger/commit.go, snapshot.go, seq.go).
 * Each statement may fail; a call that fails rolls back to the tables it started from.
 */
module Service {
  import opened Wrappers
  import opened Int64
  import opened Rows
  import opened Hex
  import opened Queries
  import opened Proposals
  import opened Invariants
  import opened CommitSpec

  /** One account's contribution to the cache from a single batch. */
  datatype SnapshotDelta = SnapshotDelta(amount: int64, asOf: int, count: int, updatedAt: int)

  class Store {
    var pools: seq<string>
    var accounts: map<string, AccountKind>
    var batches: seq<BatchRow>
    var entries: seq<EntryRow>
    var cache: map<string, map<SnapKey, Snap>>
    var audit: seq<AuditRow>
    var outbox: seq<OutboxRow>
    var lastEvent: int
    var meta: map<string, string>

    constructor (db: Db)
      ensures State() == db
    {
      pools, accounts, batches, entries, cache := db.pools, db.accounts, db.batches, db.entries, db.cache;
      audit, outbox, lastEvent, meta := db.audit, db.outbox, db.lastEvent, db.meta;
    }

    /** The tables as one value: what a statement of the transaction reads. */
    function State(): Db
      reads this
    {
      Db(pools, accounts, batches, entries, cache, audit, outbox, lastEvent, meta)
    }

    method Rollback(saved: Db)
      modifies this
      ensures State() == saved
    {
      pools, accounts, batches, entries, cache := saved.pools, saved.accounts, saved.batches, saved.entries, saved.cache;
      audit, outbox, lastEvent, meta := saved.audit, saved.outbox, saved.lastEvent, saved.meta;
    }

    // ---- single statements ----

    method InsertLedgerBatch(b: BatchRow, fails: set<Statement>) returns (ok: bool)
      modifies this
      ensures ok <==> InsertBatch !in fails && BatchInsertable(old(State()), b)
      ensures State() == if ok then old(State()).(batches := old(batches) + [b]) else old(State())
    {
      ok := InsertBatch !in fails && BatchInsertable(State(), b);
      if ok { batches := batches + [b]; }
    }

    method InsertLedgerEntry(i: nat, e: EntryRow, fails: set<Statement>) returns (ok: bool)
      modifies this
      ensures ok <==> InsertEntry(i) !in fails && EntryInsertable(old(State()), e)
      ensures State() == if ok then old(State()).(entries := old(entries) + [e]) else old(State())
    {
      ok := InsertEntry(i) !in fails && EntryInsertable(State(), e);
      if ok { entries := entries + [e]; }
    }

    /** The additive upsert: amount and count are added, the seq and the time advance. */
    method UpsertBalanceSnapshot(pool: string, k: SnapKey, d: SnapshotDelta, fails: set<Statement>) returns (ok: bool)
      modifies this
      ensures var row := Cached(CacheOf(old(State()), pool), k);
              && (ok <==> Upsert(k) !in fails && InRange(row.amount + d.amount))
              && State() == if ok
                 then old(State()).(cache := old(cache)[pool := CacheOf(old(State()), pool)[k :=
                        Snap(row.amount + d.amount, d.asOf, row.count + d.count, d.updatedAt)]])
                 else old(State())
    {
      var rows := CacheOf(State(), pool);
      var row := Cached(rows, k);
      ok := Upsert(k) !in fails && InRange(row.amount + d.amount);
      if ok { cache := cache[pool := rows[k := Snap(row.amount + d.amount, d.asOf, row.count + d.count, d.updatedAt)]]; }
    }

    method WriteHead(key: string, hash: Bytes, statement: Statement, fails: set<Statement>) returns (ok: bool)
      modifies this
      ensures ok <==> statement !in fails
      ensures State() == if ok then old(State()).(meta := old(meta)[key := EncodeHead(hash)]) else old(State())
    {
      ok := statement !in fails;
      if ok { meta := meta[key := EncodeHead(hash)]; }
    }

    // ---- the steps of a commit ----

    method InsertEntries(rows: seq<EntryRow>, fails: set<Statement>) returns (ok: bool)
      modifies this
      ensures ok <==> !exists i :: 0 <= i < |rows| && EntryFails(old(State()), rows, i, fails)
      ensures ok ==> State() == old(State()).(entries := old(entries) + rows)
    {
      ghost var before := State();
      for i := 0 to |rows|
        invariant State() == before.(entries := before.entries + rows[..i])
        invariant forall j :: 0 <= j < i ==> !EntryFails(before, rows, j, fails)
      {
        ok := InsertLedgerEntry(i, rows[i], fails);
        if !ok {
          assert EntryFails(before, rows, i, fails);
          return;
        }
        assert before.entries + rows[..i] + [rows[i]] == before.entries + rows[..i + 1];
      }
      assert rows[..|rows|] == rows;
      return true;
    }

    /** Fold a batch's entries into one delta per key, remembering the order keys appear in. */
    static method Deltas(b: BatchRow, rows: seq<EntryRow>)
      returns (deltas: Option<map<SnapKey, SnapshotDelta>>, order: seq<SnapKey>)
      ensures deltas.Some? <==> DeltasFit(Moves(rows))
      ensures deltas.Some? ==> DeltasHold(b, Moves(rows), deltas.value) && OrderHolds(deltas.value.Keys, order)
    {
      hide Keys, Amounts, PrefixesFit, DeltasHold, OrderHolds, AddCentipoints;
      ghost var ms := Moves(rows);
      var found: map<SnapKey, SnapshotDelta> := map[];
      order := [];
      NoDeltas(b);
      assert found.Keys == {};
      for i := 0 to |rows|
        invariant DeltasHold(b, ms[..i], found) && OrderHolds(found.Keys, order)
      {
        var e := rows[i];
        var k := SnapKey(e.account, e.kind);
        assert MoveOf(e) == ms[i] && ms[..i + 1] == ms[..i] + [ms[i]];
        var d := DeltaAt(b, found, k);
        DeltaSoFar(b, ms[..i], found, ms[i]);
        AddCentipointsIsExact(d.amount, e.amount);
        var sum := AddCentipoints(d.amount, e.amount);
        if sum.None? {
          DeltaOverflows(ms, i);
          return None, order;
        }
        DeltasStep(b, ms[..i], found, ms[i], sum.value);
        if k !in found {
          NextInOrder(found.Keys, order, k);
          order := order + [k];
        }
        ghost var keys := found.Keys;
        found := found[k := d.(amount := sum.value, count := d.count + 1)];
        assert found.Keys == keys + {k} && (k in keys ==> keys + {k} == keys);
      }
      assert ms[..|rows|] == ms;
      DeltasDone(b, ms, found);
      return Some(found), order;
    }

    /** `upsertSnapshots`: one additive upsert per key, after every delta is known to fit. */
    method UpsertSnapshots(b: BatchRow, rows: seq<EntryRow>, fails: set<Statement>) returns (r: Option<CommitError>)
      requires rows != []
      modifies this
      ensures var ms, cached := Moves(rows), CacheOf(old(State()), b.head.pool);
              && r == (if !DeltasFit(ms) then Some(DeltaOverflow)
                       else if exists k :: k in Keys(ms) && UpsertFails(cached, ms, k, fails) then Some(StoreFailure)
                       else None)
              && (r.None? ==>
                    && (forall k :: k in Keys(ms) ==> UpsertFits(cached, ms, k))
                    && State() == old(State()).(cache :=
                         old(cache)[b.head.pool := Upserted(cached, ms, b.head.seqNo, b.head.recordedAt)]))
    {
      hide Keys, Moves, Amounts, Net, UpsertFits, UpsertedKeys, Upserted, Upserting, DeltasFit, DeltasHold, CacheOf, Cached;
      ghost var before, ms, cached := State(), Moves(rows), CacheOf(State(), b.head.pool);
      var deltas, order := Deltas(b, rows);
      if deltas.None? { return Some(DeltaOverflow); }
      ghost var done: set<SnapKey> := {};
      UpsertingEnds(before, b, ms);
      DeltasHaveKeys(b, ms, deltas.value);
      for i := 0 to |order|
        invariant forall k :: k in done <==> k in order[..i]
        invariant forall k :: k in done ==> !UpsertFails(cached, ms, k, fails)
        invariant forall k :: k in done ==> UpsertFits(cached, ms, k)
        invariant State() == Upserting(before, b, ms, done)
      {
        var k := order[i];
        assert k in order && k !in order[..i];
        ghost var here := State();
        UpsertTurn(before, b, ms, deltas.value, done, k);
        var ok := UpsertBalanceSnapshot(b.head.pool, k, deltas.value[k], fails);
        if !ok {
          assert UpsertFails(cached, ms, k, fails);
          return Some(StoreFailure);
        }
        done := done + {k};
        assert order[..i + 1] == order[..i] + [k];
      }
      assert order[..|order|] == order;
      assert done == Keys(ms);
      SomeKey(rows);
      return None;
    }

    /** `materialise`: mint the ids, stamp the times and lay the rows out. */
    method Materialise(req: CommitRequest, env: Env, seqNo: int)
      returns (r: Option<(BatchHeader, seq<EntryRow>)>)
      ensures var xs := AllAmounts(ProposalMoves(req.proposal.entries));
              r == if PrefixesFit(xs) then Some((HeaderOf(req, env, seqNo, Sum(xs)), EntriesFor(req, env, seqNo))) else None
    {
      var net := NetAmount(req.proposal.entries);
      if net.None? { return None; }
      var rows: seq<EntryRow> := [];
      for i := 0 to |req.proposal.entries|
        invariant rows == EntriesFor(req, env, seqNo)[..i]
      {
        rows := rows + [EntryOf(req, env, seqNo, i)];
      }
      assert rows == EntriesFor(req, env, seqNo);
      return Some((HeaderOf(req, env, seqNo, net.value), rows));
    }

    method WriteAudit(d: Digest, req: CommitRequest, env: Env) returns (r: Result<AuditRow, CommitError>)
      modifies this
      ensures var before, head := old(State()), ReadHead(old(meta), AUDIT_HEAD);
              var row := AuditFor(d, req, env, MaxAuditSeq(before.audit) + 1, if head.Ok? then head.value else []);
              && (r == if head.Err? then Err(BadHead)
                       else if InsertAudit in env.fails || !AuditInsertable(before, row) then Err(StoreFailure)
                       else Ok(row))
              && (r.Ok? ==> State() == before.(audit := before.audit + [row]))
    {
      var seqNo := MaxAuditSeq(audit) + 1;
      var prev := ReadHead(meta, AUDIT_HEAD);
      if prev.Err? { return Err(BadHead); }
      var row := AuditFor(d, req, env, seqNo, prev.value);
      if InsertAudit in env.fails || !AuditInsertable(State(), row) { return Err(StoreFailure); }
      audit := audit + [row];
      return Ok(row);
    }

    method WriteOutboxEvent(req: CommitRequest, env: Env) returns (r: Option<int>)
      modifies this
      ensures var before := old(State());
              var row := EventFor(req, env, before.lastEvent + 1);
              && r == (if InsertOutbox in env.fails || !OutboxInsertable(before, row) then None else Some(before.lastEvent + 1))
              && (r.Some? ==> State() == before.(outbox := before.outbox + [row], lastEvent := before.lastEvent + 1))
    {
      var row := EventFor(req, env, lastEvent + 1);
      if InsertOutbox in env.fails || !OutboxInsertable(State(), row) { return None; }
      lastEvent := lastEvent + 1;
      outbox := outbox + [row];
      return Some(lastEvent);
    }

    /** The first half of the write phase: the batch, its entries and the cache. */
    method WriteRows(b: BatchRow, rows: seq<EntryRow>, fails: set<Statement>) returns (r: Option<CommitError>)
      requires rows != []
      modifies this
      ensures r == RowsFailure(old(State()), b, rows, fails)
      ensures r.None? ==>
        && (forall k :: k in Keys(Moves(rows)) ==> UpsertFits(CacheOf(old(State()), b.head.pool), Moves(rows), k))
        && State() == WithRows(old(State()), b, rows)
    {
      hide DeltasFit, UpsertFails, UpsertFits, UpsertedKeys, EntryFails, BatchInsertable, Keys, Moves;
      var ok := InsertLedgerBatch(b, fails);
      if !ok { return Some(StoreFailure); }
      ok := InsertEntries(rows, fails);
      if !ok { return Some(StoreFailure); }
      r := UpsertSnapshots(b, rows, fails);
    }

    /** The second half: the audit row, the event and the two heads, last. */
    method WriteBooks(d: Digest, req: CommitRequest, env: Env, b: BatchRow) returns (r: Result<(int, int), CommitError>)
      modifies this
      ensures var before := old(State());
              var failure := BooksFailure(d, before, req, env);
              && r == (if failure.Some? then Err(failure.value) else Ok((MaxAuditSeq(before.audit) + 1, before.lastEvent + 1)))
              && (r.Ok? ==> State() == WithBooks(d, before, req, env, b))
    {
      hide AuditInsertable, EventFor, MaxAuditSeq, EncodeHead, DecodeHead;
      var auditRow := WriteAudit(d, req, env);
      if auditRow.Err? { return Err(auditRow.error); }
      var event := WriteOutboxEvent(req, env);
      if event.None? { return Err(StoreFailure); }
      var ok := WriteHead(HeadKey(req.pool), b.hash, LedgerHead, env.fails);
      if !ok { return Err(StoreFailure); }
      ok := WriteHead(AUDIT_HEAD, auditRow.value.hash, AuditHead, env.fails);
      if !ok { return Err(StoreFailure); }
      return Ok((auditRow.value.body.seqNo, event.value));
    }

    /** `write`: allocate the seq, check, hash, then every insert and the two heads last. */
    method Write(d: Digest, req: CommitRequest, env: Env) returns (r: Result<Receipt, CommitError>)
      modifies this
      ensures var result := WriteResult(d, old(State()), req, env);
              && (result.Err? ==> r == Err(result.error))
              && (result.Ok? ==> r == Ok(result.value.1) && State() == result.value.0)
    {
      hide Sum, ProposalMoves, Moves, PoolBatches, MaxSeq, Upserted, AllDeclared, RowsFailure, BooksFailure, WithRows, WithBooks, Link;
      var seqNo := NextPoolSeq(State(), req.pool);
      var refused := CheckInvariants(State(), req.pool, seqNo, seqNo - 1, req.proposal);
      if refused.Some? { return Err(refused.value); }
      var laidOut := Materialise(req, env, seqNo);
      if laidOut.None? { assert false; }
      var (head, rows) := laidOut.value;
      var prev := ReadHead(meta, HeadKey(req.pool));
      if prev.Err? { return Err(BadHead); }
      var b := BatchRow(head, prev.value, Link(d, prev.value, head, rows));
      ghost var before := State();
      assert b == NewBatch(d, before, req, env) && rows == NewEntries(before, req, env);
      var failed := WriteRows(b, rows, env.fails);
      if failed.Some? { return Err(failed.value); }
      assert State().audit == before.audit && State().lastEvent == before.lastEvent by { WithRowsKeepsBooks(before, b, rows); }
      var seqs := WriteBooks(d, req, env, b);
      if seqs.Err? { return Err(seqs.error); }
      return Ok(Receipt(b.head.id, b.head.seqNo, b.prevHash, b.hash, b.head.entryCount, b.head.netAmount,
                        seqs.value.0, seqs.value.1, false));
    }

    /** `Commit`: validate, then replay or write inside one transaction. */
    method CommitBatch(d: Digest, req: CommitRequest, env: Env) returns (r: Result<Receipt, CommitError>)
      modifies this
      ensures (State(), r) == Commit(d, old(State()), req, env)
    {
      hide WriteResult, ValidRequest, FindByIdempotencyKey;
      if !ValidRequest(req) { return Err(InvalidRequest); }
      var saved := State();
      r := RunTransaction(d, req, env);
      if r.Ok? && EndTransaction in env.fails { r := Err(StoreFailure); }
      if r.Err? { Rollback(saved); }
    }

    /** The function the transaction runs: the idempotency lookup first, then the write. */
    method RunTransaction(d: Digest, req: CommitRequest, env: Env) returns (r: Result<Receipt, CommitError>)
      modifies this
      ensures var result := InTransaction(d, old(State()), req, env);
              && (result.Err? ==> r == Err(result.error))
              && (result.Ok? ==> r == Ok(result.value.1) && State() == result.value.0)
    {
      hide WriteResult, FindByIdempotencyKey;
      if req.idempotencyKey.Some? {
        if Lookup in env.fails { return Err(StoreFailure); }
        var first := FindByIdempotencyKey(batches, req.pool, req.idempotencyKey.value);
        if first.Some? { return Ok(ReplayReceipt(first.value)); }
      }
      r := Write(d, req, env);
    }
  }

  lemma WithRowsKeepsBooks(db: Db, b: BatchRow, rows: seq<EntryRow>)
    requires forall k :: k in Keys(Moves(rows)) ==> UpsertFits(CacheOf(db, b.head.pool), Moves(rows), k)
    ensures var after := WithRows(db, b, rows);
            after.audit == db.audit && after.lastEvent == db.lastEvent && after.meta == db.meta
  {}

  // ---- the delta loop ----

  function DeltaAt(b: BatchRow, found: map<SnapKey, SnapshotDelta>, k: SnapKey): SnapshotDelta {
    if k in found then found[k] else SnapshotDelta(0, b.head.seqNo, 0, b.head.recordedAt)
  }

  /** The deltas of the moves seen so far. */
  ghost predicate DeltasHold(b: BatchRow, ms: seq<Move>, found: map<SnapKey, SnapshotDelta>) {
    && found.Keys == Keys(ms)
    && forall k :: k in found ==> DeltaHolds(b, ms, found[k], k)
  }

  ghost predicate DeltaHolds(b: BatchRow, ms: seq<Move>, d: SnapshotDelta, k: SnapKey) {
    && PrefixesFit(Amounts(ms, k))
    && d.amount == Net(ms, k) && d.count == |Amounts(ms, k)|
    && d.asOf == b.head.seqNo && d.updatedAt == b.head.recordedAt
  }

  /** The keys, each once, in the order they first appear. */
  ghost predicate OrderHolds(keys: set<SnapKey>, order: seq<SnapKey>) {
    (forall k :: k in order <==> k in keys) && Ordering.DistinctBy((k: SnapKey) => k, order)
  }

  lemma NoDeltas(b: BatchRow)
    ensures DeltasHold(b, [], map[]) && OrderHolds({}, [])
  {
    assert Keys([]) == {};
  }

  lemma NextInOrder(keys: set<SnapKey>, order: seq<SnapKey>, k: SnapKey)
    requires OrderHolds(keys, order) && k !in keys
    ensures OrderHolds(keys + {k}, order + [k])
  {
    assert forall i :: 0 <= i < |order| ==> order[i] in keys;
  }

  lemma DeltaSoFar(b: BatchRow, ms: seq<Move>, found: map<SnapKey, SnapshotDelta>, m: Move)
    requires DeltasHold(b, ms, found)
    ensures DeltaHolds(b, ms, DeltaAt(b, found, m.key), m.key)
    ensures PrefixesFit(Amounts(ms + [m], m.key)) <==> InRange(Net(ms, m.key) + m.amount)
  {
    hide Group, PrefixesFit, Sum, Keys;
    GroupSnoc(ByKey, ms, m, m.key);
    PrefixesFitSnoc(Amounts(ms, m.key), m.amount);
    if m.key !in found { NoAmounts(ms, m.key); }
  }

  lemma NoAmounts(ms: seq<Move>, k: SnapKey)
    requires k !in Keys(ms)
    ensures Amounts(ms, k) == [] && Net(ms, k) == 0 && PrefixesFit(Amounts(ms, k))
  {
    assert forall x :: x in ms ==> x.key in Keys(ms);
    GroupOfUntouched(ByKey, ms, k);
  }

  lemma DeltaOverflows(ms: seq<Move>, i: nat)
    requires i < |ms| && !PrefixesFit(Amounts(ms[..i] + [ms[i]], ms[i].key))
    ensures !DeltasFit(ms)
  {
    assert ms[..i + 1] == ms[..i] + [ms[i]];
    GroupOverflows(ByKey, ms, i + 1, ms[i].key);
    assert ms[i] in ms && ms[i].key in Keys(ms);
    assert !PrefixesFit(Amounts(ms, ms[i].key));
  }

  lemma DeltasStep(b: BatchRow, ms: seq<Move>, found: map<SnapKey, SnapshotDelta>, m: Move, sum: int64)
    requires DeltasHold(b, ms, found) && sum == Net(ms, m.key) + m.amount
    ensures var d := DeltaAt(b, found, m.key);
            DeltasHold(b, ms + [m], found[m.key := d.(amount := sum, count := d.count + 1)])
  {
    hide DeltaHolds, Keys;
    var d := DeltaAt(b, found, m.key);
    var next := found[m.key := d.(amount := sum, count := d.count + 1)];
    DeltaSoFar(b, ms, found, m);
    KeysOfSnoc(ms, m);
    forall k | k in next ensures DeltaHolds(b, ms + [m], next[k], k) {
      DeltaStep(b, ms, DeltaAt(b, found, k), k, m, sum);
    }
  }

  lemma DeltaStep(b: BatchRow, ms: seq<Move>, d: SnapshotDelta, k: SnapKey, m: Move, sum: int64)
    requires DeltaHolds(b, ms, d, k) && sum == Net(ms, m.key) + m.amount
    ensures DeltaHolds(b, ms + [m], if k == m.key then d.(amount := sum, count := d.count + 1) else d, k)
  {
    hide Group, PrefixesFit, Sum;
    GroupSnoc(ByKey, ms, m, k);
    assert Amounts(ms + [m], k) == if k == m.key then Amounts(ms, k) + [m.amount] else Amounts(ms, k);
    PrefixesFitSnoc(Amounts(ms, k), m.amount);
    SumSnoc(Amounts(ms, k), m.amount);
  }

  lemma KeysOfSnoc(ms: seq<Move>, m: Move)
    ensures Keys(ms + [m]) == Keys(ms) + {m.key}
  {}

  lemma DeltasDone(b: BatchRow, ms: seq<Move>, found: map<SnapKey, SnapshotDelta>)
    requires DeltasHold(b, ms, found)
    ensures DeltasFit(ms)
  {
    forall k | k in Keys(ms) ensures PrefixesFit(Amounts(ms, k)) { assert DeltaHolds(b, ms, found[k], k); }
  }

  // ---- the upsert loop ----

  /** The tables once the keys in `done` are upserted. */
  ghost function Upserting(before: Db, b: BatchRow, ms: seq<Move>, done: set<SnapKey>): Db
    requires forall k :: k in done ==> UpsertFits(CacheOf(before, b.head.pool), ms, k)
  {
    if done == {} then before
    else before.(cache := before.cache[b.head.pool :=
           UpsertedKeys(CacheOf(before, b.head.pool), ms, done, b.head.seqNo, b.head.recordedAt)])
  }

  lemma DeltasHaveKeys(b: BatchRow, ms: seq<Move>, deltas: map<SnapKey, SnapshotDelta>)
    requires DeltasHold(b, ms, deltas)
    ensures deltas.Keys == Keys(ms)
  {
    hide Amounts, Net;
  }

  lemma UpsertingEnds(before: Db, b: BatchRow, ms: seq<Move>)
    ensures Upserting(before, b, ms, {}) == before
    ensures Keys(ms) != {} && (forall k :: k in Keys(ms) ==> UpsertFits(CacheOf(before, b.head.pool), ms, k)) ==>
      Upserting(before, b, ms, Keys(ms)) == before.(cache :=
        before.cache[b.head.pool := Upserted(CacheOf(before, b.head.pool), ms, b.head.seqNo, b.head.recordedAt)])
  {
    hide Keys, UpsertFits, UpsertedKeys;
  }

  /** One turn of the loop, in terms of the delta that is upserted. */
  lemma UpsertTurn(before: Db, b: BatchRow, ms: seq<Move>, deltas: map<SnapKey, SnapshotDelta>, done: set<SnapKey>, k: SnapKey)
    requires DeltasHold(b, ms, deltas) && k in deltas && k !in done
    requires forall j :: j in done ==> UpsertFits(CacheOf(before, b.head.pool), ms, j)
    ensures var pool, now, d := b.head.pool, Upserting(before, b, ms, done), deltas[k];
            var row := Cached(CacheOf(now, pool), k);
            && (UpsertFits(CacheOf(before, pool), ms, k) <==> InRange(row.amount + d.amount))
            && (UpsertFits(CacheOf(before, pool), ms, k) ==>
                  Upserting(before, b, ms, done + {k}) ==
                    now.(cache := now.cache[pool := CacheOf(now, pool)[k :=
                      Snap(row.amount + d.amount, d.asOf, row.count + d.count, d.updatedAt)]]))
  {
    hide Keys, Net, Amounts, Upserting, CacheOf, Cached, UpsertFits;
    UpsertStep(before, b, ms, done, k);
  }

  /** The next upsert starts from the row the batch found, because no key comes twice. */
  lemma UpsertStep(before: Db, b: BatchRow, ms: seq<Move>, done: set<SnapKey>, k: SnapKey)
    requires k !in done && forall j :: j in done ==> UpsertFits(CacheOf(before, b.head.pool), ms, j)
    ensures var pool, cached, now := b.head.pool, CacheOf(before, b.head.pool), Upserting(before, b, ms, done);
            && Cached(CacheOf(now, pool), k) == Cached(cached, k)
            && (UpsertFits(cached, ms, k) <==> InRange(Cached(cached, k).amount + Net(ms, k)))
            && (UpsertFits(cached, ms, k) ==>
                  Upserting(before, b, ms, done + {k}) ==
                    now.(cache := now.cache[pool := CacheOf(now, pool)[k :=
                      Snap(Cached(cached, k).amount + Net(ms, k), b.head.seqNo,
                           Cached(cached, k).count + |Amounts(ms, k)|, b.head.recordedAt)]]))
  {
    hide Net, Amounts;
    var pool, cached, now := b.head.pool, CacheOf(before, b.head.pool), Upserting(before, b, ms, done);
    NothingUpserted(cached, ms, b.head.seqNo, b.head.recordedAt);
    if UpsertFits(cached, ms, k) {
      OneMoreKey(cached, ms, done, k, b.head.seqNo, b.head.recordedAt);
      if done != {} {
        assert now.cache[pool := UpsertedKeys(cached, ms, done + {k}, b.head.seqNo, b.head.recordedAt)]
          == before.cache[pool := UpsertedKeys(cached, ms, done + {k}, b.head.seqNo, b.head.recordedAt)];
      }
    }
  }

  lemma NothingUpserted(cached: map<SnapKey, Snap>, ms: seq<Move>, seqNo: int, at: int)
    ensures UpsertedKeys(cached, ms, {}, seqNo, at) == cached
  {}

  lemma OneMoreKey(cached: map<SnapKey, Snap>, ms: seq<Move>, done: set<SnapKey>, k: SnapKey, seqNo: int, at: int)
    requires UpsertFits(cached, ms, k) && forall j :: j in done ==> UpsertFits(cached, ms, j)
    ensures UpsertedKeys(cached, ms, done + {k}, seqNo, at)
         == UpsertedKeys(cached, ms, done, seqNo, at)[k :=
              Snap(Cached(cached, k).amount + Net(ms, k), seqNo, Cached(cached, k).count + |Amounts(ms, k)|, at)]
  {}

  lemma SomeKey(rows: seq<EntryRow>)
    requires rows != []
    ensures Keys(Moves(rows)) != {}
  {
    assert Moves(rows)[0] in Moves(rows);
    assert Moves(rows)[0].key in Keys(Moves(rows));
  }
}
