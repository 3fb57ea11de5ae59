/** What every committed database satisfies, and that one commit keeps it. */
module LedgerInvariant {
  import opened Wrappers
  import opened Int64
  import opened Ordering
  import opened Rows
  import opened Hex
  import opened Queries
  import opened Proposals
  import opened Invariants
  import opened CommitSpec
  import opened VerifySpec
  import opened Attestation

  /** No ledger row, no audit row and no chain head; any pools and accounts. */
  ghost predicate Genesis(db: Db) {
    && db.batches == [] && db.entries == [] && db.cache == map[] && db.audit == []
    && AUDIT_HEAD !in db.meta && forall p :: HeadKey(p) !in db.meta
  }

  ghost predicate PoolInv(d: Digest, db: Db, pool: string) {
    var log := Log(db, pool);
    && ChainHolds(d, log)
    && HeadHolds(db.meta, HeadKey(pool), HashBefore(log, |log|))
    && Mirrors(CacheOf(db, pool), Flat(log))
  }

  ghost predicate AuditInv(d: Digest, db: Db) {
    && (forall i :: 0 <= i < |db.audit| ==> AuditRowHolds(d, db.audit, i))
    && HeadHolds(db.meta, AUDIT_HEAD, AuditHashBefore(db.audit, |db.audit|))
  }

  function BatchId(b: BatchRow): string { b.head.id }

  ghost predicate HasBatch(bs: seq<BatchRow>, id: string) { exists b :: b in bs && b.head.id == id }

  ghost predicate KeysOk(db: Db) {
    && DistinctBy(BatchId, db.batches)
    && forall e :: e in db.entries ==> HasBatch(db.batches, e.batch)
  }

  ghost predicate Inv(d: Digest, db: Db) {
    KeysOk(db) && AuditInv(d, db) && forall pool :: PoolInv(d, db, pool)
  }

  lemma GenesisInv(d: Digest, db: Db)
    requires Genesis(db)
    ensures Inv(d, db)
  {
    forall pool ensures PoolInv(d, db, pool) {
      assert Log(db, pool) == [];
      assert Keys(Moves([])) == {};
    }
  }

  // ---- the log ----

  lemma RowsOfNewBatch(req: CommitRequest, env: Env, seqNo: int)
    ensures var rows := EntriesFor(req, env, seqNo);
            && Moves(rows) == ProposalMoves(req.proposal.entries)
            && (forall e :: e in rows ==> e.batch == env.mint(0) && e.pool == req.pool && e.seqNo == seqNo)
  {}

  lemma {:induction false} NoEntriesYet(es: seq<EntryRow>, id: string)
    requires forall e :: e in es ==> e.batch != id
    ensures EntriesOf(es, id) == []
  {
    if es != [] {
      var n := |es| - 1;
      assert es == es[..n] + [es[n]];
      NoEntriesYet(es[..n], id);
    }
  }

  lemma LogOfWritten(db: Db, db': Db, b: BatchRow, rows: seq<EntryRow>, pool: string)
    requires KeysOk(db)
    requires db'.batches == db.batches + [b] && db'.entries == db.entries + rows
    requires !HasBatch(db.batches, b.head.id) && forall e :: e in rows ==> e.batch == b.head.id
    ensures Log(db', pool) == Log(db, pool) + if b.head.pool == pool then [Item(b, rows)] else []
  {
    hide PoolBatches, EntriesOf;
    PoolBatchesSnoc(db.batches, b, pool);
    var bs := PoolBatches(db.batches, pool);
    PoolBatchesMembers(db.batches, pool);
    forall o | o in bs ensures o.head.id != b.head.id { assert o in db.batches; }
    OldItems(bs, db.entries, rows, b.head.id);
    if b.head.pool == pool {
      NewItem(db, b, rows);
      ItemsSnoc(bs, b, db'.entries);
    } else {
      assert bs + [] == bs;
    }
  }

  lemma ItemsSnoc(bs: seq<BatchRow>, b: BatchRow, es: seq<EntryRow>)
    ensures Items(bs + [b], es) == Items(bs, es) + [Item(b, EntriesOf(es, b.head.id))]
  {}

  lemma NewItem(db: Db, b: BatchRow, rows: seq<EntryRow>)
    requires KeysOk(db) && !HasBatch(db.batches, b.head.id) && forall e :: e in rows ==> e.batch == b.head.id
    ensures EntriesOf(db.entries + rows, b.head.id) == rows
  {
    EntriesOfAppend(db.entries, rows, b.head.id);
    EntriesOfSame(rows, b.head.id, b.head.id);
    NoEntriesYet(db.entries, b.head.id);
    assert [] + rows == rows;
  }

  lemma OldItems(bs: seq<BatchRow>, es: seq<EntryRow>, rows: seq<EntryRow>, id: string)
    requires (forall b :: b in bs ==> b.head.id != id) && forall e :: e in rows ==> e.batch == id
    ensures Items(bs, es + rows) == Items(bs, es)
  {
    forall i | 0 <= i < |bs| ensures EntriesOf(es + rows, bs[i].head.id) == EntriesOf(es, bs[i].head.id) {
      EntriesOfAppend(es, rows, bs[i].head.id);
      EntriesOfSame(rows, bs[i].head.id, id);
    }
  }

  // ---- seqs ----

  lemma {:induction false} MaxOfCounting(bs: seq<BatchRow>)
    requires forall i :: 0 <= i < |bs| ==> bs[i].head.seqNo == i + 1
    ensures MaxSeq(bs) == |bs|
  {
    if bs != [] { MaxOfCounting(bs[..|bs| - 1]); }
  }

  lemma NextSeqIsNext(d: Digest, db: Db, pool: string)
    requires PoolInv(d, db, pool)
    ensures NextPoolSeq(db, pool) == |Log(db, pool)| + 1
  {
    var log, bs := Log(db, pool), PoolBatches(db.batches, pool);
    forall i | 0 <= i < |bs| ensures bs[i].head.seqNo == i + 1 { assert BatchHolds(d, log, i); }
    MaxOfCounting(bs);
  }

  lemma {:induction false} MaxOfAudit(rows: seq<AuditRow>)
    requires forall i :: 0 <= i < |rows| ==> rows[i].body.seqNo == i + 1
    ensures MaxAuditSeq(rows) == |rows|
  {
    if rows != [] { MaxOfAudit(rows[..|rows| - 1]); }
  }

  /** Every entry of a chained log carries a seq the chain has reached. */
  lemma {:induction false} SeqsAreReached(d: Digest, log: seq<Item>)
    requires ChainHolds(d, log)
    ensures forall e :: e in Flat(log) ==> e.seqNo <= |log|
  {
    if log != [] {
      var n := |log| - 1;
      forall i | 0 <= i < n ensures BatchHolds(d, log[..n], i) { assert BatchHolds(d, log, i); }
      SeqsAreReached(d, log[..n]);
      assert BatchHolds(d, log, n);
    }
  }

  // ---- heads ----

  lemma HeadKeysDiffer(p: string, q: string)
    ensures HeadKey(p) != AUDIT_HEAD
    ensures p != q ==> HeadKey(p) != HeadKey(q)
  {
    assert HeadKey(p)[0] == 'l' && AUDIT_HEAD[0] == 'a';
    assert HeadKey(p)[12..] == p && HeadKey(q)[12..] == q;
  }

  lemma HeadIsReadBack(meta: map<string, string>, key: string, hash: Bytes)
    requires key in meta && meta[key] == EncodeHead(hash) && |hash| == HASH_LENGTH
    ensures HeadHolds(meta, key, hash)
  {
    HeadRoundTrip(hash);
  }

  // ---- the cache ----

  lemma {:induction false} LastSeqBound(es: seq<EntryRow>, k: SnapKey, n: int)
    requires 0 <= n && forall e :: e in es ==> e.seqNo <= n
    ensures 0 <= LastSeq(es, k) <= n
  {
    if es != [] {
      var m := |es| - 1;
      assert es == es[..m] + [es[m]];
      LastSeqBound(es[..m], k, n);
    }
  }

  lemma NoKeys(k: SnapKey)
    ensures k !in Keys(Moves([]))
  {}

  /** Rows of the next seq move the last seq of the keys they touch, and of no others. */
  lemma {:induction false} LastSeqAfter(es: seq<EntryRow>, rows: seq<EntryRow>, k: SnapKey, seqNo: int)
    requires 0 < seqNo && (forall e :: e in es ==> e.seqNo < seqNo) && forall e :: e in rows ==> e.seqNo == seqNo
    ensures LastSeq(es + rows, k) == if k in Keys(Moves(rows)) then seqNo else LastSeq(es, k)
  {
    if rows == [] {
      assert es + rows == es;
      NoKeys(k);
    } else {
      hide Moves, Keys, LastSeq;
      var n := |rows| - 1;
      assert rows == rows[..n] + [rows[n]];
      assert es + rows == (es + rows[..n]) + [rows[n]];
      LastSeqSnoc(es + rows[..n], rows[n], k);
      LastSeqAfter(es, rows[..n], k, seqNo);
      MovesSnoc(rows[..n], rows[n]);
      KeysSnoc(Moves(rows[..n]), MoveOf(rows[n]));
      LastSeqBound(es, k, seqNo - 1);
    }
  }

  lemma MovesAppend(a: seq<EntryRow>, b: seq<EntryRow>)
    ensures Moves(a + b) == Moves(a) + Moves(b)
  {}

  lemma KeysAppend(a: seq<Move>, b: seq<Move>)
    ensures Keys(a + b) == Keys(a) + Keys(b)
  {}

  /** One additive upsert per key keeps the cache equal to the fold of the longer log. */
  lemma UpsertMirrors(cache: map<SnapKey, Snap>, es: seq<EntryRow>, rows: seq<EntryRow>, seqNo: int, at: int)
    requires Mirrors(cache, es)
    requires forall k :: k in Keys(Moves(rows)) ==> UpsertFits(cache, Moves(rows), k)
    requires 0 < seqNo && (forall e :: e in es ==> e.seqNo < seqNo) && forall e :: e in rows ==> e.seqNo == seqNo
    ensures Mirrors(Upserted(cache, Moves(rows), seqNo, at), es + rows)
  {
    hide Moves, LastSeq, Keys, Amounts, RowMirrors;
    var after := Upserted(cache, Moves(rows), seqNo, at);
    MovesAppend(es, rows);
    KeysAppend(Moves(es), Moves(rows));
    forall k | k in after ensures RowMirrors(after[k], es + rows, k) {
      UpsertRowMirrors(cache, es, rows, seqNo, at, k);
    }
  }

  lemma UpsertRowMirrors(cache: map<SnapKey, Snap>, es: seq<EntryRow>, rows: seq<EntryRow>, seqNo: int, at: int, k: SnapKey)
    requires Mirrors(cache, es) && k in cache.Keys + Keys(Moves(rows))
    requires forall j :: j in Keys(Moves(rows)) ==> UpsertFits(cache, Moves(rows), j)
    requires 0 < seqNo && (forall e :: e in es ==> e.seqNo < seqNo) && forall e :: e in rows ==> e.seqNo == seqNo
    ensures RowMirrors(Upserted(cache, Moves(rows), seqNo, at)[k], es + rows, k)
  {
    hide Moves, LastSeq, Keys, Group;
    MovesAppend(es, rows);
    NetAppend(Moves(es), Moves(rows), k);
    GroupAppend(ByKey, Moves(es), Moves(rows), k);
    LastSeqAfter(es, rows, k, seqNo);
    KeyUntouched(Moves(es), k);
    KeyUntouched(Moves(rows), k);
    if k in cache { assert RowMirrors(cache[k], es, k); }
  }

  lemma KeyUntouched(ms: seq<Move>, k: SnapKey)
    ensures k in Keys(ms) || Amounts(ms, k) == []
  {
    if k !in Keys(ms) {
      assert forall m :: m in ms ==> m.key in Keys(ms);
      GroupOfUntouched(ByKey, ms, k);
    }
  }

  // ---- one commit ----

  lemma WrittenChain(d: Digest, db: Db, req: CommitRequest, env: Env)
    requires PoolInv(d, db, req.pool) && Refusal(db, req).None?
    ensures var b, rows := NewBatch(d, db, req, env), NewEntries(db, req, env);
            ChainHolds(d, Log(db, req.pool) + [Item(b, rows)])
  {
    hide Link, PoolBatches, Verdict, Mirrors, BatchHolds, Log, NewBatch, NewEntries;
    var b, rows := NewBatch(d, db, req, env), NewEntries(db, req, env);
    var log := Log(db, req.pool);
    var next := log + [Item(b, rows)];
    forall i | 0 <= i < |next| ensures BatchHolds(d, next, i) {
      if i < |log| { OldBatchHolds(d, log, Item(b, rows), i); } else { NewBatchHolds(d, db, req, env); }
    }
  }

  lemma OldBatchHolds(d: Digest, log: seq<Item>, item: Item, i: nat)
    requires i < |log| && BatchHolds(d, log, i)
    ensures BatchHolds(d, log + [item], i)
  {
    hide Link;
  }

  lemma NewBatchHolds(d: Digest, db: Db, req: CommitRequest, env: Env)
    requires PoolInv(d, db, req.pool) && Refusal(db, req).None?
    ensures var log := Log(db, req.pool);
            BatchHolds(d, log + [Item(NewBatch(d, db, req, env), NewEntries(db, req, env))], |log|)
  {
    hide Link, PoolBatches, Verdict, Mirrors, Sum;
    NextSeqIsNext(d, db, req.pool);
    RowsOfNewBatch(req, env, NextPoolSeq(db, req.pool));
  }

  lemma WrittenPool(d: Digest, db: Db, req: CommitRequest, env: Env, pool: string)
    requires Sized(d) && KeysOk(db) && PoolInv(d, db, pool) && PoolInv(d, db, req.pool) && Writes(d, db, req, env)
    ensures PoolInv(d, Written(d, db, req, env, NewBatch(d, db, req, env), NewEntries(db, req, env)), pool)
  {
    hide Link, PoolBatches, Verdict, ChainHolds, Mirrors, Upserted, PoolInv, AuditFor, EventFor, UpsertFits;
    var b, rows := NewBatch(d, db, req, env), NewEntries(db, req, env);
    var db' := Written(d, db, req, env, b, rows);
    NewBatchIsFresh(db, b);
    RowsOfNewBatch(req, env, NextPoolSeq(db, req.pool));
    if pool == req.pool {
      WrittenChain(d, db, req, env);
      WrittenCache(d, db, req, env);
      LinkIsSized(d, b.prevHash, b.head, rows);
      HeadKeysDiffer(pool, pool);
      GrownPool(d, db, db', b, rows, pool);
    } else {
      HeadKeysDiffer(pool, req.pool);
      OtherPool(d, db, db', b, rows, pool);
    }
  }

  lemma LinkIsSized(d: Digest, prev: Bytes, h: BatchHeader, es: seq<EntryRow>)
    requires Sized(d)
    ensures |Link(d, prev, h, es)| == HASH_LENGTH
  {}

  lemma GrownPool(d: Digest, db: Db, db': Db, b: BatchRow, rows: seq<EntryRow>, pool: string)
    requires KeysOk(db) && b.head.pool == pool && |b.hash| == HASH_LENGTH
    requires db'.batches == db.batches + [b] && db'.entries == db.entries + rows
    requires !HasBatch(db.batches, b.head.id) && forall e :: e in rows ==> e.batch == b.head.id
    requires ChainHolds(d, Log(db, pool) + [Item(b, rows)])
    requires HeadKey(pool) in db'.meta && db'.meta[HeadKey(pool)] == EncodeHead(b.hash)
    requires Mirrors(CacheOf(db', pool), Flat(Log(db, pool)) + rows)
    ensures PoolInv(d, db', pool)
  {
    hide Log, ChainHolds, Mirrors;
    LogOfWritten(db, db', b, rows, pool);
    FlatSnoc(Log(db, pool), Item(b, rows));
    HeadIsReadBack(db'.meta, HeadKey(pool), b.hash);
  }

  lemma OtherPool(d: Digest, db: Db, db': Db, b: BatchRow, rows: seq<EntryRow>, pool: string)
    requires KeysOk(db) && b.head.pool != pool && PoolInv(d, db, pool)
    requires db'.batches == db.batches + [b] && db'.entries == db.entries + rows
    requires !HasBatch(db.batches, b.head.id) && forall e :: e in rows ==> e.batch == b.head.id
    requires HeadKey(pool) in db'.meta <==> HeadKey(pool) in db.meta
    requires HeadKey(pool) in db.meta ==> db'.meta[HeadKey(pool)] == db.meta[HeadKey(pool)]
    requires CacheOf(db', pool) == CacheOf(db, pool)
    ensures PoolInv(d, db', pool)
  {
    hide Log, ChainHolds, Mirrors;
    LogOfWritten(db, db', b, rows, pool);
    assert Log(db', pool) == Log(db, pool);
  }

  lemma NewBatchIsFresh(db: Db, b: BatchRow)
    requires BatchInsertable(db, b)
    ensures !HasBatch(db.batches, b.head.id)
  {}

  lemma WrittenCache(d: Digest, db: Db, req: CommitRequest, env: Env)
    requires KeysOk(db) && PoolInv(d, db, req.pool) && Writes(d, db, req, env)
    ensures var b, rows := NewBatch(d, db, req, env), NewEntries(db, req, env);
            Mirrors(Upserted(CacheOf(db, req.pool), Moves(rows), b.head.seqNo, b.head.recordedAt),
                    Flat(Log(db, req.pool)) + rows)
  {
    hide Link, PoolBatches, Verdict, ChainHolds, Mirrors, Upserted, UpsertFits, Log;
    var b, rows := NewBatch(d, db, req, env), NewEntries(db, req, env);
    NextSeqIsNext(d, db, req.pool);
    SeqsAreReached(d, Log(db, req.pool));
    RowsOfNewBatch(req, env, NextPoolSeq(db, req.pool));
    UpsertMirrors(CacheOf(db, req.pool), Flat(Log(db, req.pool)), rows, b.head.seqNo, b.head.recordedAt);
  }

  lemma WrittenKeys(d: Digest, db: Db, req: CommitRequest, env: Env)
    requires KeysOk(db) && Writes(d, db, req, env)
    ensures KeysOk(Written(d, db, req, env, NewBatch(d, db, req, env), NewEntries(db, req, env)))
  {
    hide Link, PoolBatches, Verdict, Upserted, UpsertFits;
    var b, rows := NewBatch(d, db, req, env), NewEntries(db, req, env);
    var db' := Written(d, db, req, env, b, rows);
    NewBatchIsFresh(db, b);
    RowsOfNewBatch(req, env, NextPoolSeq(db, req.pool));
    assert b in db'.batches && b.head.id == env.mint(0);
    forall e | e in db'.entries ensures HasBatch(db'.batches, e.batch) {
      if e in db.entries {
        var o :| o in db.batches && o.head.id == e.batch;
        assert o in db'.batches;
      }
    }
    forall i, j | 0 <= i < j < |db'.batches| ensures BatchId(db'.batches[i]) != BatchId(db'.batches[j]) {
      if j == |db.batches| { assert db.batches[i] in db.batches; }
    }
  }

  lemma WrittenAudit(d: Digest, db: Db, req: CommitRequest, env: Env)
    requires Sized(d) && AuditInv(d, db) && Writes(d, db, req, env)
    ensures AuditInv(d, Written(d, db, req, env, NewBatch(d, db, req, env), NewEntries(db, req, env)))
  {
    hide Link, PoolBatches, Verdict, Upserted, UpsertFits, BatchInsertable, AuditRowHolds, HeadHolds;
    var b, rows := NewBatch(d, db, req, env), NewEntries(db, req, env);
    var db' := Written(d, db, req, env, b, rows);
    NextAuditIsNext(d, db);
    AuditGrows(d, db, db', db'.audit[|db.audit|]);
  }

  lemma NextAuditIsNext(d: Digest, db: Db)
    requires AuditInv(d, db)
    ensures MaxAuditSeq(db.audit) == |db.audit|
    ensures ReadHead(db.meta, AUDIT_HEAD) == Ok(AuditHashBefore(db.audit, |db.audit|))
  {
    forall i | 0 <= i < |db.audit| ensures db.audit[i].body.seqNo == i + 1 { assert AuditRowHolds(d, db.audit, i); }
    MaxOfAudit(db.audit);
  }

  lemma AuditGrows(d: Digest, db: Db, db': Db, row: AuditRow)
    requires Sized(d) && AuditInv(d, db) && db'.audit == db.audit + [row]
    requires row.body.seqNo == |db.audit| + 1 && row.prevHash == AuditHashBefore(db.audit, |db.audit|)
    requires row.hash == d.audit(row.prevHash, row.body)
    requires AUDIT_HEAD in db'.meta && db'.meta[AUDIT_HEAD] == EncodeHead(row.hash)
    ensures AuditInv(d, db')
  {
    var n := |db.audit|;
    forall i | 0 <= i <= n ensures AuditRowHolds(d, db'.audit, i) {
      if i < n { assert AuditRowHolds(d, db.audit, i); }
    }
    HeadIsReadBack(db'.meta, AUDIT_HEAD, row.hash);
  }

  /** One call of Commit, whatever it is asked and whatever fails, keeps the invariant. */
  lemma CommitKeepsInv(d: Digest, db: Db, req: CommitRequest, env: Env)
    requires Sized(d) && Inv(d, db)
    ensures Inv(d, Commit(d, db, req, env).0)
  {
    hide KeysOk, AuditInv, PoolInv, Written, WriteFailure;
    AllOrNothing(d, db, req, env);
    if Writes(d, db, req, env) {
      WrittenKeys(d, db, req, env);
      WrittenAudit(d, db, req, env);
      forall pool ensures PoolInv(d, Written(d, db, req, env, NewBatch(d, db, req, env), NewEntries(db, req, env)), pool) {
        WrittenPool(d, db, req, env, pool);
      }
    }
  }
}
