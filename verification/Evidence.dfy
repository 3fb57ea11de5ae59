/** What the counts and heads of a report say: the evidence that a clean replay was of the whole ledger. */
module Evidence {
  import opened Wrappers
  import opened Ordering
  import opened Rows
  import opened Hex
  import opened Queries
  import opened CommitSpec
  import opened VerifySpec
  import opened Verifier
  import opened Attestation
  import opened LedgerInvariant
  import opened Runs
  import opened History
  import opened Soundness
  import opened Standings

  lemma {:induction false} PoolBatchesFilter(bs: seq<BatchRow>, pool: string)
    ensures PoolBatches(bs, pool) == Filter((b: BatchRow) => b.head.pool == pool, bs)
  {
    if bs != [] { PoolBatchesFilter(bs[..|bs| - 1], pool); }
  }

  /** Under the invariant the walk of a pool is all of its batches and all of its entries. */
  lemma WalkIsThePool(d: Digest, db: Db, pool: string)
    requires Inv(d, db) && PoolsOk(db) && pool in db.pools
    ensures |Replay(db, pool)| == |PoolBatches(db.batches, pool)| == Head(db, pool)
    ensures multiset(Flat(Replay(db, pool))) == multiset(Entries(db, pool))
    ensures HashBefore(Replay(db, pool), |Replay(db, pool)|) == HashBefore(Log(db, pool), |Log(db, pool)|)
    ensures LastSeqNo(Replay(db, pool)) == Head(db, pool)
  {
    hide ChainHolds, Mirrors, KeysOk, AuditInv, Visible, Flat, Replay, HeadHolds;
    assert PoolInv(d, db, pool);
    InvWalks(d, db);
    forall e | e in db.entries ensures Visible(db, e) { InvVisible(d, db, e); }
    WalkIsVisible(d, db, pool);
    FilterAgrees((e: EntryRow) => e.pool == pool, (e: EntryRow) => e.pool == pool && Visible(db, e), db.entries);
    ReplayIsLog(d, db, pool);
    NextSeqIsNext(d, db, pool);
    LastOfChain(d, Log(db, pool));
  }

  lemma LastOfChain(d: Digest, log: seq<Item>)
    requires ChainHolds(d, log)
    ensures LastSeqNo(log) == |log| && LastSeqNo(InIdOrder(log)) == |log|
    ensures HashBefore(InIdOrder(log), |log|) == HashBefore(log, |log|)
  {
    hide Link;
    if log != [] { assert BatchHolds(d, log, |log| - 1); }
  }

  /** The report on a pool counts its batches, its entries and its cached rows, and gives the head that is stored. */
  lemma PoolReportIs(d: Digest, db: Db, pool: string)
    requires Inv(d, db) && PoolsOk(db) && pool in db.pools && SnapKey("", "") !in CacheOf(db, pool)
    ensures var r := ReportOf(db, pool, Replay(db, pool));
      && r.pool == pool
      && r.batches == |Filter((b: BatchRow) => b.head.pool == pool, db.batches)|
      && r.entries == |Filter((e: EntryRow) => e.pool == pool, db.entries)|
      && r.snapshots == |CacheOf(db, pool)|
      && r.headSeq == r.batches
      && (r.batches == 0 ==> r.head == "")
      && (r.batches > 0 ==> ReadHead(db.meta, HeadKey(pool)).Ok? && r.head == EncodeHead(ReadHead(db.meta, HeadKey(pool)).value))
  {
    hide Inv, PoolsOk, ReadHead, EncodeHead, Replay, Flat, Log;
    var items := Replay(db, pool);
    WalkIsThePool(d, db, pool);
    PoolBatchesFilter(db.batches, pool);
    SameSize(Flat(items), Entries(db, pool));
    StoredHead(d, db, pool);
    assert Listed(CacheOf(db, pool)) == CacheOf(db, pool);
  }

  lemma SameSize<T>(a: seq<T>, b: seq<T>)
    requires multiset(a) == multiset(b)
    ensures |a| == |b|
  {
    assert |multiset(a)| == |a| && |multiset(b)| == |b|;
  }

  lemma StoredHead(d: Digest, db: Db, pool: string)
    requires Inv(d, db)
    ensures ReadHead(db.meta, HeadKey(pool)) == Ok(HashBefore(Log(db, pool), |Log(db, pool)|))
  {
    hide ChainHolds, Mirrors, AuditInv, KeysOk;
    assert PoolInv(d, db, pool);
  }

  /** And the report on the audit log does the same for its rows. */
  lemma AuditReportIs(d: Digest, db: Db)
    requires Inv(d, db)
    ensures var r := AuditReportOf(db);
      && r.rows == |db.audit| && r.headSeq == |db.audit|
      && (db.audit == [] ==> r.head == "")
      && (db.audit != [] ==> ReadHead(db.meta, AUDIT_HEAD).Ok? && r.head == EncodeHead(ReadHead(db.meta, AUDIT_HEAD).value))
  {
    hide KeysOk, PoolInv, ReadHead, EncodeHead;
    AuditIsWhole(d, db);
  }

  lemma AuditIsWhole(d: Digest, db: Db)
    requires AuditInv(d, db)
    ensures AuditReplay(db) == db.audit
    ensures forall i :: 0 <= i < |db.audit| ==> db.audit[i].body.seqNo == i + 1
  {
    forall i | 0 <= i < |db.audit| ensures db.audit[i].body.seqNo == i + 1 { assert AuditRowHolds(d, db.audit, i); }
    SortFixes(AuditSeqLe, db.audit);
    FilterAll((r: AuditRow) => r.body.seqNo > 0, db.audit);
  }

  /** One report a pool, in the order of the pool ids. */
  lemma {:induction false} ReportsAre(db: Db, pools: seq<string>, i: nat)
    requires i < |pools|
    ensures |PoolReports(db, pools)| == |pools| && PoolReports(db, pools)[i] == ReportOf(db, pools[i], Replay(db, pools[i]))
  {
    hide ReportOf;
    var n := |pools| - 1;
    if n > 0 { ReportsAre(db, pools[..n], if i < n then i else 0); }
  }
}
