/** What the replay reports, as functions of the database (internal/ledger/verify.go). */
module VerifySpec {
  import opened Wrappers
  import opened Int64
  import opened Ordering
  import opened Rows
  import opened Hex
  import opened Queries
  import opened Proposals
  import opened CommitSpec

  datatype FindingKind =
    | SeqGap | PrevHashMismatch | BatchHashMismatch | EntryCountMismatch | NetAmountMismatch
    | EntryDenormMismatch | LedgerHeadMismatch
    | SnapshotAmountMismatch | SnapshotEntryCountMismatch | SnapshotAsOfSeqMismatch
    | SnapshotMissing | SnapshotOrphan | BalanceOverflow
    | AuditSeqGap | AuditPrevHashMismatch | AuditHashMismatch | AuditHeadMismatch

  /** One problem and where it is; the human-readable detail is not modelled. */
  datatype Finding = Finding(kind: FindingKind, pool: string, seqNo: int, batch: string, account: string, balanceKind: string)

  function One(found: bool, f: Finding): seq<Finding> { if found then [f] else [] }

  // ---- what the paged queries walk ----

  /** Rows the cursor can reach: it starts at 0 and only moves up. */
  function Above(bs: seq<BatchRow>, cursor: int): seq<BatchRow> {
    Filter((b: BatchRow) => b.head.seqNo > cursor, bs)
  }

  function AuditAbove(rows: seq<AuditRow>, cursor: int): seq<AuditRow> {
    Filter((r: AuditRow) => r.body.seqNo > cursor, rows)
  }

  function BatchesBySeq(db: Db, pool: string): seq<BatchRow> { Sort(BatchSeqLe, PoolBatches(db.batches, pool)) }

  function AuditBySeq(db: Db): seq<AuditRow> { Sort(AuditSeqLe, db.audit) }

  function EntriesById(es: seq<EntryRow>, batch: string): seq<EntryRow> { Sort(EntryIdLe, EntriesOf(es, batch)) }

  function WithEntries(bs: seq<BatchRow>, es: seq<EntryRow>): (r: seq<Item>)
    ensures |r| == |bs|
    ensures forall i :: 0 <= i < |bs| ==> r[i] == Item(bs[i], EntriesById(es, bs[i].head.id))
  {
    seq(|bs|, i requires 0 <= i < |bs| => Item(bs[i], EntriesById(es, bs[i].head.id)))
  }

  /** A pool's batches in seq order, each with its entries in id order. */
  function Replay(db: Db, pool: string): seq<Item> {
    WithEntries(Above(BatchesBySeq(db, pool), 0), db.entries)
  }

  /** The first key of all, where the cache cursor starts: a row stored there is never listed. */
  const FIRST_KEY: SnapKey := SnapKey("", "")

  function Listed(cache: map<SnapKey, Snap>): map<SnapKey, Snap> { cache - {FIRST_KEY} }

  // ---- one batch ----

  function DenormFindings(b: BatchHeader, es: seq<EntryRow>): seq<Finding> {
    if es == [] then []
    else
      var n := |es| - 1;
      DenormFindings(b, es[..n])
      + One(es[n].pool != b.pool || es[n].seqNo != b.seqNo,
            Finding(EntryDenormMismatch, b.pool, b.seqNo, b.id, es[n].account, es[n].kind))
  }

  ghost predicate NetIs(es: seq<EntryRow>, net: int) {
    PrefixesFit(AllAmounts(Moves(es))) && Sum(AllAmounts(Moves(es))) == net
  }

  ghost function BatchFindings(d: Digest, item: Item, prev: Bytes, wantSeq: int): seq<Finding> {
    var b, es := item.batch.head, item.entries;
    var at := Finding(SeqGap, b.pool, b.seqNo, b.id, "", "");
    One(b.seqNo != wantSeq, at)
    + One(item.batch.prevHash != prev, at.(kind := PrevHashMismatch))
    + One(Link(d, item.batch.prevHash, b, es) != item.batch.hash, at.(kind := BatchHashMismatch))
    + One(b.entryCount != |es|, at.(kind := EntryCountMismatch))
    + One(!NetIs(es, b.netAmount), at.(kind := NetAmountMismatch))
    + DenormFindings(b, es)
  }

  function HashBefore(items: seq<Item>, i: nat): Bytes
    requires i <= |items|
  {
    if i == 0 then [] else items[i - 1].batch.hash
  }

  function SeqWanted(items: seq<Item>, i: nat): int
    requires i <= |items|
  {
    if i == 0 then 1 else items[i - 1].batch.head.seqNo + 1
  }

  ghost function Walk(d: Digest, items: seq<Item>): seq<Finding> {
    if items == [] then []
    else
      var n := |items| - 1;
      Walk(d, items[..n]) + BatchFindings(d, items[n], HashBefore(items, n), SeqWanted(items, n))
  }

  // ---- heads ----

  function HeadFindings(meta: map<string, string>, key: string, last: Bytes, at: Finding): seq<Finding> {
    match ReadHead(meta, key)
    case Err(_) => [at]
    case Ok(stored) => One(stored != last, at)
  }

  // ---- the fold and the cache ----

  datatype Acc = Acc(amount: int64, count: int, maxSeq: int, overflowed: bool)

  const NO_ACC: Acc := Acc(0, 0, 0, false)

  function AccStep(acc: Acc, e: EntryRow): Acc {
    var sum := AddCentipoints(acc.amount, e.amount);
    Acc(if sum.Some? then sum.value else acc.amount, acc.count + 1,
        if e.seqNo > acc.maxSeq then e.seqNo else acc.maxSeq, acc.overflowed || sum.None?)
  }

  function At(fold: map<SnapKey, Acc>, k: SnapKey): Acc { if k in fold then fold[k] else NO_ACC }

  function FoldStep(fold: map<SnapKey, Acc>, e: EntryRow): map<SnapKey, Acc> {
    var k := MoveOf(e).key;
    fold[k := AccStep(At(fold, k), e)]
  }

  function Fold(es: seq<EntryRow>): map<SnapKey, Acc> {
    if es == [] then map[] else FoldStep(Fold(es[..|es| - 1]), es[|es| - 1])
  }

  function SnapFindings(pool: string, k: SnapKey, row: Snap, fold: map<SnapKey, Acc>): seq<Finding> {
    var at := Finding(SnapshotOrphan, pool, 0, "", k.account, k.kind);
    if k !in fold then [at]
    else
      var acc := fold[k];
      var here := at.(seqNo := acc.maxSeq);
      (if acc.overflowed then [here.(kind := BalanceOverflow)]
       else One(row.amount != acc.amount, here.(kind := SnapshotAmountMismatch)))
      + One(row.count != acc.count, here.(kind := SnapshotEntryCountMismatch))
      + One(row.asOf != acc.maxSeq, here.(kind := SnapshotAsOfSeqMismatch))
  }

  function CachedFindings(pool: string, keys: seq<SnapKey>, cache: map<SnapKey, Snap>, fold: map<SnapKey, Acc>): seq<Finding>
    requires forall k :: k in keys ==> k in cache
  {
    if keys == [] then []
    else
      var n := |keys| - 1;
      CachedFindings(pool, keys[..n], cache, fold) + SnapFindings(pool, keys[n], cache[keys[n]], fold)
  }

  function MissingFinding(pool: string, k: SnapKey, acc: Acc): Finding {
    Finding(if acc.overflowed then BalanceOverflow else SnapshotMissing, pool, acc.maxSeq, "", k.account, k.kind)
  }

  function MissingFindings(pool: string, keys: seq<SnapKey>, fold: map<SnapKey, Acc>): seq<Finding>
    requires forall k :: k in keys ==> k in fold
  {
    if keys == [] then []
    else
      var n := |keys| - 1;
      MissingFindings(pool, keys[..n], fold) + [MissingFinding(pool, keys[n], fold[keys[n]])]
  }

  ghost function CacheFindings(pool: string, cache: map<SnapKey, Snap>, fold: map<SnapKey, Acc>): seq<Finding> {
    KeySeqMembers(Listed(cache).Keys);
    KeySeqMembers(fold.Keys - Listed(cache).Keys);
    CachedFindings(pool, KeySeq(Listed(cache).Keys), cache, fold)
    + MissingFindings(pool, KeySeq(fold.Keys - Listed(cache).Keys), fold)
  }

  // ---- pools, the audit chain, everything ----

  function LastSeqNo(items: seq<Item>): int { if items == [] then 0 else items[|items| - 1].batch.head.seqNo }

  ghost function PoolFindings(d: Digest, db: Db, pool: string): seq<Finding> {
    var items := Replay(db, pool);
    Walk(d, items)
    + HeadFindings(db.meta, HeadKey(pool), HashBefore(items, |items|),
                   Finding(LedgerHeadMismatch, pool, LastSeqNo(items), "", "", ""))
    + CacheFindings(pool, CacheOf(db, pool), Fold(Flat(items)))
  }

  function AuditHashBefore(rows: seq<AuditRow>, i: nat): Bytes
    requires i <= |rows|
  {
    if i == 0 then [] else rows[i - 1].hash
  }

  function AuditSeqWanted(rows: seq<AuditRow>, i: nat): int
    requires i <= |rows|
  {
    if i == 0 then 1 else rows[i - 1].body.seqNo + 1
  }

  function AuditRowFindings(d: Digest, row: AuditRow, prev: Bytes, wantSeq: int): seq<Finding> {
    var at := Finding(AuditSeqGap, "", row.body.seqNo, "", "", "");
    One(row.body.seqNo != wantSeq, at)
    + One(row.prevHash != prev, at.(kind := AuditPrevHashMismatch))
    + One(d.audit(row.prevHash, row.body) != row.hash, at.(kind := AuditHashMismatch))
  }

  function AuditWalk(d: Digest, rows: seq<AuditRow>): seq<Finding> {
    if rows == [] then []
    else
      var n := |rows| - 1;
      AuditWalk(d, rows[..n]) + AuditRowFindings(d, rows[n], AuditHashBefore(rows, n), AuditSeqWanted(rows, n))
  }

  function AuditReplay(db: Db): seq<AuditRow> { AuditAbove(AuditBySeq(db), 0) }

  function AuditFindings(d: Digest, db: Db): seq<Finding> {
    var rows := AuditReplay(db);
    AuditWalk(d, rows)
    + HeadFindings(db.meta, AUDIT_HEAD, AuditHashBefore(rows, |rows|),
                   Finding(AuditHeadMismatch, "", if rows == [] then 0 else rows[|rows| - 1].body.seqNo, "", "", ""))
  }

  ghost function PoolsFindings(d: Digest, db: Db, pools: seq<string>): seq<Finding> {
    if pools == [] then []
    else PoolsFindings(d, db, pools[..|pools| - 1]) + PoolFindings(d, db, pools[|pools| - 1])
  }

  /** Everything one replay detects, in the order it detects it. */
  ghost function AllFindings(d: Digest, db: Db): seq<Finding> {
    PoolsFindings(d, db, Sort(StrLe, db.pools)) + AuditFindings(d, db)
  }

  ghost predicate Clean(d: Digest, db: Db) { AllFindings(d, db) == [] }

  lemma {:induction false} PoolsCleanIff(d: Digest, db: Db, pools: seq<string>)
    ensures PoolsFindings(d, db, pools) == [] <==> forall p :: p in pools ==> PoolFindings(d, db, p) == []
  {
    hide PoolFindings;
    if pools != [] {
      var n := |pools| - 1;
      assert pools == pools[..n] + [pools[n]];
      PoolsCleanIff(d, db, pools[..n]);
    }
  }

  lemma CleanIff(d: Digest, db: Db)
    ensures Clean(d, db) <==>
      (forall p :: p in db.pools ==> PoolFindings(d, db, p) == []) && AuditFindings(d, db) == []
  {
    PoolsCleanIff(d, db, Sort(StrLe, db.pools));
    SortMembers(StrLe, db.pools);
  }
}
