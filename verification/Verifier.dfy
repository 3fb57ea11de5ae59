/**
 * The replay (internal/ledger/verify.go): walk both hash chains a page at a time, re-fold every
 * balance, and record what does not agree. The reads are of one snapshot of the database.
 */
module Verifier {
  import opened Wrappers
  import opened Int64
  import opened Ordering
  import opened Rows
  import opened Hex
  import opened Queries
  import opened Proposals
  import opened CommitSpec
  import opened VerifySpec

  datatype PoolReport = PoolReport(pool: string, batches: int, entries: int, snapshots: int, headSeq: int, head: string)

  datatype AuditReport = AuditReport(rows: int, headSeq: int, head: string)

  const DEFAULT_PAGE_SIZE: int := 512
  const DEFAULT_MAX_FINDINGS: int := 100

  // ---- the paged queries ----

  function Take<T>(s: seq<T>, limit: nat): seq<T> { if |s| <= limit then s else s[..limit] }

  function ListBatchesAfterSeq(db: Db, pool: string, cursor: int, limit: nat): seq<BatchRow> {
    Take(Above(BatchesBySeq(db, pool), cursor), limit)
  }

  function ListAuditRowsAfterSeq(db: Db, cursor: int, limit: nat): seq<AuditRow> {
    Take(AuditAbove(AuditBySeq(db), cursor), limit)
  }

  ghost function KeysAfter(keys: set<SnapKey>, cursor: SnapKey): seq<SnapKey> {
    Filter((k: SnapKey) => !KeyLe(k, cursor), KeySeq(keys))
  }

  method ListSnapshotsAfter(cache: map<SnapKey, Snap>, cursor: SnapKey, limit: nat) returns (page: seq<SnapKey>)
    ensures page == Take(KeysAfter(cache.Keys, cursor), limit)
  {
    var keys := SortedKeys(cache.Keys);
    page := Take(Filter((k: SnapKey) => !KeyLe(k, cursor), keys), limit);
  }

  // ---- what the schema's unique indexes give the cursors ----

  /** ux_batch_seq and ux_audit_seq. */
  ghost predicate UniqueSeqs(db: Db) {
    && (forall pool :: DistinctBy((b: BatchRow) => b.head.seqNo, PoolBatches(db.batches, pool)))
    && DistinctBy((r: AuditRow) => r.body.seqNo, db.audit)
  }

  lemma BatchesCountUp(db: Db, pool: string)
    requires UniqueSeqs(db)
    ensures var bs := BatchesBySeq(db, pool);
            forall i, j :: 0 <= i < j < |bs| ==> bs[i].head.seqNo < bs[j].head.seqNo
  {
    var bs := PoolBatches(db.batches, pool);
    SortKeeps(BatchSeqLe, bs);
    SortSorts(BatchSeqLe, bs);
    var sorted := BatchesBySeq(db, pool);
    DistinctPermutes((b: BatchRow) => b.head.seqNo, sorted, bs);
    forall i, j | 0 <= i < j < |sorted| ensures sorted[i].head.seqNo < sorted[j].head.seqNo {
      assert BatchSeqLe(sorted[i], sorted[j]);
    }
  }

  lemma AuditCountsUp(db: Db)
    requires UniqueSeqs(db)
    ensures var rows := AuditBySeq(db);
            forall i, j :: 0 <= i < j < |rows| ==> rows[i].body.seqNo < rows[j].body.seqNo
  {
    SortKeeps(AuditSeqLe, db.audit);
    SortSorts(AuditSeqLe, db.audit);
    var sorted := AuditBySeq(db);
    DistinctPermutes((r: AuditRow) => r.body.seqNo, sorted, db.audit);
    forall i, j | 0 <= i < j < |sorted| ensures sorted[i].body.seqNo < sorted[j].body.seqNo {
      assert AuditSeqLe(sorted[i], sorted[j]);
    }
  }

  /** Moving the cursor to a row of the walk leaves exactly the rows after it. */
  lemma BatchesAfter(bs: seq<BatchRow>, k: nat)
    requires forall i, j :: 0 <= i < j < |bs| ==> bs[i].head.seqNo < bs[j].head.seqNo
    requires k < |Above(bs, 0)|
    ensures Above(bs, Above(bs, 0)[k].head.seqNo) == Above(bs, 0)[k + 1..]
    ensures Above(bs, 0)[k].head.seqNo > 0
  {
    var from := FilterIsSuffix((b: BatchRow) => b.head.seqNo > 0, bs);
    var c := bs[from + k].head.seqNo;
    var next := FilterIsSuffix((b: BatchRow) => b.head.seqNo > c, bs);
    assert !(bs[from + k].head.seqNo > c) && (from + k + 1 < |bs| ==> bs[from + k + 1].head.seqNo > c);
    assert next == from + k + 1;
    assert bs[from..][k + 1..] == bs[next..];
  }

  lemma AuditAfter(rows: seq<AuditRow>, k: nat)
    requires forall i, j :: 0 <= i < j < |rows| ==> rows[i].body.seqNo < rows[j].body.seqNo
    requires k < |AuditAbove(rows, 0)|
    ensures AuditAbove(rows, AuditAbove(rows, 0)[k].body.seqNo) == AuditAbove(rows, 0)[k + 1..]
  {
    var from := FilterIsSuffix((r: AuditRow) => r.body.seqNo > 0, rows);
    var c := rows[from + k].body.seqNo;
    var next := FilterIsSuffix((r: AuditRow) => r.body.seqNo > c, rows);
    assert !(rows[from + k].body.seqNo > c) && (from + k + 1 < |rows| ==> rows[from + k + 1].body.seqNo > c);
    assert next == from + k + 1;
    assert rows[from..][k + 1..] == rows[next..];
  }

  lemma StrictSuffix(keys: seq<SnapKey>, cursor: SnapKey) returns (from: nat)
    requires Strict(KeyLe, keys)
    ensures from <= |keys| && Filter((k: SnapKey) => !KeyLe(k, cursor), keys) == keys[from..]
    ensures forall i :: 0 <= i < |keys| ==> (!KeyLe(keys[i], cursor) <==> from <= i)
  {
    KeyLeIsOrder();
    forall i, j | 0 <= i < j < |keys| && !KeyLe(keys[i], cursor) ensures !KeyLe(keys[j], cursor) {
      assert KeyLe(keys[i], keys[j]);
    }
    from := FilterIsSuffix((k: SnapKey) => !KeyLe(k, cursor), keys);
  }

  /** From the first key of all, the listing is every key but that one. */
  lemma FirstPage(keys: set<SnapKey>)
    ensures KeysAfter(keys, FIRST_KEY) == KeySeq(keys - {FIRST_KEY})
  {
    var all := KeySeq(keys);
    KeySeqMembers(keys);
    KeyLeIsOrder();
    var from := StrictSuffix(all, FIRST_KEY);
    FilterMembers((k: SnapKey) => !KeyLe(k, FIRST_KEY), all);
    forall k ensures k in all[from..] <==> k in keys - {FIRST_KEY} {
      assert KeyLe(FIRST_KEY, k);
    }
    KeySeqUnique(keys - {FIRST_KEY}, all[from..]);
  }

  lemma NextPage(keys: set<SnapKey>, i: nat)
    requires i < |KeySeq(keys - {FIRST_KEY})|
    ensures KeysAfter(keys, KeySeq(keys - {FIRST_KEY})[i]) == KeySeq(keys - {FIRST_KEY})[i + 1..]
  {
    hide KeySeq, KeyLe, Filter;
    var all, listed := KeySeq(keys), KeySeq(keys - {FIRST_KEY});
    KeySeqMembers(keys);
    FirstPage(keys);
    var from := StrictSuffix(all, FIRST_KEY);
    var next := StrictSuffix(all, listed[i]);
    assert listed[i] == all[from + i];
    KeyLeIsOrder();
    assert KeyLe(all[from + i], listed[i]);
    assert from + i + 1 < |all| ==> !KeyLe(all[from + i + 1], all[from + i]);
    assert next == from + i + 1;
    assert all[from..][i + 1..] == all[next..];
  }

  // ---- the replay ----

  /** What is retained of the findings: all of them, or the first `max`. */
  function Kept(all: seq<Finding>, max: int): seq<Finding> {
    if max < 0 || |all| <= max then all else all[..max]
  }

  /** What the report says of a pool whose batches are `items`. */
  ghost function ReportOf(db: Db, pool: string, items: seq<Item>): PoolReport {
    PoolReport(pool, |items|, |Flat(items)|, |Listed(CacheOf(db, pool))|, LastSeqNo(items),
               if items == [] then "" else EncodeHead(HashBefore(items, |items|)))
  }

  ghost function PoolReports(db: Db, pools: seq<string>): seq<PoolReport> {
    if pools == [] then []
    else PoolReports(db, pools[..|pools| - 1]) + [ReportOf(db, pools[|pools| - 1], Replay(db, pools[|pools| - 1]))]
  }

  ghost function AuditReportOf(db: Db): AuditReport {
    var rows := AuditReplay(db);
    AuditReport(|rows|, if rows == [] then 0 else rows[|rows| - 1].body.seqNo,
                if rows == [] then "" else EncodeHead(AuditHashBefore(rows, |rows|)))
  }

  class Replayer {
    const d: Digest
    const db: Db
    const pageSize: nat
    const maxFindings: int
    var findings: seq<Finding>
    var findingCount: nat
    var pools: seq<PoolReport>
    var audit: AuditReport
    ghost var all: seq<Finding>

    /** The options' zero values mean the defaults. */
    constructor (d: Digest, db: Db, pageSize: int, maxFindings: int)
      ensures Valid() && all == [] && pools == []
      ensures this.d == d && this.db == db
      ensures this.pageSize == if pageSize <= 0 then 512 else pageSize
      ensures this.maxFindings == if maxFindings == 0 then 100 else maxFindings
    {
      this.d, this.db := d, db;
      this.pageSize := if pageSize <= 0 then DEFAULT_PAGE_SIZE else pageSize;
      this.maxFindings := if maxFindings == 0 then DEFAULT_MAX_FINDINGS else maxFindings;
      findings, findingCount, pools, audit, all := [], 0, [], AuditReport(0, 0, ""), [];
    }

    /** The count is of every finding; what is kept is a prefix of them. */
    ghost predicate Valid()
      reads this
    {
      pageSize > 0 && findingCount == |all| && findings == Kept(all, maxFindings)
    }

    method Find(f: Finding)
      requires Valid()
      modifies this`findings, this`findingCount, this`all
      ensures Valid() && all == old(all) + [f]
    {
      findingCount := findingCount + 1;
      if !(maxFindings >= 0 && |findings| >= maxFindings) { findings := findings + [f]; }
      all := all + [f];
    }

    method FindIf(found: bool, f: Finding)
      requires Valid()
      modifies this`findings, this`findingCount, this`all
      ensures Valid() && all == old(all) + One(found, f)
    {
      if found { Find(f); }
    }

    /** `sumEntries`: the total of a batch's entries, or nothing on overflow. */
    static method SumEntries(es: seq<EntryRow>) returns (net: Option<int64>)
      ensures var xs := AllAmounts(Moves(es));
              net == if PrefixesFit(xs) then Some(Sum(xs)) else None
    {
      ghost var xs := AllAmounts(Moves(es));
      assert |xs| == |es| && forall i :: 0 <= i < |xs| ==> xs[i] == es[i].amount;
      var total: int64 := 0;
      for i := 0 to |es|
        invariant PrefixesFit(xs[..i]) && total == Sum(xs[..i])
      {
        AddCentipointsIsExact(total, es[i].amount);
        RunningTotal(xs, i);
        var sum := AddCentipoints(total, es[i].amount);
        if sum.None? { return None; }
        total := sum.value;
      }
      assert xs[..|es|] == xs;
      return Some(total);
    }

    /** `checkBatch`: the link, the hash against the batch's own prev_hash, and its summary columns. */
    method CheckBatch(item: Item, prev: Bytes, wantSeq: int)
      requires Valid()
      modifies this`findings, this`findingCount, this`all
      ensures Valid() && all == old(all) + BatchFindings(d, item, prev, wantSeq)
    {
      hide Link, NetIs;
      ghost var before := all;
      var b, es := item.batch.head, item.entries;
      var at := Finding(SeqGap, b.pool, b.seqNo, b.id, "", "");
      FindIf(b.seqNo != wantSeq, at);
      FindIf(item.batch.prevHash != prev, at.(kind := PrevHashMismatch));
      FindIf(Link(d, item.batch.prevHash, b, es) != item.batch.hash, at.(kind := BatchHashMismatch));
      FindIf(b.entryCount != |es|, at.(kind := EntryCountMismatch));
      var netIs := CheckNet(es, b.netAmount);
      FindIf(!netIs, at.(kind := NetAmountMismatch));
      CheckDenorm(b, es);
      Join(before, One(b.seqNo != wantSeq, at), One(item.batch.prevHash != prev, at.(kind := PrevHashMismatch)),
           One(Link(d, item.batch.prevHash, b, es) != item.batch.hash, at.(kind := BatchHashMismatch)),
           One(b.entryCount != |es|, at.(kind := EntryCountMismatch)),
           One(!NetIs(es, b.netAmount), at.(kind := NetAmountMismatch)), DenormFindings(b, es));
    }

    static method CheckNet(es: seq<EntryRow>, want: int) returns (same: bool)
      ensures same <==> NetIs(es, want)
    {
      var net := SumEntries(es);
      same := net.Some? && net.value == want;
    }

    method CheckDenorm(b: BatchHeader, es: seq<EntryRow>)
      requires Valid()
      modifies this`findings, this`findingCount, this`all
      ensures Valid() && all == old(all) + DenormFindings(b, es)
    {
      ghost var before := all;
      for i := 0 to |es|
        invariant Valid() && all == before + DenormFindings(b, es[..i])
      {
        assert es[..i + 1][..i] == es[..i];
        FindIf(es[i].pool != b.pool || es[i].seqNo != b.seqNo,
               Finding(EntryDenormMismatch, b.pool, b.seqNo, b.id, es[i].account, es[i].kind));
      }
      assert es[..|es|] == es;
    }

    /** `foldEntries`: add a batch's entries to the running accumulators, remembering overflow. */
    static method FoldEntries(fold: map<SnapKey, Acc>, ghost done: seq<EntryRow>, es: seq<EntryRow>)
      returns (next: map<SnapKey, Acc>)
      requires fold == Fold(done)
      ensures next == Fold(done + es)
    {
      hide Fold, FoldStep;
      next := fold;
      assert done + es[..0] == done;
      for i := 0 to |es|
        invariant next == Fold(done + es[..i])
      {
        next := FoldStep(next, es[i]);
        FoldNext(done, es, i);
      }
      assert es[..|es|] == es;
    }

    /** `checkHead`: a head that is missing, wrong or unreadable is one finding. */
    method CheckHead(key: string, last: Bytes, at: Finding)
      requires Valid()
      modifies this`findings, this`findingCount, this`all
      ensures Valid() && all == old(all) + HeadFindings(db.meta, key, last, at)
    {
      var stored := ReadHead(db.meta, key);
      match stored {
        case Err(_) => Find(at);
        case Ok(hash) => FindIf(hash != last, at);
      }
    }

    /** `checkSnapshotRow`. */
    method CheckSnapshotRow(pool: string, k: SnapKey, row: Snap, fold: map<SnapKey, Acc>)
      requires Valid()
      modifies this`findings, this`findingCount, this`all
      ensures Valid() && all == old(all) + SnapFindings(pool, k, row, fold)
    {
      var at := Finding(SnapshotOrphan, pool, 0, "", k.account, k.kind);
      if k !in fold {
        Find(at);
        return;
      }
      var acc := fold[k];
      var here := at.(seqNo := acc.maxSeq);
      if acc.overflowed {
        Find(here.(kind := BalanceOverflow));
      } else {
        FindIf(row.amount != acc.amount, here.(kind := SnapshotAmountMismatch));
      }
      FindIf(row.count != acc.count, here.(kind := SnapshotEntryCountMismatch));
      FindIf(row.asOf != acc.maxSeq, here.(kind := SnapshotAsOfSeqMismatch));
    }

    /** One page of cached rows against the fold; each compared key is deleted from it. */
    method CheckPage(pool: string, page: seq<SnapKey>, cache: map<SnapKey, Snap>, remaining: map<SnapKey, Acc>,
                     ghost fold: map<SnapKey, Acc>, ghost keys: seq<SnapKey>, ghost from: nat)
      returns (rest: map<SnapKey, Acc>)
      requires Valid() && Strict(KeyLe, keys) && forall k :: k in keys ==> k in cache
      requires from + |page| <= |keys| && page == keys[from..from + |page|]
      requires remaining == fold - Members(keys[..from])
      modifies this`findings, this`findingCount, this`all
      ensures Valid() && forall k :: k in page ==> k in cache
      ensures all == old(all) + CachedFindings(pool, page, cache, fold)
      ensures rest == fold - Members(keys[..from + |page|])
    {
      hide SnapFindings, KeyLe, Members, CachedFindings, Kept, Strict;
      ghost var before := all;
      rest := remaining;
      assert forall i :: 0 <= i < |page| ==> page[i] == keys[from + i];
      CachedNone(pool, cache, fold);
      for i := 0 to |page|
        invariant Valid() && rest == fold - Members(keys[..from + i])
        invariant all == before + CachedFindings(pool, page[..i], cache, fold)
      {
        RemainingFold(fold, rest, keys, from + i);
        CheckSnapshotRow(pool, page[i], cache[page[i]], rest);
        CachedNext(pool, page, i, cache, fold);
        rest := rest - {page[i]};
      }
      assert page[..|page|] == page;
    }

    /** The keys of the log the cache has no row for. */
    method CheckMissing(pool: string, missing: seq<SnapKey>, fold: map<SnapKey, Acc>)
      requires Valid() && forall k :: k in missing ==> k in fold
      modifies this`findings, this`findingCount, this`all
      ensures Valid() && all == old(all) + MissingFindings(pool, missing, fold)
    {
      ghost var before := all;
      for i := 0 to |missing|
        invariant Valid() && all == before + MissingFindings(pool, missing[..i], fold)
      {
        assert missing[..i + 1][..i] == missing[..i];
        Find(MissingFinding(pool, missing[i], fold[missing[i]]));
      }
      assert missing[..|missing|] == missing;
    }

    /** The paged half of `checkSnapshots`: every cached row against the fold. */
    method ComparePages(pool: string, cache: map<SnapKey, Snap>, fold: map<SnapKey, Acc>)
      returns (count: int, remaining: map<SnapKey, Acc>)
      requires Valid()
      modifies this`findings, this`findingCount, this`all
      ensures var keys := KeySeq(Listed(cache).Keys);
              && Valid() && (forall k :: k in keys ==> k in cache)
              && all == old(all) + CachedFindings(pool, keys, cache, fold)
              && count == |keys| && remaining == fold - Members(keys)
    {
      hide SnapFindings, KeySeq, KeyLe, KeysAfter, Members, CachedFindings, Kept, Strict;
      ghost var keys, before := KeySeq(Listed(cache).Keys), all;
      var cursor := FIRST_KEY;
      remaining, count := fold, 0;
      CompareStart(cache, fold, pool);
      while true
        invariant 0 <= count <= |keys| && Valid() && Compared(cache, fold, keys, count, cursor, remaining)
        invariant all == before + CachedFindings(pool, keys[..count], cache, fold)
        decreases |keys| - count
      {
        var page := ListSnapshotsAfter(cache, cursor, pageSize);
        ComparePage(pool, cache, fold, keys, count, cursor, remaining, page, pageSize);
        if |page| == 0 { break; }
        remaining := CheckPage(pool, page, cache, remaining, fold, keys, count);
        count := count + |page|;
        cursor := page[|page| - 1];
      }
      assert keys[..|keys|] == keys;
    }

    /** `checkSnapshots`: every cached row against the fold, then whatever the cache has no row for. */
    method CheckSnapshots(pool: string, fold: map<SnapKey, Acc>) returns (count: int)
      requires Valid()
      modifies this`findings, this`findingCount, this`all
      ensures Valid() && all == old(all) + CacheFindings(pool, CacheOf(db, pool), fold)
      ensures count == |Listed(CacheOf(db, pool))|
    {
      hide SnapFindings, KeySeq, KeyLe, Members, MissingFindings, CachedFindings, CacheFindings, Kept, Listed, CacheOf;
      var cache := CacheOf(db, pool);
      ghost var before := all;
      var remaining;
      count, remaining := ComparePages(pool, cache, fold);
      ListedSize(cache);
      CacheIsCompared(pool, cache, fold, remaining);
      var missing := SortedKeys(remaining.Keys);
      CheckMissing(pool, missing, remaining);
      Join2(before, CachedFindings(pool, KeySeq(Listed(cache).Keys), cache, fold), MissingFindings(pool, missing, remaining));
    }

    /** One batch of the walk: its entries, its checks, and its part of the fold. */
    method WalkBatch(row: BatchRow, ghost items: seq<Item>, ghost k: nat, w: PoolWalk) returns (next: PoolWalk)
      requires Valid() && k < |items| && Walked(items, k, w)
      requires items[k] == Item(row, EntriesById(db.entries, row.head.id))
      modifies this`findings, this`findingCount, this`all
      ensures Valid() && Walked(items, k + 1, next)
      ensures all == old(all) + BatchFindings(d, items[k], HashBefore(items, k), SeqWanted(items, k))
    {
      hide BatchFindings, Kept, Fold, Flat;
      var es := EntriesById(db.entries, row.head.id);
      CheckBatch(Item(row, es), w.prev, w.wantSeq);
      var fold := FoldEntries(w.fold, Flat(items[..k]), es);
      next := PoolWalk(row.hash, row.head.seqNo + 1, row.head.seqNo, fold,
                       w.batches + 1, w.entries + |es|, row.head.seqNo);
      WalkedNext(items, k);
    }

    /** The batches of one page, in turn. */
    method WalkPage(page: seq<BatchRow>, ghost items: seq<Item>, ghost k: nat, w: PoolWalk) returns (next: PoolWalk)
      requires Valid() && Walked(items, k, w) && k + |page| <= |items|
      requires forall i :: 0 <= i < |page| ==> items[k + i] == Item(page[i], EntriesById(db.entries, page[i].head.id))
      modifies this`findings, this`findingCount, this`all
      ensures Valid() && Walked(items, k + |page|, next) && old(all) <= all
      ensures Walk(d, items[..k + |page|]) == Walk(d, items[..k]) + Gained(old(all), all)
    {
      hide BatchFindings, Kept, Fold, Flat, Walked, Walk, EntriesById;
      ghost var before := all;
      next := w;
      for i := 0 to |page|
        invariant Valid() && Walked(items, k + i, next) && before <= all
        invariant Walk(d, items[..k + i]) == Walk(d, items[..k]) + Gained(before, all)
      {
        ghost var now := all;
        next := WalkBatch(page[i], items, k + i, next);
        WalkNext(d, items, k + i);
        GainedMore(Walk(d, items[..k]), before, now, all,
                   BatchFindings(d, items[k + i], HashBefore(items, k + i), SeqWanted(items, k + i)));
      }
    }

    /** `pool`: one pool's batch chain, head and cached balances. */
    method Pool(pool: string)
      requires Valid() && UniqueSeqs(db)
      modifies this
      ensures Valid() && audit == old(audit)
      ensures all == old(all) + PoolFindings(d, db, pool)
      ensures pools == old(pools) + [ReportOf(db, pool, Replay(db, pool))]
    {
      hide Kept, Fold, Flat, Walked, Walk, Replay, UniqueSeqs, CacheFindings, HeadFindings, ListBatchesAfterSeq, EntriesById, EncodeHead;
      ghost var items, before := Replay(db, pool), all;
      var w := PoolWalk([], 1, 0, map[], 0, 0, 0);
      WalkStart(d, db, pool);
      while true
        invariant Valid() && w.batches <= |items| && Walked(items, w.batches, w)
        invariant all == before + Walk(d, items[..w.batches]) && pools == old(pools) && audit == old(audit)
        decreases |items| - w.batches
      {
        var page := ListBatchesAfterSeq(db, pool, w.cursor, pageSize);
        PageOfWalk(db, pool, w.batches, w, page, pageSize);
        if |page| == 0 { break; }
        ghost var now, k := all, w.batches;
        w := WalkPage(page, items, k, w);
        WalkedCount(items, k + |page|, w);
        GainedAll(before, Walk(d, items[..k]), now, all);
      }
      WalkedAll(items, w);
      var head := if w.batches == 0 then "" else EncodeHead(w.prev);
      CheckHead(HeadKey(pool), w.prev, Finding(LedgerHeadMismatch, pool, w.headSeq, "", "", ""));
      var snapshots := CheckSnapshots(pool, w.fold);
      pools := pools + [PoolReport(pool, w.batches, w.entries, snapshots, w.headSeq, head)];
      Join3(before, Walk(d, items), HeadFindings(db.meta, HeadKey(pool), w.prev, Finding(LedgerHeadMismatch, pool, w.headSeq, "", "", "")),
            CacheFindings(pool, CacheOf(db, pool), w.fold));
    }

    /** `checkAuditRow`. */
    method CheckAuditRow(row: AuditRow, prev: Bytes, wantSeq: int)
      requires Valid()
      modifies this`findings, this`findingCount, this`all
      ensures Valid() && all == old(all) + AuditRowFindings(d, row, prev, wantSeq)
    {
      hide Kept;
      var at := Finding(AuditSeqGap, "", row.body.seqNo, "", "", "");
      FindIf(row.body.seqNo != wantSeq, at);
      FindIf(row.prevHash != prev, at.(kind := AuditPrevHashMismatch));
      FindIf(d.audit(row.prevHash, row.body) != row.hash, at.(kind := AuditHashMismatch));
    }

    /** The audit rows of one page, in turn. */
    method AuditPage(page: seq<AuditRow>, ghost rows: seq<AuditRow>, ghost k: nat, prev: Bytes, wantSeq: int)
      returns (nextPrev: Bytes, nextWant: int)
      requires Valid() && k + |page| <= |rows| && page == rows[k..k + |page|]
      requires prev == AuditHashBefore(rows, k) && wantSeq == AuditSeqWanted(rows, k)
      modifies this`findings, this`findingCount, this`all
      ensures Valid() && old(all) <= all
      ensures AuditWalk(d, rows[..k + |page|]) == AuditWalk(d, rows[..k]) + Gained(old(all), all)
      ensures nextPrev == AuditHashBefore(rows, k + |page|) && nextWant == AuditSeqWanted(rows, k + |page|)
    {
      hide AuditRowFindings, Kept, AuditWalk;
      ghost var before := all;
      nextPrev, nextWant := prev, wantSeq;
      assert forall i :: 0 <= i < |page| ==> page[i] == rows[k + i];
      for i := 0 to |page|
        invariant Valid() && before <= all
        invariant nextPrev == AuditHashBefore(rows, k + i) && nextWant == AuditSeqWanted(rows, k + i)
        invariant AuditWalk(d, rows[..k + i]) == AuditWalk(d, rows[..k]) + Gained(before, all)
      {
        ghost var now := all;
        CheckAuditRow(page[i], nextPrev, nextWant);
        AuditWalkNext(d, rows, k + i);
        GainedMore(AuditWalk(d, rows[..k]), before, now, all,
                   AuditRowFindings(d, rows[k + i], AuditHashBefore(rows, k + i), AuditSeqWanted(rows, k + i)));
        nextPrev, nextWant := page[i].hash, page[i].body.seqNo + 1;
      }
    }

    /** `auditChain`: the instance-wide log, on its own terms. */
    method AuditChain()
      requires Valid() && UniqueSeqs(db)
      modifies this
      ensures Valid() && pools == old(pools)
      ensures all == old(all) + AuditFindings(d, db) && audit == AuditReportOf(db)
    {
      hide Kept, AuditWalk, AuditReplay, UniqueSeqs, HeadFindings, ListAuditRowsAfterSeq, EncodeHead;
      ghost var rows, before := AuditReplay(db), all;
      var prev: Bytes, wantSeq, cursor, count := [], 1, 0, 0;
      AuditStart(d, db);
      while true
        invariant Valid() && 0 <= count <= |rows| && pools == old(pools)
        invariant prev == AuditHashBefore(rows, count) && wantSeq == AuditSeqWanted(rows, count)
        invariant cursor == if count == 0 then 0 else rows[count - 1].body.seqNo
        invariant all == before + AuditWalk(d, rows[..count])
        decreases |rows| - count
      {
        var page := ListAuditRowsAfterSeq(db, cursor, pageSize);
        PageOfAudit(db, count, cursor, page, pageSize);
        if |page| == 0 { break; }
        ghost var now, k := all, count;
        prev, wantSeq := AuditPage(page, rows, k, prev, wantSeq);
        cursor, count := page[|page| - 1].body.seqNo, count + |page|;
        GainedAll(before, AuditWalk(d, rows[..k]), now, all);
      }
      assert rows[..|rows|] == rows;
      audit := AuditReport(count, cursor, if count == 0 then "" else EncodeHead(prev));
      CheckHead(AUDIT_HEAD, prev, Finding(AuditHeadMismatch, "", cursor, "", "", ""));
      Join2(before, AuditWalk(d, rows), HeadFindings(db.meta, AUDIT_HEAD, prev, Finding(AuditHeadMismatch, "", cursor, "", "", "")));
    }

    /**
     * `Verify`: every pool in id order, then the audit chain. Whatever the page size, the findings
     * are those of the unpaged walk; the cap only bounds how many are kept.
     */
    method Verify()
      requires Valid() && all == [] && pools == [] && UniqueSeqs(db)
      modifies this
      ensures findingCount == |AllFindings(d, db)|
      ensures findings == Kept(AllFindings(d, db), maxFindings)
      ensures pools == PoolReports(db, Sort(StrLe, db.pools)) && audit == AuditReportOf(db)
    {
      hide PoolFindings, AuditFindings, Kept, ReportOf, AuditReportOf, UniqueSeqs, Sort;
      var ids := Sort(StrLe, db.pools);
      for i := 0 to |ids|
        invariant Valid() && all == PoolsFindings(d, db, ids[..i]) && pools == PoolReports(db, ids[..i])
      {
        Pool(ids[i]);
        assert ids[..i + 1][..i] == ids[..i];
      }
      assert ids[..|ids|] == ids;
      AuditChain();
    }
  }

  // ---- one pool's walk ----

  /** The locals of `pool`: the link, seq and cursor expected next, the fold and the counts. */
  datatype PoolWalk = PoolWalk(prev: Bytes, wantSeq: int, cursor: int, fold: map<SnapKey, Acc>, batches: nat, entries: nat, headSeq: int)

  /** Where the walk stands after the first `k` batches. */
  ghost predicate Walked(items: seq<Item>, k: nat, w: PoolWalk) {
    && k <= |items| && w.batches == k
    && w.prev == HashBefore(items, k) && w.wantSeq == SeqWanted(items, k)
    && w.fold == Fold(Flat(items[..k])) && w.entries == |Flat(items[..k])|
    && w.headSeq == LastSeqNo(items[..k]) && w.cursor == w.headSeq
  }

  lemma WalkedNext(items: seq<Item>, k: nat)
    requires k < |items|
    ensures Flat(items[..k + 1]) == Flat(items[..k]) + items[k].entries
    ensures LastSeqNo(items[..k + 1]) == items[k].batch.head.seqNo
  {
    assert items[..k + 1][..k] == items[..k];
  }

  lemma FoldNext(done: seq<EntryRow>, es: seq<EntryRow>, i: nat)
    requires i < |es|
    ensures Fold(done + es[..i + 1]) == FoldStep(Fold(done + es[..i]), es[i])
  {
    hide FoldStep;
    assert (done + es[..i + 1])[..|done| + i] == done + es[..i];
  }

  lemma WalkNext(d: Digest, items: seq<Item>, k: nat)
    requires k < |items|
    ensures Walk(d, items[..k + 1])
         == Walk(d, items[..k]) + BatchFindings(d, items[k], HashBefore(items, k), SeqWanted(items, k))
  {
    hide BatchFindings;
    assert items[..k + 1][..k] == items[..k];
  }

  lemma AuditWalkNext(d: Digest, rows: seq<AuditRow>, k: nat)
    requires k < |rows|
    ensures AuditWalk(d, rows[..k + 1])
         == AuditWalk(d, rows[..k]) + AuditRowFindings(d, rows[k], AuditHashBefore(rows, k), AuditSeqWanted(rows, k))
  {
    hide AuditRowFindings;
    assert rows[..k + 1][..k] == rows[..k];
  }

  ghost function Gained<T>(before: seq<T>, after: seq<T>): seq<T>
    requires before <= after
  {
    after[|before|..]
  }

  lemma GainedMore<T>(walk: seq<T>, before: seq<T>, now: seq<T>, after: seq<T>, more: seq<T>)
    requires before <= now && after == now + more
    ensures before <= after && walk + Gained(before, now) + more == walk + Gained(before, after)
  {}

  lemma GainedAll<T>(before: seq<T>, walk: seq<T>, now: seq<T>, after: seq<T>)
    requires now == before + walk && now <= after
    ensures after == before + (walk + Gained(now, after))
  {}

  lemma WalkStart(d: Digest, db: Db, pool: string)
    ensures Walked(Replay(db, pool), 0, PoolWalk([], 1, 0, map[], 0, 0, 0))
    ensures Walk(d, Replay(db, pool)[..0]) == []
  {}

  lemma AuditStart(d: Digest, db: Db)
    ensures AuditWalk(d, AuditReplay(db)[..0]) == []
  {}

  lemma WalkedCount(items: seq<Item>, k: nat, w: PoolWalk)
    requires Walked(items, k, w)
    ensures w.batches == k <= |items|
  {}

  lemma WalkedAll(items: seq<Item>, w: PoolWalk)
    requires Walked(items, |items|, w)
    ensures items[..|items|] == items
    ensures w.prev == HashBefore(items, |items|) && w.fold == Fold(Flat(items)) && w.entries == |Flat(items)|
    ensures w.headSeq == LastSeqNo(items) && w.batches == |items|
  {
    assert items[..|items|] == items;
  }

  /** A page read from the cursor is the next stretch of the walk, and empty only at its end. */
  lemma PageOfWalk(db: Db, pool: string, k: nat, w: PoolWalk, page: seq<BatchRow>, limit: nat)
    requires UniqueSeqs(db) && limit > 0 && Walked(Replay(db, pool), k, w)
    requires page == ListBatchesAfterSeq(db, pool, w.cursor, limit)
    ensures var items := Replay(db, pool);
            && k + |page| <= |items|
            && (forall i :: 0 <= i < |page| ==> items[k + i] == Item(page[i], EntriesById(db.entries, page[i].head.id)))
            && (page == [] ==> k == |items|)
  {
    hide EntriesById, BatchesBySeq, Fold, Flat, Above;
    BatchesCountUp(db, pool);
    var bs := BatchesBySeq(db, pool);
    var walk := Above(bs, 0);
    if k > 0 {
      BatchesAfter(bs, k - 1);
      assert w.cursor == walk[k - 1].head.seqNo;
    } else {
      assert walk[0..] == walk;
    }
    PageIs(walk, k, page, limit);
  }

  lemma PageOfAudit(db: Db, k: nat, cursor: int, page: seq<AuditRow>, limit: nat)
    requires UniqueSeqs(db) && limit > 0 && k <= |AuditReplay(db)|
    requires cursor == if k == 0 then 0 else AuditReplay(db)[k - 1].body.seqNo
    requires page == ListAuditRowsAfterSeq(db, cursor, limit)
    ensures k + |page| <= |AuditReplay(db)| && page == AuditReplay(db)[k..k + |page|]
    ensures page == [] ==> k == |AuditReplay(db)|
  {
    hide AuditBySeq, AuditAbove;
    AuditCountsUp(db);
    var rows := AuditReplay(db);
    if k > 0 { AuditAfter(AuditBySeq(db), k - 1); } else { assert rows[0..] == rows; }
    PageIs(rows, k, page, limit);
  }

  // ---- comparing the cache ----

  /** Where the comparison stands after `count` keys of the listing. */
  ghost predicate Compared(cache: map<SnapKey, Snap>, fold: map<SnapKey, Acc>, keys: seq<SnapKey>, count: nat,
                           cursor: SnapKey, remaining: map<SnapKey, Acc>)
  {
    && keys == KeySeq(Listed(cache).Keys) && Strict(KeyLe, keys) && (forall k :: k in keys ==> k in cache)
    && count <= |keys|
    && KeysAfter(cache.Keys, cursor) == keys[count..]
    && remaining == fold - Members(keys[..count])
  }

  lemma ListedKeys(cache: map<SnapKey, Snap>)
    ensures Listed(cache).Keys == cache.Keys - {FIRST_KEY}
  {}

  lemma CompareStart(cache: map<SnapKey, Snap>, fold: map<SnapKey, Acc>, pool: string)
    ensures Compared(cache, fold, KeySeq(Listed(cache).Keys), 0, FIRST_KEY, fold)
    ensures CachedFindings(pool, [], cache, fold) == []
  {
    hide KeyLe, KeySeq, KeysAfter;
    ListedKeys(cache);
    KeySeqMembers(Listed(cache).Keys);
    FirstPage(cache.Keys);
    NothingRemoved(fold);
  }

  lemma ComparePage(pool: string, cache: map<SnapKey, Snap>, fold: map<SnapKey, Acc>, keys: seq<SnapKey>, count: nat,
                    cursor: SnapKey, remaining: map<SnapKey, Acc>, page: seq<SnapKey>, limit: nat)
    requires limit > 0 && Compared(cache, fold, keys, count, cursor, remaining)
    requires page == Take(KeysAfter(cache.Keys, cursor), limit)
    ensures Strict(KeyLe, keys) && forall k :: k in keys ==> k in cache
    ensures count + |page| <= |keys| && page == keys[count..count + |page|]
    ensures remaining == fold - Members(keys[..count])
    ensures page == [] ==> count == |keys|
    ensures page != [] ==>
      Compared(cache, fold, keys, count + |page|, page[|page| - 1], fold - Members(keys[..count + |page|]))
    ensures (forall k :: k in page ==> k in cache) &&
      CachedFindings(pool, keys[..count + |page|], cache, fold)
        == CachedFindings(pool, keys[..count], cache, fold) + CachedFindings(pool, page, cache, fold)
  {
    hide KeyLe, KeySeq, KeysAfter, Members, CachedFindings, Strict, Compared;
    ComparedParts(cache, fold, keys, count, cursor, remaining);
    PageIs(keys, count, page, limit);
    assert keys[..count] + page == keys[..count + |page|];
    CachedAppend(pool, keys[..count], page, cache, fold);
    if page != [] { ComparedNext(cache, fold, keys, count, cursor, remaining, page); }
  }

  lemma ComparedParts(cache: map<SnapKey, Snap>, fold: map<SnapKey, Acc>, keys: seq<SnapKey>, count: nat,
                      cursor: SnapKey, remaining: map<SnapKey, Acc>)
    requires Compared(cache, fold, keys, count, cursor, remaining)
    ensures Strict(KeyLe, keys) && (forall k :: k in keys ==> k in cache) && count <= |keys|
    ensures KeysAfter(cache.Keys, cursor) == keys[count..] && remaining == fold - Members(keys[..count])
  {
    hide KeyLe, KeySeq, KeysAfter, Members, Strict;
  }

  lemma ComparedNext(cache: map<SnapKey, Snap>, fold: map<SnapKey, Acc>, keys: seq<SnapKey>, count: nat,
                     cursor: SnapKey, remaining: map<SnapKey, Acc>, page: seq<SnapKey>)
    requires Compared(cache, fold, keys, count, cursor, remaining) && page != []
    requires count + |page| <= |keys| && page == keys[count..count + |page|]
    ensures Compared(cache, fold, keys, count + |page|, page[|page| - 1], fold - Members(keys[..count + |page|]))
  {
    hide KeyLe, KeySeq, KeysAfter, Members, Strict;
    ListedKeys(cache);
    assert page[|page| - 1] == keys[count + |page| - 1];
    NextPage(cache.Keys, count + |page| - 1);
  }

  lemma NothingRemoved(fold: map<SnapKey, Acc>)
    ensures fold - Members([]) == fold
  {}

  /** A non-empty page is the next stretch of the listing. */
  lemma PageIs<T>(keys: seq<T>, from: nat, page: seq<T>, limit: nat)
    requires from <= |keys| && page == Take(keys[from..], limit)
    ensures from + |page| <= |keys| && page == keys[from..from + |page|]
    ensures limit > 0 && from < |keys| ==> page != []
  {}

  lemma CachedNone(pool: string, cache: map<SnapKey, Snap>, fold: map<SnapKey, Acc>)
    ensures CachedFindings(pool, [], cache, fold) == []
  {}

  lemma CachedNext(pool: string, keys: seq<SnapKey>, i: nat, cache: map<SnapKey, Snap>, fold: map<SnapKey, Acc>)
    requires i < |keys| && forall k :: k in keys ==> k in cache
    ensures CachedFindings(pool, keys[..i + 1], cache, fold)
         == CachedFindings(pool, keys[..i], cache, fold) + SnapFindings(pool, keys[i], cache[keys[i]], fold)
  {
    hide SnapFindings;
    assert keys[..i + 1][..i] == keys[..i];
  }

  lemma {:induction false} CachedAppend(pool: string, a: seq<SnapKey>, b: seq<SnapKey>, cache: map<SnapKey, Snap>, fold: map<SnapKey, Acc>)
    requires (forall k :: k in a ==> k in cache) && forall k :: k in b ==> k in cache
    ensures forall k :: k in a + b ==> k in cache
    ensures CachedFindings(pool, a + b, cache, fold) == CachedFindings(pool, a, cache, fold) + CachedFindings(pool, b, cache, fold)
  {
    hide SnapFindings, CachedFindings;
    if b == [] {
      assert a + b == a;
      CachedNone(pool, cache, fold);
    } else {
      var n := |b| - 1;
      CachedAppend(pool, a, b[..n], cache, fold);
      CachedNext(pool, b, n, cache, fold);
      assert b[..n + 1] == b;
      CachedNext(pool, a + b, |a| + n, cache, fold);
      assert (a + b)[..|a| + n] == a + b[..n] && (a + b)[..|a| + n + 1] == a + b && (a + b)[|a| + n] == b[n];
      Join2(CachedFindings(pool, a, cache, fold), CachedFindings(pool, b[..n], cache, fold), SnapFindings(pool, b[n], cache[b[n]], fold));
    }
  }

  /** The cached rows first, then the keys left in the fold. */
  lemma CacheIsCompared(pool: string, cache: map<SnapKey, Snap>, fold: map<SnapKey, Acc>, remaining: map<SnapKey, Acc>)
    requires remaining == fold - Members(KeySeq(Listed(cache).Keys))
    ensures (forall k :: k in KeySeq(remaining.Keys) ==> k in remaining)
    ensures (forall k :: k in KeySeq(Listed(cache).Keys) ==> k in cache)
    ensures CacheFindings(pool, cache, fold)
         == CachedFindings(pool, KeySeq(Listed(cache).Keys), cache, fold)
            + MissingFindings(pool, KeySeq(remaining.Keys), remaining)
  {
    hide SnapFindings, KeySeq, KeyLe, MissingFindings, CachedFindings;
    MissingKeys(fold, remaining, cache);
    KeySeqMembers(remaining.Keys);
    KeySeqMembers(Listed(cache).Keys);
    MissingSame(pool, KeySeq(remaining.Keys), remaining, fold);
  }

  lemma {:induction false} MissingSame(pool: string, keys: seq<SnapKey>, a: map<SnapKey, Acc>, b: map<SnapKey, Acc>)
    requires forall k :: k in keys ==> k in a && k in b && a[k] == b[k]
    ensures MissingFindings(pool, keys, a) == MissingFindings(pool, keys, b)
  {
    if keys != [] {
      var n := |keys| - 1;
      assert keys == keys[..n] + [keys[n]];
      MissingSame(pool, keys[..n], a, b);
    }
  }

  lemma Join<T>(a: seq<T>, b: seq<T>, c: seq<T>, d: seq<T>, e: seq<T>, f: seq<T>, g: seq<T>)
    ensures a + b + c + d + e + f + g == a + (b + c + d + e + f + g)
  {}

  lemma Join3<T>(a: seq<T>, b: seq<T>, c: seq<T>, d: seq<T>)
    ensures a + b + c + d == a + (b + c + d)
  {}

  lemma Join2<T>(a: seq<T>, b: seq<T>, c: seq<T>)
    ensures a + b + c == a + (b + c)
  {}

  ghost function Members(keys: seq<SnapKey>): set<SnapKey> { set k | k in keys }

  /** Deleting the keys already compared does not change what is compared next. */
  lemma RemainingFold(fold: map<SnapKey, Acc>, remaining: map<SnapKey, Acc>, keys: seq<SnapKey>, n: nat)
    requires n < |keys| && Strict(KeyLe, keys) && remaining == fold - Members(keys[..n])
    ensures keys[n] in remaining <==> keys[n] in fold
    ensures keys[n] in fold ==> remaining[keys[n]] == fold[keys[n]]
    ensures remaining - {keys[n]} == fold - Members(keys[..n + 1])
    ensures forall pool, row :: SnapFindings(pool, keys[n], row, remaining) == SnapFindings(pool, keys[n], row, fold)
  {
    assert keys[n] !in keys[..n];
    assert keys[..n + 1] == keys[..n] + [keys[n]];
  }

  lemma ListedSize(cache: map<SnapKey, Snap>)
    ensures |KeySeq(Listed(cache).Keys)| == |Listed(cache)|
  {
    KeySeqMembers(Listed(cache).Keys);
    StrictSize(KeySeq(Listed(cache).Keys), Listed(cache).Keys);
  }

  lemma {:induction false} StrictSize(keys: seq<SnapKey>, s: set<SnapKey>)
    requires Strict(KeyLe, keys) && forall k :: k in keys <==> k in s
    ensures |keys| == |s|
  {
    if keys == [] {
      assert s == {};
    } else {
      var n := |keys| - 1;
      assert keys == keys[..n] + [keys[n]];
      forall k ensures k in keys[..n] <==> k in s - {keys[n]} {
        assert k in keys <==> k in keys[..n] || k == keys[n];
      }
      StrictSize(keys[..n], s - {keys[n]});
      assert keys[n] in s;
    }
  }

  lemma MissingKeys(fold: map<SnapKey, Acc>, remaining: map<SnapKey, Acc>, cache: map<SnapKey, Snap>)
    requires remaining == fold - Members(KeySeq(Listed(cache).Keys))
    ensures remaining.Keys == fold.Keys - Listed(cache).Keys
    ensures forall k :: k in remaining ==> remaining[k] == fold[k]
  {
    KeySeqMembers(Listed(cache).Keys);
  }
}
