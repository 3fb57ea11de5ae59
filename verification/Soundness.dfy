/**
 * What a clean report says about the tables themselves, and which rows it says nothing about.
 *
 * The replay's cursors start at seq 0 and at the key ("", ""), and no CHECK in the schema keeps a
 * batch's seq positive. A batch at seq 0 or below is never walked, so its entries are not folded.
 */
module Soundness {
  import opened Wrappers
  import opened Int64
  import opened Ordering
  import opened Rows
  import opened Queries
  import opened CommitSpec
  import opened VerifySpec
  import opened Attestation
  import opened LedgerInvariant
  import opened Runs

  /** The primary key of ledger_batch and the foreign keys of both tables. */
  ghost predicate Schema(db: Db) {
    && KeysOk(db)
    && (forall b :: b in db.batches ==> b.head.pool in db.pools)
  }

  ghost predicate Walked(bs: seq<BatchRow>, id: string) { exists b :: b in bs && b.head.id == id && b.head.seqNo > 0 }

  /** Entries the replay reaches: those of a batch whose seq is positive. */
  ghost predicate Visible(db: Db, e: EntryRow) { Walked(db.batches, e.batch) }

  ghost function Entries(db: Db, pool: string): seq<EntryRow> {
    Filter((e: EntryRow) => e.pool == pool, db.entries)
  }

  ghost function VisibleEntries(db: Db, pool: string): seq<EntryRow> {
    Filter((e: EntryRow) => e.pool == pool && Visible(db, e), db.entries)
  }

  // ---- filters ----

  lemma {:induction false} FilterAgrees<T>(p: T -> bool, q: T -> bool, s: seq<T>)
    requires forall x :: x in s ==> (p(x) <==> q(x))
    ensures Filter(p, s) == Filter(q, s)
  {
    if s != [] {
      var n := |s| - 1;
      assert s == s[..n] + [s[n]];
      FilterAgrees(p, q, s[..n]);
    }
  }

  lemma {:induction false} FilterSplits<T>(whole: T -> bool, p: T -> bool, q: T -> bool, s: seq<T>)
    requires forall x :: x in s ==> !(p(x) && q(x)) && (whole(x) <==> p(x) || q(x))
    ensures multiset(Filter(whole, s)) == multiset(Filter(p, s)) + multiset(Filter(q, s))
  {
    if s != [] {
      var n := |s| - 1;
      assert s == s[..n] + [s[n]];
      FilterSplits(whole, p, q, s[..n]);
    }
  }

  lemma {:induction false} EntriesOfIsFilter(es: seq<EntryRow>, batch: string)
    ensures EntriesOf(es, batch) == Filter((e: EntryRow) => e.batch == batch, es)
  {
    if es != [] { EntriesOfIsFilter(es[..|es| - 1], batch); }
  }

  lemma {:induction false} UptoIsFilter(es: seq<EntryRow>, pool: string, s: int)
    ensures Upto(es, pool, s) == Filter((e: EntryRow) => e.pool == pool && e.seqNo <= s, es)
  {
    if es != [] { UptoIsFilter(es[..|es| - 1], pool, s); }
  }

  // ---- the walk reads each visible entry once ----

  ghost predicate InBatches(bs: seq<BatchRow>, e: EntryRow) { exists b :: b in bs && b.head.id == e.batch }

  /** Batches with distinct ids, each with its entries, hold every entry of theirs exactly once. */
  lemma {:induction false} FlatIsFilter(bs: seq<BatchRow>, es: seq<EntryRow>)
    requires DistinctBy(BatchId, bs)
    ensures multiset(Flat(WithEntries(bs, es))) == multiset(Filter((e: EntryRow) => InBatches(bs, e), es))
  {
    if bs == [] {
      FilterNone((e: EntryRow) => InBatches(bs, e), es);
    } else {
      var n := |bs| - 1;
      var pre, id := bs[..n], bs[n].head.id;
      FlatIsFilter(pre, es);
      assert WithEntries(bs, es)[..n] == WithEntries(pre, es);
      SortKeeps(EntryIdLe, EntriesOf(es, id));
      OneMoreBatch(bs, es);
    }
  }

  lemma OneMoreBatch(bs: seq<BatchRow>, es: seq<EntryRow>)
    requires bs != [] && DistinctBy(BatchId, bs)
    ensures var n := |bs| - 1;
            multiset(Filter((e: EntryRow) => InBatches(bs, e), es))
              == multiset(Filter((e: EntryRow) => InBatches(bs[..n], e), es)) + multiset(EntriesOf(es, bs[n].head.id))
  {
    hide InBatches, Filter;
    var n := |bs| - 1;
    var id := bs[n].head.id;
    EntriesOfIsFilter(es, id);
    forall e | e in es
      ensures !(InBatches(bs[..n], e) && e.batch == id) && (InBatches(bs, e) <==> InBatches(bs[..n], e) || e.batch == id)
    {
      InBatchesSnoc(bs, e);
      NotAgain(bs, e);
    }
    FilterSplits((e: EntryRow) => InBatches(bs, e), (e: EntryRow) => InBatches(bs[..n], e), (e: EntryRow) => e.batch == id, es);
  }

  lemma InBatchesSnoc(bs: seq<BatchRow>, e: EntryRow)
    requires bs != []
    ensures InBatches(bs, e) <==> InBatches(bs[..|bs| - 1], e) || e.batch == bs[|bs| - 1].head.id
  {
    assert bs == bs[..|bs| - 1] + [bs[|bs| - 1]];
  }

  lemma NotAgain(bs: seq<BatchRow>, e: EntryRow)
    requires bs != [] && DistinctBy(BatchId, bs)
    ensures !(InBatches(bs[..|bs| - 1], e) && e.batch == bs[|bs| - 1].head.id)
  {
    if InBatches(bs[..|bs| - 1], e) {
      var b :| b in bs[..|bs| - 1] && b.head.id == e.batch;
      var i :| 0 <= i < |bs| - 1 && bs[..|bs| - 1][i] == b;
      assert BatchId(bs[i]) != BatchId(bs[|bs| - 1]);
    }
  }

  function WalkedBatches(db: Db, pool: string): seq<BatchRow> { Above(BatchesBySeq(db, pool), 0) }

  lemma WalkedMembers(db: Db, pool: string)
    ensures forall b :: b in WalkedBatches(db, pool) <==> b in db.batches && b.head.pool == pool && b.head.seqNo > 0
  {
    PoolBatchesMembers(db.batches, pool);
    SortMembers(BatchSeqLe, PoolBatches(db.batches, pool));
    FilterMembers((b: BatchRow) => b.head.seqNo > 0, BatchesBySeq(db, pool));
  }

  lemma {:induction false} PoolBatchesDistinct(bs: seq<BatchRow>, pool: string)
    requires DistinctBy(BatchId, bs)
    ensures DistinctBy(BatchId, PoolBatches(bs, pool))
  {
    if bs != [] {
      var n := |bs| - 1;
      PoolBatchesDistinct(bs[..n], pool);
      PoolBatchesMembers(bs[..n], pool);
      var r := PoolBatches(bs[..n], pool);
      forall i | 0 <= i < |r| ensures BatchId(r[i]) != BatchId(bs[n]) {
        assert r[i] in r;
        var j :| 0 <= j < n && bs[..n][j] == r[i];
        assert BatchId(bs[j]) != BatchId(bs[n]);
      }
    }
  }

  lemma {:induction false} FilterDistinct<T(!new), K>(key: T -> K, p: T -> bool, s: seq<T>)
    requires DistinctBy(key, s)
    ensures DistinctBy(key, Filter(p, s))
  {
    if s != [] {
      var n := |s| - 1;
      var pre := s[..n];
      FilterDistinct(key, p, pre);
      forall i | 0 <= i < |Filter(p, pre)| ensures key(Filter(p, pre)[i]) != key(s[n]) {
        FilterMembers(p, pre);
        var x := Filter(p, pre)[i];
        assert x in Filter(p, pre);
        var j :| 0 <= j < n && pre[j] == x;
        assert key(s[j]) != key(s[n]);
      }
    }
  }

  lemma WalkedDistinct(db: Db, pool: string)
    requires DistinctBy(BatchId, db.batches)
    ensures DistinctBy(BatchId, WalkedBatches(db, pool))
  {
    PoolBatchesDistinct(db.batches, pool);
    SortKeeps(BatchSeqLe, PoolBatches(db.batches, pool));
    DistinctPermutes(BatchId, BatchesBySeq(db, pool), PoolBatches(db.batches, pool));
    FilterDistinct(BatchId, (b: BatchRow) => b.head.seqNo > 0, BatchesBySeq(db, pool));
  }

  /** No denormalised column of a walked batch's entries disagrees with the batch. */
  lemma CleanEntry(d: Digest, db: Db, b: BatchRow, e: EntryRow)
    requires ChainHolds(d, Replay(db, b.head.pool)) && b in db.batches && b.head.seqNo > 0
    requires e in db.entries && e.batch == b.head.id
    ensures e.pool == b.head.pool && e.seqNo == b.head.seqNo && e.seqNo <= |Replay(db, b.head.pool)|
  {
    hide Link, Above, BatchesBySeq;
    WalkedMembers(db, b.head.pool);
    var bs, items := WalkedBatches(db, b.head.pool), Replay(db, b.head.pool);
    var i :| 0 <= i < |bs| && bs[i] == b;
    EntriesOfMembers(db.entries, b.head.id);
    SortMembers(EntryIdLe, EntriesOf(db.entries, b.head.id));
    assert BatchHolds(d, items, i);
    assert e in items[i].entries;
  }

  /** In a clean ledger a pool's walk is the visible entries that carry the pool, each once. */
  lemma WalkIsVisible(d: Digest, db: Db, pool: string)
    requires Schema(db) && forall p :: p in db.pools ==> ChainHolds(d, Replay(db, p))
    requires pool in db.pools
    ensures multiset(Flat(Replay(db, pool))) == multiset(VisibleEntries(db, pool))
  {
    hide ChainHolds, Above, BatchesBySeq;
    var bs := WalkedBatches(db, pool);
    WalkedMembers(db, pool);
    WalkedDistinct(db, pool);
    FlatIsFilter(bs, db.entries);
    forall e | e in db.entries ensures InBatches(bs, e) <==> e.pool == pool && Visible(db, e) {
      if InBatches(bs, e) {
        var b :| b in bs && b.head.id == e.batch;
        CleanEntry(d, db, b, e);
      }
      if Visible(db, e) {
        var b :| b in db.batches && b.head.id == e.batch && b.head.seqNo > 0;
        CleanEntry(d, db, b, e);
      }
    }
    FilterAgrees((e: EntryRow) => InBatches(bs, e), (e: EntryRow) => e.pool == pool && Visible(db, e), db.entries);
  }

  lemma CleanPools(d: Digest, db: Db)
    requires Clean(d, db)
    ensures forall p :: p in db.pools ==> ChainHolds(d, Replay(db, p)) && PoolHolds(d, db, p)
  {
    hide ChainHolds, Mirrors, HeadHolds, Clean, AuditHolds;
    CleanMeansAttested(d, db);
  }

  /** Clean: the cache that can be listed is the sums, counts and last seqs of the visible entries. */
  lemma CleanCacheIsTheLog(d: Digest, db: Db, pool: string)
    requires Schema(db) && Clean(d, db) && pool in db.pools
    ensures Mirrors(Listed(CacheOf(db, pool)), VisibleEntries(db, pool))
  {
    hide ChainHolds, Mirrors, HeadHolds, Clean, Schema, VisibleEntries;
    CleanPools(d, db);
    WalkIsVisible(d, db, pool);
    MirrorsPermutes(Listed(CacheOf(db, pool)), Flat(Replay(db, pool)), VisibleEntries(db, pool));
  }

  // ---- exactly when the whole tables agree ----

  lemma {:induction false} CountSplits(db: Db, es: seq<EntryRow>, pool: string, k: SnapKey)
    ensures |Amounts(Moves(Filter((e: EntryRow) => e.pool == pool && Visible(db, e), es)), k)|
         <= |Amounts(Moves(Filter((e: EntryRow) => e.pool == pool, es)), k)|
    ensures (exists e :: e in es && e.pool == pool && !Visible(db, e) && MoveOf(e).key == k)
      ==> |Amounts(Moves(Filter((e: EntryRow) => e.pool == pool && Visible(db, e), es)), k)|
            != |Amounts(Moves(Filter((e: EntryRow) => e.pool == pool, es)), k)|
  {
    hide Moves, Visible;
    if es != [] {
      var n := |es| - 1;
      assert es == es[..n] + [es[n]];
      CountSplits(db, es[..n], pool, k);
      var some, all := Filter((e: EntryRow) => e.pool == pool && Visible(db, e), es[..n]), Filter((e: EntryRow) => e.pool == pool, es[..n]);
      MovesSnoc(some, es[n]);
      MovesSnoc(all, es[n]);
      GroupSnoc(ByKey, Moves(some), MoveOf(es[n]), k);
      GroupSnoc(ByKey, Moves(all), MoveOf(es[n]), k);
      assert some + [] == some && all + [] == all;
    }
  }

  lemma {:induction false} SameWithoutHidden(db: Db, es: seq<EntryRow>, pool: string, k: SnapKey)
    requires forall e :: e in es && e.pool == pool && !Visible(db, e) ==> MoveOf(e).key != k
    ensures var some, all := Filter((e: EntryRow) => e.pool == pool && Visible(db, e), es), Filter((e: EntryRow) => e.pool == pool, es);
            Amounts(Moves(some), k) == Amounts(Moves(all), k) && LastSeq(some, k) == LastSeq(all, k)
  {
    hide LastSeq, Group, Moves, Visible;
    if es != [] {
      var n := |es| - 1;
      assert es == es[..n] + [es[n]];
      SameWithoutHidden(db, es[..n], pool, k);
      var some, all := Filter((e: EntryRow) => e.pool == pool && Visible(db, e), es[..n]), Filter((e: EntryRow) => e.pool == pool, es[..n]);
      MovesSnoc(some, es[n]);
      MovesSnoc(all, es[n]);
      GroupSnoc(ByKey, Moves(some), MoveOf(es[n]), k);
      GroupSnoc(ByKey, Moves(all), MoveOf(es[n]), k);
      LastSeqSnoc(some, es[n], k);
      LastSeqSnoc(all, es[n], k);
      assert some + [] == some && all + [] == all;
    }
  }

  /** One key of a clean ledger's cache against the whole table. */
  ghost predicate KeyMirrors(cache: map<SnapKey, Snap>, es: seq<EntryRow>, k: SnapKey) {
    && (k in cache <==> k in Keys(Moves(es)))
    && (k in cache ==> RowMirrors(cache[k], es, k))
  }

  lemma MirrorsIsPerKey(cache: map<SnapKey, Snap>, es: seq<EntryRow>)
    ensures Mirrors(cache, es) <==> forall k :: KeyMirrors(cache, es, k)
  {
    hide Moves, Keys, RowMirrors;
    if forall k :: KeyMirrors(cache, es, k) {
      forall k ensures k in cache.Keys <==> k in Keys(Moves(es)) { assert KeyMirrors(cache, es, k); }
      forall k | k in cache ensures RowMirrors(cache[k], es, k) { assert KeyMirrors(cache, es, k); }
    }
  }

  ghost predicate HiddenAt(db: Db, pool: string, k: SnapKey) {
    exists e :: e in db.entries && e.pool == pool && !Visible(db, e) && MoveOf(e).key == k
  }

  /** A listed key agrees with the table exactly when no hidden entry moves it. */
  lemma ListedKey(d: Digest, db: Db, pool: string, k: SnapKey)
    requires Schema(db) && Clean(d, db) && pool in db.pools && k != FIRST_KEY
    ensures KeyMirrors(CacheOf(db, pool), Entries(db, pool), k) <==> !HiddenAt(db, pool, k)
  {
    hide Clean, Schema, Visible, Moves, Net, Amounts, LastSeq, Keys, Mirrors;
    var cache, all, some := CacheOf(db, pool), Entries(db, pool), VisibleEntries(db, pool);
    CleanCacheIsTheLog(d, db, pool);
    MirrorsIsPerKey(Listed(cache), some);
    assert KeyMirrors(Listed(cache), some, k);
    FilterMembers((e: EntryRow) => e.pool == pool, db.entries);
    FilterMembers((e: EntryRow) => e.pool == pool && Visible(db, e), db.entries);
    KeyFromRow(all);
    KeyFromRow(some);
    if HiddenAt(db, pool, k) {
      CountSplits(db, db.entries, pool, k);
      var e :| e in db.entries && e.pool == pool && !Visible(db, e) && MoveOf(e).key == k;
      assert e in all;
    } else {
      SameWithoutHidden(db, db.entries, pool, k);
      SameNet(all, some, k);
    }
  }

  lemma SameNet(a: seq<EntryRow>, b: seq<EntryRow>, k: SnapKey)
    requires Amounts(Moves(a), k) == Amounts(Moves(b), k)
    ensures Net(Moves(a), k) == Net(Moves(b), k)
  {}

  /**
   * In a clean ledger the cached balances are the sums over the entry table exactly when no entry
   * the replay cannot reach moves a listed key, and the one row it cannot list, the one at ("", ""),
   * agrees with the table by itself.
   */
  lemma CleanCacheIsTheTableIff(d: Digest, db: Db, pool: string)
    requires Schema(db) && Clean(d, db) && pool in db.pools
    ensures Mirrors(CacheOf(db, pool), Entries(db, pool)) <==>
      && (forall k :: k != FIRST_KEY ==> !HiddenAt(db, pool, k))
      && KeyMirrors(CacheOf(db, pool), Entries(db, pool), FIRST_KEY)
  {
    hide Clean, Schema, KeyMirrors, HiddenAt, Mirrors, Entries;
    MirrorsIsPerKey(CacheOf(db, pool), Entries(db, pool));
    forall k | k != FIRST_KEY
      ensures KeyMirrors(CacheOf(db, pool), Entries(db, pool), k) <==> !HiddenAt(db, pool, k)
    {
      ListedKey(d, db, pool, k);
    }
  }

  /** With no row at ("", ""), as when every account has a name: when every entry is reached. */
  lemma NamedAccountsTableIff(d: Digest, db: Db, pool: string)
    requires Schema(db) && Clean(d, db) && pool in db.pools && FIRST_KEY !in CacheOf(db, pool)
    ensures Mirrors(CacheOf(db, pool), Entries(db, pool))
      <==> forall e :: e in db.entries && e.pool == pool ==> Visible(db, e)
  {
    hide Clean, Schema, Visible, Mirrors, Moves, Keys;
    var cache, all := CacheOf(db, pool), Entries(db, pool);
    CleanCacheIsTheTableIff(d, db, pool);
    FilterMembers((e: EntryRow) => e.pool == pool, db.entries);
    KeyFromRow(all);
    if e :| e in db.entries && e.pool == pool && !Visible(db, e) {
      assert HiddenAt(db, pool, MoveOf(e).key);
      assert e in all;
    } else {
      CleanCacheIsTheLog(d, db, pool);
      FilterAgrees((e: EntryRow) => e.pool == pool, (e: EntryRow) => e.pool == pool && Visible(db, e), db.entries);
      assert Listed(cache) == cache;
    }
  }

  // ---- a batch below seq 1 is invisible ----

  lemma {:induction false} FilterHead<T>(p: T -> bool, x: T, s: seq<T>)
    ensures Filter(p, [x] + s) == if p(x) then [x] + Filter(p, s) else Filter(p, s)
  {
    if s == [] {
      assert [x] + s == [x];
      assert [x][..0] == [];
    } else {
      var n := |s| - 1;
      assert ([x] + s)[..n + 1] == [x] + s[..n];
      FilterHead(p, x, s[..n]);
    }
  }

  lemma InsertFirst<T(!new)>(le: (T, T) -> bool, p: T -> bool, x: T, s: seq<T>)
    requires Transitive(le) && Sorted(le, s) && s != [] && le(x, s[0])
    ensures Insert(le, x, Filter(p, s)) == [x] + Filter(p, s)
  {
    var kept := Filter(p, s);
    FilterMembers(p, s);
    if kept != [] {
      assert kept[0] in kept;
      var i :| 0 <= i < |s| && s[i] == kept[0];
      assert le(x, kept[0]) by { if i > 0 { assert le(s[0], s[i]); } }
    }
  }

  lemma {:induction false} FilterInsert<T(!new)>(le: (T, T) -> bool, p: T -> bool, x: T, s: seq<T>)
    requires Transitive(le) && Sorted(le, s)
    ensures Filter(p, Insert(le, x, s)) == if p(x) then Insert(le, x, Filter(p, s)) else Filter(p, s)
  {
    hide Filter, Transitive;
    if s == [] {
      FilterHead(p, x, []);
      FilterEmpty(p);
      assert [x] + [] == [x];
    } else if le(x, s[0]) {
      FilterHead(p, x, s);
      InsertFirst(le, p, x, s);
    } else {
      var first, rest := s[0], s[1..];
      assert s == [first] + rest;
      FilterHead(p, first, rest);
      FilterInsert(le, p, x, rest);
      FilterHead(p, first, Insert(le, x, rest));
      if p(first) { InsertSecond(le, x, first, Filter(p, rest)); }
    }
  }

  lemma FilterEmpty<T>(p: T -> bool)
    ensures Filter(p, []) == []
  {}

  lemma InsertSecond<T>(le: (T, T) -> bool, x: T, first: T, rest: seq<T>)
    requires !le(x, first)
    ensures Insert(le, x, [first] + rest) == [first] + Insert(le, x, rest)
  {
    assert ([first] + rest)[1..] == rest;
  }

  /** Filtering a sorted listing is sorting what passes. */
  lemma {:induction false} FilterSort<T(!new)>(le: (T, T) -> bool, p: T -> bool, s: seq<T>)
    requires Total(le) && Transitive(le)
    ensures Filter(p, Sort(le, s)) == Sort(le, Filter(p, s))
  {
    if s != [] {
      assert s == [s[0]] + s[1..];
      FilterSort(le, p, s[1..]);
      FilterHead(p, s[0], s[1..]);
      SortSorts(le, s[1..]);
      FilterInsert(le, p, s[0], Sort(le, s[1..]));
      assert Filter(p, s) == if p(s[0]) then [s[0]] + Filter(p, s[1..]) else Filter(p, s[1..]);
      assert p(s[0]) ==> Filter(p, s)[0] == s[0] && Filter(p, s)[1..] == Filter(p, s[1..]);
    }
  }

  lemma BatchSeqLeIsOrder()
    ensures Total(BatchSeqLe) && Transitive(BatchSeqLe)
  {}

  lemma FilterDrops<T>(p: T -> bool, s: seq<T>, x: T)
    requires !p(x)
    ensures Filter(p, s + [x]) == Filter(p, s)
  {
    assert (s + [x])[..|s|] == s;
  }

  lemma HiddenWalk(db: Db, after: Db, b: BatchRow, pool: string)
    requires b.head.seqNo <= 0 && after.batches == db.batches + [b]
    ensures WalkedBatches(after, pool) == WalkedBatches(db, pool)
  {
    hide Total, Transitive, Filter, Sort, PoolBatches;
    var positive := (o: BatchRow) => o.head.seqNo > 0;
    var bs := PoolBatches(db.batches, pool);
    BatchSeqLeIsOrder();
    FilterSort(BatchSeqLe, positive, bs);
    FilterSort(BatchSeqLe, positive, bs + [b]);
    FilterDrops(positive, bs, b);
    PoolBatchesSnoc(db.batches, b, pool);
    assert bs + [] == bs;
  }

  lemma HiddenReplay(db: Db, after: Db, b: BatchRow, rows: seq<EntryRow>, pool: string)
    requires after == db.(batches := db.batches + [b], entries := db.entries + rows)
    requires b.head.seqNo <= 0 && (forall e :: e in rows ==> e.batch == b.head.id) && !HasBatch(db.batches, b.head.id)
    ensures Replay(after, pool) == Replay(db, pool)
  {
    hide EntriesOf, Above, BatchesBySeq;
    HiddenWalk(db, after, b, pool);
    WalkedMembers(db, pool);
    var walked := WalkedBatches(db, pool);
    forall i | 0 <= i < |walked|
      ensures EntriesById(after.entries, walked[i].head.id) == EntriesById(db.entries, walked[i].head.id)
    {
      assert walked[i] in walked;
      EntriesOfAppend(db.entries, rows, walked[i].head.id);
      EntriesOfSame(rows, walked[i].head.id, b.head.id);
      assert EntriesOf(db.entries, walked[i].head.id) + [] == EntriesOf(db.entries, walked[i].head.id);
    }
    assert WithEntries(walked, after.entries) == WithEntries(walked, db.entries);
  }

  lemma {:induction false} HiddenPools(d: Digest, db: Db, after: Db, b: BatchRow, rows: seq<EntryRow>, pools: seq<string>)
    requires after == db.(batches := db.batches + [b], entries := db.entries + rows)
    requires b.head.seqNo <= 0 && (forall e :: e in rows ==> e.batch == b.head.id) && !HasBatch(db.batches, b.head.id)
    ensures PoolsFindings(d, after, pools) == PoolsFindings(d, db, pools)
  {
    hide Replay, Walk, HeadFindings, CacheFindings, Fold, Flat;
    if pools != [] {
      var n := |pools| - 1;
      HiddenPools(d, db, after, b, rows, pools[..n]);
      HiddenReplay(db, after, b, rows, pools[n]);
    }
  }

  /** A batch at seq 0 or below, with whatever entries, changes no finding: they are not replayed. */
  lemma HiddenBatchChangesNoFinding(d: Digest, db: Db, b: BatchRow, rows: seq<EntryRow>)
    requires b.head.seqNo <= 0 && (forall e :: e in rows ==> e.batch == b.head.id) && !HasBatch(db.batches, b.head.id)
    ensures AllFindings(d, db.(batches := db.batches + [b], entries := db.entries + rows)) == AllFindings(d, db)
  {
    hide AuditWalk, HeadFindings, PoolFindings;
    HiddenPools(d, db, db.(batches := db.batches + [b], entries := db.entries + rows), b, rows, Sort(StrLe, db.pools));
  }
}
