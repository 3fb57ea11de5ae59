/** What the replay reports when one batch of a clean ledger is rewritten in place. */
module Damage {
  import opened Wrappers
  import opened Int64
  import opened Ordering
  import opened Rows
  import opened Hex
  import opened Queries
  import opened Proposals
  import opened CommitSpec
  import opened VerifySpec
  import opened Attestation
  import opened LedgerInvariant
  import opened Soundness

  function Swap(b: BatchRow, c: BatchRow): BatchRow -> BatchRow { (x: BatchRow) => if x == b then c else x }

  /** The ledger with row `b` of ledger_batch overwritten by `c`. */
  function Rewritten(db: Db, b: BatchRow, c: BatchRow): Db {
    db.(batches := Map(Swap(b, c), db.batches))
  }

  /** The rewrite keeps the row where it is: same id, pool and seq. */
  ghost predicate SamePlace(b: BatchRow, c: BatchRow) {
    c.head.id == b.head.id && c.head.pool == b.head.pool && c.head.seqNo == b.head.seqNo
  }

  function SwapItem(b: BatchRow, c: BatchRow, item: Item): Item { Item(Swap(b, c)(item.batch), item.entries) }

  function SwapItems(b: BatchRow, c: BatchRow, items: seq<Item>): seq<Item> {
    Map((x: Item) => SwapItem(b, c, x), items)
  }

  // ---- the walk of the rewritten ledger ----

  lemma {:induction false} PoolBatchesMap(bs: seq<BatchRow>, f: BatchRow -> BatchRow, pool: string)
    requires forall x: BatchRow :: f(x).head.pool == x.head.pool
    ensures PoolBatches(Map(f, bs), pool) == Map(f, PoolBatches(bs, pool))
  {
    if bs != [] {
      var n := |bs| - 1;
      assert Map(f, bs)[..n] == Map(f, bs[..n]);
      PoolBatchesMap(bs[..n], f, pool);
    }
  }

  lemma WalkedMap(db: Db, b: BatchRow, c: BatchRow, pool: string)
    requires SamePlace(b, c)
    ensures WalkedBatches(Rewritten(db, b, c), pool) == Map(Swap(b, c), WalkedBatches(db, pool))
  {
    var f := Swap(b, c);
    PoolBatchesMap(db.batches, f, pool);
    SortMaps(BatchSeqLe, f, PoolBatches(db.batches, pool));
    FilterMaps((x: BatchRow) => x.head.seqNo > 0, f, BatchesBySeq(db, pool));
  }

  lemma ReplayMap(db: Db, b: BatchRow, c: BatchRow, pool: string)
    requires SamePlace(b, c)
    ensures Replay(Rewritten(db, b, c), pool) == SwapItems(b, c, Replay(db, pool))
  {
    hide EntriesById, Above, BatchesBySeq;
    WalkedMap(db, b, c, pool);
    var walked := WalkedBatches(db, pool);
    assert WithEntries(Map(Swap(b, c), walked), db.entries) == SwapItems(b, c, WithEntries(walked, db.entries));
  }

  /** Where the walk meets the row: once, if it is walked at all. */
  lemma WalkedAt(db: Db, b: BatchRow) returns (i: nat)
    requires DistinctBy(BatchId, db.batches) && b in db.batches && b.head.seqNo > 0
    ensures i < |Replay(db, b.head.pool)| && Replay(db, b.head.pool)[i].batch == b
    ensures forall j :: 0 <= j < |Replay(db, b.head.pool)| && j != i ==> Replay(db, b.head.pool)[j].batch != b
  {
    hide Above, BatchesBySeq, EntriesById;
    WalkedMembers(db, b.head.pool);
    WalkedDistinct(db, b.head.pool);
    var bs := WalkedBatches(db, b.head.pool);
    i :| 0 <= i < |bs| && bs[i] == b;
    forall j | 0 <= j < |bs| && j != i ensures bs[j] != b {
      if j < i { assert BatchId(bs[j]) != BatchId(bs[i]); } else { assert BatchId(bs[i]) != BatchId(bs[j]); }
    }
  }

  lemma OtherPoolUntouched(db: Db, b: BatchRow, c: BatchRow, pool: string)
    requires SamePlace(b, c) && pool != b.head.pool
    ensures Replay(Rewritten(db, b, c), pool) == Replay(db, pool)
  {
    hide Above, BatchesBySeq, EntriesById;
    ReplayMap(db, b, c, pool);
    WalkedMembers(db, pool);
    var items := Replay(db, pool);
    forall i | 0 <= i < |items| ensures SwapItem(b, c, items[i]) == items[i] {
      assert items[i].batch in WalkedBatches(db, pool);
    }
  }

  lemma SwapKeepsEntries(b: BatchRow, c: BatchRow, items: seq<Item>)
    ensures Flat(SwapItems(b, c, items)) == Flat(items)
  {
    if items != [] {
      var n := |items| - 1;
      SwapKeepsEntries(b, c, items[..n]);
      assert SwapItems(b, c, items)[..n] == SwapItems(b, c, items[..n]);
    }
  }

  // ---- the findings of a walk with one bad batch ----

  ghost function At(d: Digest, items: seq<Item>, i: nat): seq<Finding>
    requires i < |items|
  {
    BatchFindings(d, items[i], HashBefore(items, i), SeqWanted(items, i))
  }

  ghost function Between(d: Digest, items: seq<Item>, from: nat, to: nat): seq<Finding>
    requires from <= to <= |items|
  {
    if from == to then [] else Between(d, items, from, to - 1) + At(d, items, to - 1)
  }

  lemma {:induction false} WalkIsBetween(d: Digest, items: seq<Item>, n: nat)
    requires n <= |items|
    ensures Walk(d, items[..n]) == Between(d, items, 0, n)
  {
    hide BatchFindings;
    if n > 0 {
      WalkIsBetween(d, items, n - 1);
      assert items[..n][..n - 1] == items[..n - 1];
    }
  }

  lemma {:induction false} BetweenQuiet(d: Digest, items: seq<Item>, from: nat, to: nat)
    requires from <= to <= |items| && forall i :: from <= i < to ==> At(d, items, i) == []
    ensures Between(d, items, from, to) == []
  {
    hide At;
    if from < to { BetweenQuiet(d, items, from, to - 1); }
  }

  lemma {:induction false} BetweenSplits(d: Digest, items: seq<Item>, from: nat, mid: nat, to: nat)
    requires from <= mid <= to <= |items|
    ensures Between(d, items, from, to) == Between(d, items, from, mid) + Between(d, items, mid, to)
  {
    hide At;
    if mid == to {
      assert Between(d, items, from, mid) + [] == Between(d, items, from, mid);
    } else {
      BetweenSplits(d, items, from, mid, to - 1);
    }
  }

  /** Only batches `i` and `i + 1` have findings. */
  lemma WalkOfTwo(d: Digest, items: seq<Item>, i: nat)
    requires i < |items| && forall j :: 0 <= j < |items| && j != i && j != i + 1 ==> At(d, items, j) == []
    ensures Walk(d, items) == At(d, items, i) + if i + 1 < |items| then At(d, items, i + 1) else []
  {
    hide At, Walk;
    var n := |items|;
    assert items[..n] == items;
    WalkIsBetween(d, items, n);
    BetweenQuiet(d, items, 0, i);
    BetweenSplits(d, items, 0, i, n);
    BetweenSplits(d, items, i, i + 1, n);
    if i + 1 < n {
      BetweenQuiet(d, items, i + 2, n);
      BetweenSplits(d, items, i + 1, i + 2, n);
      OneStep(d, items, i + 1);
      assert At(d, items, i + 1) + [] == At(d, items, i + 1);
    }
    OneStep(d, items, i);
  }

  lemma OneStep(d: Digest, items: seq<Item>, i: nat)
    requires i < |items|
    ensures Between(d, items, i, i + 1) == At(d, items, i)
  {
    hide At;
    assert [] + At(d, items, i) == At(d, items, i);
    assert Between(d, items, i, i) == [];
  }

  lemma CleanAt(d: Digest, items: seq<Item>, i: nat)
    requires i < |items| && Walk(d, items) == []
    ensures At(d, items, i) == []
  {
    hide At, Walk;
    var n := |items|;
    assert items[..n] == items;
    WalkIsBetween(d, items, n);
    BetweenSplits(d, items, 0, i, n);
    BetweenSplits(d, items, i, i + 1, n);
    OneStep(d, items, i);
  }

  // ---- one pool among the pools ----

  ghost predicate NoDuplicates(pools: seq<string>) { DistinctBy((p: string) => p, pools) }

  lemma {:induction false} OnlyPool(d: Digest, db: Db, pools: seq<string>, pool: string)
    requires NoDuplicates(pools) && pool in pools
    requires forall p :: p in pools && p != pool ==> PoolFindings(d, db, p) == []
    ensures PoolsFindings(d, db, pools) == PoolFindings(d, db, pool)
  {
    hide PoolFindings;
    var n := |pools| - 1;
    assert pools == pools[..n] + [pools[n]];
    if pools[n] == pool {
      PoolsCleanIff(d, db, pools[..n]);
      forall p | p in pools[..n] ensures p != pool {
        var i :| 0 <= i < n && pools[i] == p;
      }
      assert [] + PoolFindings(d, db, pool) == PoolFindings(d, db, pool);
    } else {
      OnlyPool(d, db, pools[..n], pool);
      assert PoolFindings(d, db, pool) + [] == PoolFindings(d, db, pool);
    }
  }

  /** The report on a ledger of which only one pool has findings is the report on that pool. */
  lemma OnlyOnePool(d: Digest, db: Db, after: Db, pool: string)
    requires Clean(d, db) && NoDuplicates(db.pools) && pool in db.pools
    requires after.pools == db.pools && after.audit == db.audit && after.meta == db.meta
    requires forall p :: p in db.pools && p != pool ==> PoolFindings(d, after, p) == []
    ensures AllFindings(d, after) == PoolFindings(d, after, pool)
  {
    hide PoolFindings, AuditReplay, AuditWalk, HeadFindings, Sort;
    CleanIff(d, db);
    SameAudit(d, db, after);
    SortKeeps(StrLe, db.pools);
    SortMembers(StrLe, db.pools);
    DistinctPermutes((p: string) => p, Sort(StrLe, db.pools), db.pools);
    OnlyPool(d, after, Sort(StrLe, db.pools), pool);
    assert PoolFindings(d, after, pool) + [] == PoolFindings(d, after, pool);
  }

  /** The report on a rewritten ledger is the report on the pool that was rewritten. */
  lemma OnlyThatPool(d: Digest, db: Db, b: BatchRow, c: BatchRow)
    requires Clean(d, db) && NoDuplicates(db.pools) && SamePlace(b, c) && b.head.pool in db.pools
    ensures AllFindings(d, Rewritten(db, b, c)) == PoolFindings(d, Rewritten(db, b, c), b.head.pool)
  {
    hide Replay, Walk, HeadFindings, CacheFindings, Fold, Flat, AuditFindings, AllFindings;
    var after := Rewritten(db, b, c);
    CleanIff(d, db);
    forall p | p in db.pools && p != b.head.pool ensures PoolFindings(d, after, p) == [] {
      OtherPoolUntouched(db, b, c, p);
    }
    OnlyOnePool(d, db, after, b.head.pool);
  }

  lemma SameAudit(d: Digest, db: Db, after: Db)
    requires after.audit == db.audit && after.meta == db.meta
    ensures AuditFindings(d, after) == AuditFindings(d, db)
  {
    hide AuditWalk, HeadFindings;
  }

  lemma CleanWalk(d: Digest, db: Db, pool: string)
    requires Clean(d, db) && pool in db.pools
    ensures var items := Replay(db, pool);
            && Walk(d, items) == []
            && ReadHead(db.meta, HeadKey(pool)) == Ok(HashBefore(items, |items|))
            && CacheFindings(pool, CacheOf(db, pool), Fold(Flat(items))) == []
  {
    hide Replay, Walk, CacheFindings, Fold, Flat;
    CleanIff(d, db);
    assert PoolFindings(d, db, pool) == [];
    HeadClean(db.meta, HeadKey(pool), HashBefore(Replay(db, pool), |Replay(db, pool)|),
              Finding(LedgerHeadMismatch, pool, LastSeqNo(Replay(db, pool)), "", "", ""));
  }

  // ---- rewriting columns ----

  /** `c` is `b` with other columns changed: the chain's own two columns are as they were. */
  ghost predicate ColumnsRewritten(b: BatchRow, c: BatchRow) {
    SamePlace(b, c) && c.prevHash == b.prevHash && c.hash == b.hash
  }

  lemma BatchRewritten(d: Digest, b: BatchRow, c: BatchRow, es: seq<EntryRow>, prev: Bytes, want: int)
    requires ColumnsRewritten(b, c) && BatchFindings(d, Item(b, es), prev, want) == []
    requires Link(d, b.prevHash, c.head, es) != b.hash
    ensures var at := Finding(BatchHashMismatch, b.head.pool, b.head.seqNo, b.head.id, "", "");
            BatchFindings(d, Item(c, es), prev, want)
              == [at] + One(c.head.entryCount != b.head.entryCount, at.(kind := EntryCountMismatch))
                      + One(c.head.netAmount != b.head.netAmount, at.(kind := NetAmountMismatch))
  {
    hide Link, DenormFindings, Moves, Sum, PrefixesFit;
    DenormSame(b.head, c.head, es);
  }

  lemma RewrittenAt(d: Digest, items: seq<Item>, i: nat, b: BatchRow, c: BatchRow, j: nat)
    requires ColumnsRewritten(b, c) && i < |items| && items[i].batch == b && j < |items|
    requires forall k :: 0 <= k < |items| && k != i ==> items[k].batch != b
    requires Walk(d, items) == []
    requires Link(d, b.prevHash, c.head, items[i].entries) != b.hash
    ensures var after, at := SwapItems(b, c, items), Finding(BatchHashMismatch, b.head.pool, b.head.seqNo, b.head.id, "", "");
            At(d, after, j) ==
              if j != i then []
              else [at] + One(c.head.entryCount != b.head.entryCount, at.(kind := EntryCountMismatch))
                        + One(c.head.netAmount != b.head.netAmount, at.(kind := NetAmountMismatch))
  {
    hide Link, Walk, BatchFindings;
    var after := SwapItems(b, c, items);
    CleanAt(d, items, j);
    assert HashBefore(after, j) == HashBefore(items, j) && SeqWanted(after, j) == SeqWanted(items, j);
    if j == i {
      BatchRewritten(d, b, c, items[i].entries, HashBefore(items, i), SeqWanted(items, i));
    } else {
      assert after[j] == items[j];
    }
  }

  lemma {:induction false} DenormSame(b: BatchHeader, c: BatchHeader, es: seq<EntryRow>)
    requires c.id == b.id && c.pool == b.pool && c.seqNo == b.seqNo
    ensures DenormFindings(c, es) == DenormFindings(b, es)
  {
    if es != [] { DenormSame(b, c, es[..|es| - 1]); }
  }

  /**
   * In a clean ledger, rewriting columns of one walked batch is reported there and nowhere else:
   * the hash, and the entry count or net amount when those were the columns. It needs only that the
   * two contents of this one batch do not hash alike.
   */
  lemma RewriteIsLocal(d: Digest, db: Db, b: BatchRow, c: BatchRow)
    requires Clean(d, db) && Schema(db) && NoDuplicates(db.pools)
    requires b in db.batches && b.head.seqNo > 0 && ColumnsRewritten(b, c)
    requires Link(d, b.prevHash, c.head, EntriesById(db.entries, b.head.id))
          != Link(d, b.prevHash, b.head, EntriesById(db.entries, b.head.id))
    ensures var at := Finding(BatchHashMismatch, b.head.pool, b.head.seqNo, b.head.id, "", "");
            AllFindings(d, Rewritten(db, b, c))
              == [at] + One(c.head.entryCount != b.head.entryCount, at.(kind := EntryCountMismatch))
                      + One(c.head.netAmount != b.head.netAmount, at.(kind := NetAmountMismatch))
  {
    hide Replay, Walk, CacheFindings, Fold, Flat, Link, At, Clean, AllFindings, EntriesById;
    var pool := b.head.pool;
    var items := Replay(db, pool);
    var i := WalkedAt(db, b);
    OnlyThatPool(d, db, b, c);
    CleanWalk(d, db, pool);
    ReplayMap(db, b, c, pool);
    var after := SwapItems(b, c, items);
    SwapKeepsEntries(b, c, items);
    assert HashBefore(after, |items|) == HashBefore(items, |items|);
    EntriesAt(db, pool, i);
    StoredHash(d, items, i);
    forall j | 0 <= j < |items| && j != i ensures At(d, after, j) == [] { RewrittenAt(d, items, i, b, c, j); }
    RewrittenAt(d, items, i, b, c, i);
    WalkOfTwo(d, after, i);
  }

  lemma EntriesAt(db: Db, pool: string, i: nat)
    requires i < |Replay(db, pool)|
    ensures Replay(db, pool)[i].entries == EntriesById(db.entries, Replay(db, pool)[i].batch.head.id)
  {}

  lemma StoredHash(d: Digest, items: seq<Item>, i: nat)
    requires i < |items| && Walk(d, items) == []
    ensures items[i].batch.hash == Link(d, items[i].batch.prevHash, items[i].batch.head, items[i].entries)
  {
    hide Link, Walk;
    CleanAt(d, items, i);
  }

  // ---- rewriting the stored previous hash ----

  lemma RelinkedAt(d: Digest, items: seq<Item>, i: nat, b: BatchRow, prev: Bytes, j: nat)
    requires prev != b.prevHash && i < |items| && items[i].batch == b && j < |items|
    requires forall k :: 0 <= k < |items| && k != i ==> items[k].batch != b
    requires Walk(d, items) == []
    ensures var after, at := SwapItems(b, b.(prevHash := prev), items), Finding(PrevHashMismatch, b.head.pool, b.head.seqNo, b.head.id, "", "");
            At(d, after, j) ==
              if j != i then []
              else [at] + One(Link(d, prev, b.head, items[i].entries) != b.hash, at.(kind := BatchHashMismatch))
  {
    hide Link, Walk, DenormFindings;
    var after := SwapItems(b, b.(prevHash := prev), items);
    CleanAt(d, items, j);
    assert HashBefore(after, j) == HashBefore(items, j) && SeqWanted(after, j) == SeqWanted(items, j);
    if j != i { assert after[j] == items[j]; }
  }

  /**
   * In a clean ledger, rewriting one stored previous hash breaks the link there, and the hash there
   * unless the row still hashes to what it stores: exactly then is there one finding and not two.
   * Nothing else is reported.
   */
  lemma RelinkIsLocal(d: Digest, db: Db, b: BatchRow, prev: Bytes)
    requires Clean(d, db) && Schema(db) && NoDuplicates(db.pools)
    requires b in db.batches && b.head.seqNo > 0 && prev != b.prevHash
    ensures var at := Finding(PrevHashMismatch, b.head.pool, b.head.seqNo, b.head.id, "", "");
            AllFindings(d, Rewritten(db, b, b.(prevHash := prev)))
              == [at] + One(Link(d, prev, b.head, EntriesById(db.entries, b.head.id))
                              != Link(d, b.prevHash, b.head, EntriesById(db.entries, b.head.id)),
                            at.(kind := BatchHashMismatch))
  {
    hide Replay, Walk, CacheFindings, Fold, Flat, Link, At, Clean, AllFindings, EntriesById;
    var pool, c := b.head.pool, b.(prevHash := prev);
    var items := Replay(db, pool);
    var i := WalkedAt(db, b);
    OnlyThatPool(d, db, b, c);
    CleanWalk(d, db, pool);
    ReplayMap(db, b, c, pool);
    var after := SwapItems(b, c, items);
    SwapKeepsEntries(b, c, items);
    assert HashBefore(after, |items|) == HashBefore(items, |items|);
    EntriesAt(db, pool, i);
    StoredHash(d, items, i);
    forall j | 0 <= j < |items| && j != i ensures At(d, after, j) == [] { RelinkedAt(d, items, i, b, prev, j); }
    RelinkedAt(d, items, i, b, prev, i);
    WalkOfTwo(d, after, i);
  }

  // ---- rewriting the stored hash ----

  lemma RehashedAt(d: Digest, items: seq<Item>, i: nat, b: BatchRow, hash: Bytes, j: nat)
    requires hash != b.hash && i < |items| && items[i].batch == b && j < |items|
    requires forall k :: 0 <= k < |items| && k != i ==> items[k].batch != b
    requires Walk(d, items) == []
    ensures var after, at := SwapItems(b, b.(hash := hash), items), items[j].batch.head;
            At(d, after, j) ==
              if j == i then [Finding(BatchHashMismatch, at.pool, at.seqNo, at.id, "", "")]
              else if j == i + 1 then [Finding(PrevHashMismatch, at.pool, at.seqNo, at.id, "", "")]
              else []
  {
    hide Link, Walk, DenormFindings;
    var after := SwapItems(b, b.(hash := hash), items);
    CleanAt(d, items, j);
    assert SeqWanted(after, j) == SeqWanted(items, j);
    assert j != i + 1 ==> HashBefore(after, j) == HashBefore(items, j);
    assert j == i + 1 ==> HashBefore(after, j) == hash && HashBefore(items, j) == b.hash;
    if j != i { assert after[j] == items[j]; }
  }

  ghost predicate NextLinkOrHead(db: Db, b: BatchRow, i: nat) {
    i < |Replay(db, b.head.pool)| && Replay(db, b.head.pool)[i].batch == b
  }

  /** The finding about what names `b`: the batch after it, or the head when it is the last. */
  ghost function BrokenLink(db: Db, b: BatchRow, i: nat): Finding
    requires NextLinkOrHead(db, b, i)
  {
    var items, pool := Replay(db, b.head.pool), b.head.pool;
    if i + 1 < |items|
    then Finding(PrevHashMismatch, pool, items[i + 1].batch.head.seqNo, items[i + 1].batch.head.id, "", "")
    else Finding(LedgerHeadMismatch, pool, b.head.seqNo, "", "", "")
  }

  /**
   * In a clean ledger, rewriting one stored hash produces exactly two findings: the row no longer
   * hashes to it, and the next link, or the head when there is no next batch, no longer names it.
   */
  lemma RehashIsTwoFindings(d: Digest, db: Db, b: BatchRow, hash: Bytes)
    requires Clean(d, db) && Schema(db) && NoDuplicates(db.pools)
    requires b in db.batches && b.head.seqNo > 0 && hash != b.hash
    ensures exists i :: NextLinkOrHead(db, b, i) &&
              AllFindings(d, Rewritten(db, b, b.(hash := hash))) ==
                [Finding(BatchHashMismatch, b.head.pool, b.head.seqNo, b.head.id, "", ""), BrokenLink(db, b, i)]
  {
    hide ReadHead, Replay, Walk, CacheFindings, Fold, Flat, Link, At, Clean, AllFindings;
    var pool, c := b.head.pool, b.(hash := hash);
    var items := Replay(db, pool);
    var i := WalkedAt(db, b);
    assert NextLinkOrHead(db, b, i);
    OnlyThatPool(d, db, b, c);
    CleanWalk(d, db, pool);
    ReplayMap(db, b, c, pool);
    var after := SwapItems(b, c, items);
    SwapKeepsEntries(b, c, items);
    forall j | 0 <= j < |items| && j != i && j != i + 1 ensures At(d, after, j) == [] { RehashedAt(d, items, i, b, hash, j); }
    RehashedAt(d, items, i, b, hash, i);
    WalkOfTwo(d, after, i);
    if i + 1 < |items| {
      RehashedAt(d, items, i, b, hash, i + 1);
      SamePoolAt(db, pool, i + 1);
      assert HashBefore(after, |items|) == HashBefore(items, |items|);
    } else {
      assert HashBefore(after, |items|) == hash && HashBefore(items, |items|) == b.hash;
      assert LastSeqNo(after) == b.head.seqNo;
      var hashAt := Finding(BatchHashMismatch, pool, b.head.seqNo, b.head.id, "", "");
      var headAt := Finding(LedgerHeadMismatch, pool, b.head.seqNo, "", "", "");
      assert HeadFindings(db.meta, HeadKey(pool), hash, headAt) == [headAt];
      assert AllFindings(d, Rewritten(db, b, c)) == [hashAt, headAt];
    }
  }

  lemma SamePoolAt(db: Db, pool: string, i: nat)
    requires i < |Replay(db, pool)|
    ensures Replay(db, pool)[i].batch.head.pool == pool
  {
    WalkedMembers(db, pool);
    assert WalkedBatches(db, pool)[i] in WalkedBatches(db, pool);
  }
}
