/** What the replay reports when one entry row of a clean ledger is rewritten in place. */
module EntryDamage {
  import opened Wrappers
  import opened Int64
  import opened Ordering
  import opened Rows
  import opened Hex
  import opened Queries
  import opened Proposals
  import opened CommitSpec
  import opened VerifySpec
  import opened Attestation
  import opened LedgerInvariant
  import opened Soundness
  import opened Damage

  function Amend(e: EntryRow, f: EntryRow): EntryRow -> EntryRow { (x: EntryRow) => if x == e then f else x }

  /** The ledger with row `e` of ledger_entry overwritten by `f`. */
  function Amended(db: Db, e: EntryRow, f: EntryRow): Db { db.(entries := Map(Amend(e, f), db.entries)) }

  /** The rewrite keeps the row where it is: same id, same batch. */
  ghost predicate SameSlot(e: EntryRow, f: EntryRow) { f.id == e.id && f.batch == e.batch }

  function EntryId(e: EntryRow): string { e.id }

  function AmendItem(e: EntryRow, f: EntryRow, item: Item): Item { Item(item.batch, Map(Amend(e, f), item.entries)) }

  function AmendItems(e: EntryRow, f: EntryRow, items: seq<Item>): seq<Item> {
    Map((x: Item) => AmendItem(e, f, x), items)
  }

  // ---- the walk of the amended ledger ----

  lemma {:induction false} EntriesOfAmended(es: seq<EntryRow>, e: EntryRow, f: EntryRow, batch: string)
    requires SameSlot(e, f)
    ensures EntriesOf(Map(Amend(e, f), es), batch) == Map(Amend(e, f), EntriesOf(es, batch))
  {
    hide Map;
    if es == [] {
      assert Map(Amend(e, f), es) == [];
    } else {
      var n := |es| - 1;
      assert Map(Amend(e, f), es)[..n] == Map(Amend(e, f), es[..n]);
      EntriesOfAmended(es[..n], e, f, batch);
      var pre := EntriesOf(es[..n], batch);
      assert Map(Amend(e, f), pre + [es[n]]) == Map(Amend(e, f), pre) + [Amend(e, f)(es[n])];
    }
  }

  lemma EntriesByIdAmended(es: seq<EntryRow>, e: EntryRow, f: EntryRow, batch: string)
    requires SameSlot(e, f)
    ensures EntriesById(Map(Amend(e, f), es), batch) == Map(Amend(e, f), EntriesById(es, batch))
  {
    hide Map, Sort, EntriesOf, StrLe;
    EntriesOfAmended(es, e, f, batch);
    SortMaps(EntryIdLe, Amend(e, f), EntriesOf(es, batch));
  }

  lemma ReplayAmended(db: Db, e: EntryRow, f: EntryRow, pool: string)
    requires SameSlot(e, f)
    ensures Replay(Amended(db, e, f), pool) == AmendItems(e, f, Replay(db, pool))
  {
    hide EntriesById, Above, BatchesBySeq, Map;
    var items, after := Replay(db, pool), Replay(Amended(db, e, f), pool);
    assert WalkedBatches(Amended(db, e, f), pool) == WalkedBatches(db, pool) by { SameWalk(db, e, f, pool); }
    forall i | 0 <= i < |items| ensures after[i] == AmendItem(e, f, items[i]) {
      EntriesByIdAmended(db.entries, e, f, items[i].batch.head.id);
    }
  }

  lemma SameWalk(db: Db, e: EntryRow, f: EntryRow, pool: string)
    ensures BatchesBySeq(Amended(db, e, f), pool) == BatchesBySeq(db, pool)
  {}

  lemma NotAmended(e: EntryRow, f: EntryRow, item: Item)
    requires e !in item.entries
    ensures AmendItem(e, f, item) == item
  {
    assert Map(Amend(e, f), item.entries) == item.entries;
  }

  lemma EntriesOfItem(db: Db, pool: string, i: nat, e: EntryRow)
    requires i < |Replay(db, pool)|
    ensures e in Replay(db, pool)[i].entries <==> e in db.entries && e.batch == Replay(db, pool)[i].batch.head.id
  {
    hide Above, BatchesBySeq;
    var id := Replay(db, pool)[i].batch.head.id;
    EntriesOfMembers(db.entries, id);
    SortMembers(EntryIdLe, EntriesOf(db.entries, id));
  }

  /** Items other than the batch's own do not hold the entry. */
  lemma OtherItem(db: Db, b: BatchRow, e: EntryRow, f: EntryRow, pool: string, i: nat)
    requires DistinctBy(BatchId, db.batches) && b in db.batches && e.batch == b.head.id
    requires i < |Replay(db, pool)| && Replay(db, pool)[i].batch != b
    ensures AmendItem(e, f, Replay(db, pool)[i]) == Replay(db, pool)[i]
  {
    hide Above, BatchesBySeq, EntriesById, AmendItem;
    var item := Replay(db, pool)[i];
    WalkedMembers(db, pool);
    assert item.batch == WalkedBatches(db, pool)[i];
    assert item.batch in WalkedBatches(db, pool);
    DistinctIds(db.batches, item.batch, b);
    EntriesOfItem(db, pool, i, e);
    NotAmended(e, f, item);
  }

  lemma DistinctIds(bs: seq<BatchRow>, a: BatchRow, b: BatchRow)
    requires DistinctBy(BatchId, bs) && a in bs && b in bs && a != b
    ensures a.head.id != b.head.id
  {
    var i :| 0 <= i < |bs| && bs[i] == a;
    var j :| 0 <= j < |bs| && bs[j] == b;
    if i < j { assert BatchId(bs[i]) != BatchId(bs[j]); } else { assert BatchId(bs[j]) != BatchId(bs[i]); }
  }

  lemma OtherPoolSame(db: Db, b: BatchRow, e: EntryRow, f: EntryRow, pool: string)
    requires SameSlot(e, f) && DistinctBy(BatchId, db.batches) && b in db.batches && e.batch == b.head.id
    requires pool != b.head.pool
    ensures Replay(Amended(db, e, f), pool) == Replay(db, pool)
  {
    hide Above, BatchesBySeq, EntriesById, AmendItem, Map;
    ReplayAmended(db, e, f, pool);
    WalkedMembers(db, pool);
    var items := Replay(db, pool);
    forall i | 0 <= i < |items| ensures AmendItem(e, f, items[i]) == items[i] {
      assert items[i].batch in WalkedBatches(db, pool);
      OtherItem(db, b, e, f, pool, i);
    }
  }

  lemma {:induction false} FlatAmended(e: EntryRow, f: EntryRow, items: seq<Item>)
    ensures Flat(AmendItems(e, f, items)) == Map(Amend(e, f), Flat(items))
  {
    hide Map;
    if items == [] {
      assert AmendItems(e, f, items) == [] && Map(Amend(e, f), []) == [];
    } else {
      var n := |items| - 1;
      FlatAmended(e, f, items[..n]);
      assert AmendItems(e, f, items)[..n] == AmendItems(e, f, items[..n]);
      var pre, last := Flat(items[..n]), items[n].entries;
      assert Map(Amend(e, f), pre + last) == Map(Amend(e, f), pre) + Map(Amend(e, f), last);
    }
  }

  // ---- the batch ----

  function DenormOne(b: BatchHeader, e: EntryRow): seq<Finding> {
    One(e.pool != b.pool || e.seqNo != b.seqNo, Finding(EntryDenormMismatch, b.pool, b.seqNo, b.id, e.account, e.kind))
  }

  lemma DenormSnoc(b: BatchHeader, es: seq<EntryRow>, e: EntryRow)
    ensures DenormFindings(b, es + [e]) == DenormFindings(b, es) + DenormOne(b, e)
  {
    assert (es + [e])[..|es|] == es;
  }

  lemma DenormNone(b: BatchHeader)
    ensures DenormFindings(b, []) == []
  {}

  /** The denormalised columns of the amended entries: only the new row can disagree. */
  lemma {:induction false} DenormAmended(b: BatchHeader, es: seq<EntryRow>, e: EntryRow, f: EntryRow)
    requires DistinctBy(EntryId, es) && DenormFindings(b, es) == []
    ensures DenormFindings(b, Map(Amend(e, f), es)) == if e in es then DenormOne(b, f) else []
  {
    hide Map, DenormFindings, DenormOne;
    if es == [] {
      assert Map(Amend(e, f), es) == [];
      DenormNone(b);
    } else {
      var n := |es| - 1;
      var pre, after := es[..n], Map(Amend(e, f), es[..n]);
      assert es == pre + [es[n]];
      assert Map(Amend(e, f), es) == after + [Amend(e, f)(es[n])];
      DenormSnoc(b, pre, es[n]);
      DenormSnoc(b, after, Amend(e, f)(es[n]));
      DenormAmended(b, pre, e, f);
      NotBefore(es, n);
      assert [] + DenormOne(b, f) == DenormOne(b, f) && DenormOne(b, f) + [] == DenormOne(b, f);
    }
  }

  lemma NotBefore(es: seq<EntryRow>, n: nat)
    requires n < |es| && DistinctBy(EntryId, es)
    ensures es[n] !in es[..n]
  {
    forall i | 0 <= i < n ensures es[..n][i] != es[n] { assert EntryId(es[i]) != EntryId(es[n]); }
  }

  lemma BatchAmended(d: Digest, item: Item, prev: Bytes, want: int, e: EntryRow, f: EntryRow)
    requires e in item.entries && DistinctBy(EntryId, item.entries) && BatchFindings(d, item, prev, want) == []
    requires Link(d, item.batch.prevHash, item.batch.head, Map(Amend(e, f), item.entries)) != item.batch.hash
    ensures var b, es := item.batch.head, Map(Amend(e, f), item.entries);
            var at := Finding(BatchHashMismatch, b.pool, b.seqNo, b.id, "", "");
            BatchFindings(d, AmendItem(e, f, item), prev, want)
              == [at] + One(!NetIs(es, b.netAmount), at.(kind := NetAmountMismatch)) + DenormOne(b, f)
  {
    hide Link, DenormFindings, DenormOne, NetIs, Map;
    DenormAmended(item.batch.head, item.entries, e, f);
  }

  lemma AmendedAt(d: Digest, items: seq<Item>, i: nat, e: EntryRow, f: EntryRow, j: nat)
    requires i < |items| && e in items[i].entries && DistinctBy(EntryId, items[i].entries) && j < |items|
    requires forall k :: 0 <= k < |items| && k != i ==> AmendItem(e, f, items[k]) == items[k]
    requires Walk(d, items) == []
    requires var b := items[i].batch; Link(d, b.prevHash, b.head, Map(Amend(e, f), items[i].entries)) != b.hash
    ensures var b, es := items[i].batch.head, Map(Amend(e, f), items[i].entries);
            var at := Finding(BatchHashMismatch, b.pool, b.seqNo, b.id, "", "");
            Damage.At(d, AmendItems(e, f, items), j) ==
              if j != i then [] else [at] + One(!NetIs(es, b.netAmount), at.(kind := NetAmountMismatch)) + DenormOne(b, f)
  {
    hide Link, Walk, BatchFindings, DenormOne, NetIs, Map;
    var after := AmendItems(e, f, items);
    CleanAt(d, items, j);
    assert after[j] == AmendItem(e, f, items[j]);
    assert HashBefore(after, j) == HashBefore(items, j) && SeqWanted(after, j) == SeqWanted(items, j);
    if j == i { BatchAmended(d, items[i], HashBefore(items, i), SeqWanted(items, i), e, f); }
  }

  // ---- the cache ----

  /** The fold of a key that is neither the entry's old one nor its new one. */
  lemma {:induction false} FoldElsewhere(es: seq<EntryRow>, e: EntryRow, f: EntryRow, k: SnapKey)
    requires k != MoveOf(e).key && k != MoveOf(f).key
    ensures var one, two := Fold(es), Fold(Map(Amend(e, f), es));
            (k in two <==> k in one) && (k in one ==> two[k] == one[k])
  {
    hide Map, AccStep;
    if es == [] {
      assert Map(Amend(e, f), es) == [];
    } else {
      var n := |es| - 1;
      assert Map(Amend(e, f), es)[..n] == Map(Amend(e, f), es[..n]);
      FoldElsewhere(es[..n], e, f, k);
    }
  }

  ghost predicate About(x: Finding, keys: set<SnapKey>) { SnapKey(x.account, x.balanceKind) in keys }

  lemma {:induction false} CachedAbout(pool: string, ks: seq<SnapKey>, cache: map<SnapKey, Snap>, fold: map<SnapKey, Acc>, keys: set<SnapKey>)
    requires forall k :: k in ks ==> k in cache
    requires forall k :: k in ks && k !in keys ==> SnapFindings(pool, k, cache[k], fold) == []
    ensures forall x :: x in CachedFindings(pool, ks, cache, fold) ==> About(x, keys)
  {
    if ks != [] {
      var n := |ks| - 1;
      assert ks == ks[..n] + [ks[n]];
      CachedAbout(pool, ks[..n], cache, fold, keys);
      SnapAbout(pool, ks[n], cache[ks[n]], fold);
    }
  }

  lemma SnapAbout(pool: string, k: SnapKey, row: Snap, fold: map<SnapKey, Acc>)
    ensures forall x :: x in SnapFindings(pool, k, row, fold) ==> About(x, {k})
  {}

  lemma {:induction false} MissingAbout(pool: string, ks: seq<SnapKey>, fold: map<SnapKey, Acc>, keys: set<SnapKey>)
    requires forall k :: k in ks ==> k in fold && k in keys
    ensures forall x :: x in MissingFindings(pool, ks, fold) ==> About(x, keys)
  {
    if ks != [] {
      var n := |ks| - 1;
      assert ks == ks[..n] + [ks[n]];
      MissingAbout(pool, ks[..n], fold, keys);
    }
  }

  /** A row of a clean cache, against another fold that agrees with the clean one on its key. */
  lemma SnapElsewhere(pool: string, k: SnapKey, row: Snap, one: map<SnapKey, Acc>, two: map<SnapKey, Acc>)
    requires (k in two <==> k in one) && (k in one ==> two[k] == one[k])
    ensures SnapFindings(pool, k, row, two) == SnapFindings(pool, k, row, one)
  {}

  /** Only the old key and the new one can have findings about the cache. */
  lemma CacheElsewhere(pool: string, cache: map<SnapKey, Snap>, es: seq<EntryRow>, e: EntryRow, f: EntryRow)
    requires CacheFindings(pool, cache, Fold(es)) == []
    ensures forall x :: x in CacheFindings(pool, cache, Fold(Map(Amend(e, f), es))) ==> About(x, {MoveOf(e).key, MoveOf(f).key})
  {
    hide Fold, SnapFindings, KeySeq, CachedFindings, MissingFindings, About, Map, Listed;
    var one, two, rows := Fold(es), Fold(Map(Amend(e, f), es)), Listed(cache);
    var keys := {MoveOf(e).key, MoveOf(f).key};
    ListedKeys(cache);
    KeySeqMembers(rows.Keys);
    KeySeqMembers(two.Keys - rows.Keys);
    MissingClean(pool, one.Keys - rows.Keys, one);
    CachedClean(pool, KeySeq(rows.Keys), cache, one);
    forall k | k !in keys
      ensures (k in two <==> k in one) && (k in rows.Keys ==> SnapFindings(pool, k, cache[k], two) == SnapFindings(pool, k, cache[k], one))
    {
      FoldElsewhere(es, e, f, k);
      if k in rows.Keys { SnapElsewhere(pool, k, cache[k], one, two); }
    }
    assert forall k :: k in one ==> k in rows.Keys by {
      forall k | k in one ensures k in rows.Keys { assert k !in one.Keys - rows.Keys; }
    }
    CachedAbout(pool, KeySeq(rows.Keys), cache, two, keys);
    MissingAbout(pool, KeySeq(two.Keys - rows.Keys), two, keys);
  }

  lemma ListedKeys(cache: map<SnapKey, Snap>)
    ensures forall k :: k in Listed(cache) ==> k in cache
  {}

  // ---- one pool ----

  lemma OtherPoolsClean(d: Digest, db: Db, b: BatchRow, e: EntryRow, f: EntryRow)
    requires Clean(d, db) && SameSlot(e, f) && KeysOk(db) && b in db.batches && e.batch == b.head.id
    ensures forall p :: p in db.pools && p != b.head.pool ==> PoolFindings(d, Amended(db, e, f), p) == []
  {
    hide Replay, Walk, HeadFindings, CacheFindings, Fold, Flat, AuditFindings;
    CleanIff(d, db);
    forall p | p in db.pools && p != b.head.pool ensures PoolFindings(d, Amended(db, e, f), p) == [] {
      OtherPoolSame(db, b, e, f, p);
    }
  }

  /** What the replay of the amended ledger finds along the walk. */
  lemma WalkAmended(d: Digest, db: Db, b: BatchRow, e: EntryRow, f: EntryRow)
    requires Clean(d, db) && Schema(db) && DistinctBy(EntryId, db.entries)
    requires b in db.batches && b.head.seqNo > 0 && e in db.entries && e.batch == b.head.id && SameSlot(e, f)
    requires Link(d, b.prevHash, b.head, EntriesById(Amended(db, e, f).entries, b.head.id))
          != Link(d, b.prevHash, b.head, EntriesById(db.entries, b.head.id))
    ensures var es, at := EntriesById(Amended(db, e, f).entries, b.head.id), Finding(BatchHashMismatch, b.head.pool, b.head.seqNo, b.head.id, "", "");
            Walk(d, AmendItems(e, f, Replay(db, b.head.pool))) ==
              [at] + One(!NetIs(es, b.head.netAmount), at.(kind := NetAmountMismatch))
                   + DenormOne(b.head, f)
  {
    hide Replay, Walk, CacheFindings, Fold, Flat, Link, Damage.At, Clean, EntriesById, NetIs, AmendItem, Map;
    var pool := b.head.pool;
    var items := Replay(db, pool);
    var i := WalkedAt(db, b);
    CleanWalk(d, db, pool);
    EntriesAt(db, pool, i);
    EntriesByIdAmended(db.entries, e, f, b.head.id);
    StoredHash(d, items, i);
    EntriesOfItem(db, pool, i, e);
    DistinctInBatch(db.entries, b.head.id);
    forall k | 0 <= k < |items| && k != i ensures AmendItem(e, f, items[k]) == items[k] { OtherItem(db, b, e, f, pool, k); }
    var after := AmendItems(e, f, items);
    forall j | 0 <= j < |items| && j != i ensures Damage.At(d, after, j) == [] { AmendedAt(d, items, i, e, f, j); }
    AmendedAt(d, items, i, e, f, i);
    WalkOfTwo(d, after, i);
  }

  lemma {:induction false} DistinctOf(es: seq<EntryRow>, batch: string)
    requires DistinctBy(EntryId, es)
    ensures DistinctBy(EntryId, EntriesOf(es, batch))
  {
    EntriesOfIsFilter(es, batch);
    FilterDistinct(EntryId, (e: EntryRow) => e.batch == batch, es);
  }

  lemma DistinctInBatch(es: seq<EntryRow>, batch: string)
    requires DistinctBy(EntryId, es)
    ensures DistinctBy(EntryId, EntriesById(es, batch))
  {
    hide Sort, EntriesOf;
    DistinctOf(es, batch);
    SortKeeps(EntryIdLe, EntriesOf(es, batch));
    DistinctPermutes(EntryId, EntriesById(es, batch), EntriesOf(es, batch));
  }

  /**
   * In a clean ledger, rewriting columns of one walked entry is reported at its batch, by the hash
   * and by the net amount and the denormalised columns if they no longer agree, and at the cached
   * balances of its old key and its new key, and nowhere else. It needs only that the two contents
   * of the one batch do not hash alike.
   */
  lemma AmendIsLocal(d: Digest, db: Db, b: BatchRow, e: EntryRow, f: EntryRow)
    requires Clean(d, db) && Schema(db) && NoDuplicates(db.pools) && DistinctBy(EntryId, db.entries)
    requires b in db.batches && b.head.seqNo > 0 && e in db.entries && e.batch == b.head.id && SameSlot(e, f)
    requires Link(d, b.prevHash, b.head, EntriesById(Amended(db, e, f).entries, b.head.id))
          != Link(d, b.prevHash, b.head, EntriesById(db.entries, b.head.id))
    ensures var es, at := EntriesById(Amended(db, e, f).entries, b.head.id), Finding(BatchHashMismatch, b.head.pool, b.head.seqNo, b.head.id, "", "");
            var cached := CacheFindings(b.head.pool, CacheOf(db, b.head.pool), Fold(Flat(Replay(Amended(db, e, f), b.head.pool))));
            && AllFindings(d, Amended(db, e, f)) ==
                 [at] + One(!NetIs(es, b.head.netAmount), at.(kind := NetAmountMismatch))
                      + DenormOne(b.head, f)
                      + cached
            && forall x :: x in cached ==> About(x, {MoveOf(e).key, MoveOf(f).key})
  {
    hide Replay, Walk, CacheFindings, Fold, Flat, Link, Clean, AllFindings, EntriesById, NetIs, AmendItem, AmendItems, About, Map;
    var pool, after := b.head.pool, Amended(db, e, f);
    var items := Replay(db, pool);
    CleanWalk(d, db, pool);
    OtherPoolsClean(d, db, b, e, f);
    OnlyOnePool(d, db, after, pool);
    ReplayAmended(db, e, f, pool);
    WalkAmended(d, db, b, e, f);
    FlatAmended(e, f, items);
    CacheElsewhere(pool, CacheOf(db, pool), Flat(items), e, f);
    SameHead(e, f, items);
    var walk := Walk(d, AmendItems(e, f, items));
    assert walk + [] == walk;
  }

  lemma SameHead(e: EntryRow, f: EntryRow, items: seq<Item>)
    ensures var after := AmendItems(e, f, items);
            |after| == |items| && HashBefore(after, |items|) == HashBefore(items, |items|)
  {}

  // ---- an amount ----

  /** Another amount of one entry moves every sum it is part of the same way. */
  lemma {:induction false} SumsMove(es: seq<EntryRow>, e: EntryRow, amount: int64, k: SnapKey)
    requires e in es ==> k == MoveOf(e).key
    ensures var after := Map(Amend(e, e.(amount := amount)), es);
            && |Amounts(Moves(after), k)| == |Amounts(Moves(es), k)| && LastSeq(after, k) == LastSeq(es, k)
            && Shifts(Net(Moves(es), k), Net(Moves(after), k), e.amount, amount, e in es)
            && Shifts(Sum(AllAmounts(Moves(es))), Sum(AllAmounts(Moves(after))), e.amount, amount, e in es)
  {
    hide Map, Moves, Group, Sum, AllAmounts;
    var g := Amend(e, e.(amount := amount));
    if es == [] {
      assert Map(g, es) == [];
    } else {
      var n := |es| - 1;
      var pre, after := es[..n], Map(g, es[..n]);
      assert es == pre + [es[n]] && Map(g, es) == after + [g(es[n])];
      SumsMove(pre, e, amount, k);
      SumsSnoc(pre, es[n], k);
      SumsSnoc(after, g(es[n]), k);
      assert MoveOf(g(es[n])).key == MoveOf(es[n]).key;
    }
  }

  predicate Shifts(was: int, now: int, from: int, to: int, moved: bool) {
    && (to > from ==> now >= was) && (to < from ==> now <= was) && (to == from ==> now == was)
    && (moved && to != from ==> now != was)
  }

  lemma SumsSnoc(es: seq<EntryRow>, e: EntryRow, k: SnapKey)
    ensures var key := MoveOf(e).key == k;
            && |Amounts(Moves(es + [e]), k)| == |Amounts(Moves(es), k)| + (if key then 1 else 0)
            && Net(Moves(es + [e]), k) == Net(Moves(es), k) + (if key then e.amount else 0)
            && Sum(AllAmounts(Moves(es + [e]))) == Sum(AllAmounts(Moves(es))) + e.amount
            && LastSeq(es + [e], k) == if key && e.seqNo > LastSeq(es, k) then e.seqNo else LastSeq(es, k)
  {
    hide Moves, Group, Sum, LastSeq;
    MovesSnoc(es, e);
    LastSeqSnoc(es, e, k);
    GroupSnoc(ByKey, Moves(es), MoveOf(e), k);
    var xs := Amounts(Moves(es), k);
    assert xs + [] == xs;
    SumSnoc(xs, e.amount);
    assert AllAmounts(Moves(es) + [MoveOf(e)]) == AllAmounts(Moves(es)) + [e.amount];
    SumSnoc(AllAmounts(Moves(es)), e.amount);
  }

  /** The one finding about the cache: the row of the entry's key. */
  ghost function KeyFinding(pool: string, es: seq<EntryRow>, k: SnapKey): Finding {
    Finding(if PrefixesFit(Amounts(Moves(es), k)) then SnapshotAmountMismatch else BalanceOverflow,
            pool, LastSeq(es, k), "", k.account, k.kind)
  }

  lemma SnapAmended(pool: string, row: Snap, es: seq<EntryRow>, e: EntryRow, amount: int64)
    requires e in es && amount != e.amount && RowMirrors(row, es, MoveOf(e).key)
    ensures var after, k := Map(Amend(e, e.(amount := amount)), es), MoveOf(e).key;
            SnapFindings(pool, k, row, Fold(after)) == [KeyFinding(pool, after, k)]
  {
    hide Fold, Moves, Group, Net, LastSeq, Map, PrefixesFit, Amend;
    var after, k := Map(Amend(e, e.(amount := amount)), es), MoveOf(e).key;
    SumsMove(es, e, amount, k);
    FoldAt(after, k);
    StaysAKey(es, e, amount);
  }

  lemma StaysAKey(es: seq<EntryRow>, e: EntryRow, amount: int64)
    ensures Fold(Map(Amend(e, e.(amount := amount)), es)).Keys == Fold(es).Keys
    ensures e in es ==> MoveOf(e).key in Fold(es)
  {
    hide Fold, Keys, Map;
    var after := Map(Amend(e, e.(amount := amount)), es);
    FoldKeys(es);
    FoldKeys(after);
    KeyIn(es);
    assert Moves(after) == Map((m: EntryRow) => MoveOf(Amend(e, e.(amount := amount))(m)), es);
    SameKeysOf(Moves(es), Moves(after));
  }

  lemma KeyIn(es: seq<EntryRow>)
    ensures forall e :: e in es ==> MoveOf(e).key in Keys(Moves(es))
  {
    forall e | e in es ensures MoveOf(e).key in Keys(Moves(es)) {
      var i :| 0 <= i < |es| && es[i] == e;
      assert Moves(es)[i] in Moves(es);
    }
  }

  lemma SameKeysOf(ms: seq<Move>, ns: seq<Move>)
    requires |ms| == |ns| && forall i :: 0 <= i < |ms| ==> ms[i].key == ns[i].key
    ensures Keys(ms) == Keys(ns)
  {
    forall k ensures k in Keys(ms) <==> k in Keys(ns) {
      if k in Keys(ms) {
        var m :| m in ms && m.key == k;
        var i :| 0 <= i < |ms| && ms[i] == m;
        assert ns[i] in ns;
      }
      if k in Keys(ns) {
        var m :| m in ns && m.key == k;
        var i :| 0 <= i < |ns| && ns[i] == m;
        assert ms[i] in ms;
      }
    }
  }

  lemma {:induction false} OnlyKey(pool: string, ks: seq<SnapKey>, cache: map<SnapKey, Snap>, fold: map<SnapKey, Acc>, key: SnapKey)
    requires key in cache && Strict(KeyLe, ks) && (forall k :: k in ks ==> k in cache)
    requires forall k :: k in ks && k != key ==> SnapFindings(pool, k, cache[k], fold) == []
    ensures CachedFindings(pool, ks, cache, fold) == if key in ks then SnapFindings(pool, key, cache[key], fold) else []
  {
    hide SnapFindings, KeyLe, Strict;
    if ks != [] {
      var n := |ks| - 1;
      assert ks == ks[..n] + [ks[n]];
      StrictFront(ks);
      OnlyKey(pool, ks[..n], cache, fold, key);
      var found := SnapFindings(pool, key, cache[key], fold);
      assert [] + found == found && found + [] == found;
    }
  }

  lemma StrictFront(ks: seq<SnapKey>)
    requires Strict(KeyLe, ks) && ks != []
    ensures Strict(KeyLe, ks[..|ks| - 1]) && ks[|ks| - 1] !in ks[..|ks| - 1]
  {
    hide KeyLe;
    var n := |ks| - 1;
    forall i | 0 <= i < n ensures ks[..n][i] != ks[n] { assert KeyLe(ks[i], ks[n]) && !KeyLe(ks[n], ks[i]); }
  }

  /** The rows of a clean cache. */
  lemma CleanRows(pool: string, cache: map<SnapKey, Snap>, es: seq<EntryRow>)
    requires CacheFindings(pool, cache, Fold(es)) == []
    ensures Listed(cache).Keys == Fold(es).Keys
    ensures forall k :: k in Listed(cache) ==>
      k in cache && SnapFindings(pool, k, cache[k], Fold(es)) == [] && RowMirrors(cache[k], es, k)
  {
    hide Fold, Moves, Keys, SnapFindings, KeySeq, RowMirrors;
    CacheClean(pool, cache, es);
    FoldKeys(es);
    KeySeqMembers(Listed(cache).Keys);
    CachedClean(pool, KeySeq(Listed(cache).Keys), cache, Fold(es));
  }

  lemma CacheAmended(pool: string, cache: map<SnapKey, Snap>, es: seq<EntryRow>, e: EntryRow, amount: int64)
    requires CacheFindings(pool, cache, Fold(es)) == [] && e in es && amount != e.amount
    ensures var after := Map(Amend(e, e.(amount := amount)), es);
            CacheFindings(pool, cache, Fold(after)) == [KeyFinding(pool, after, MoveOf(e).key)]
  {
    hide Fold, Moves, Keys, SnapFindings, KeySeq, CachedFindings, MissingFindings, Map, Listed, KeyFinding, RowMirrors, Amend, Strict, KeyLe;
    var f := e.(amount := amount);
    var after, rows, k := Map(Amend(e, f), es), Listed(cache), MoveOf(e).key;
    var one, two := Fold(es), Fold(after);
    CleanRows(pool, cache, es);
    StaysAKey(es, e, amount);
    KeySeqMembers(rows.Keys);
    forall j | j in rows.Keys && j != k ensures SnapFindings(pool, j, cache[j], two) == [] {
      FoldElsewhere(es, e, f, j);
      SnapElsewhere(pool, j, cache[j], one, two);
    }
    SnapAmended(pool, cache[k], es, e, amount);
    OnlyKey(pool, KeySeq(rows.Keys), cache, two, k);
    MissingClean(pool, two.Keys - rows.Keys, two);
    assert [KeyFinding(pool, after, k)] + [] == [KeyFinding(pool, after, k)];
  }

  /**
   * In a clean ledger, rewriting the amount of one walked entry gives exactly three findings: its
   * batch's hash, its batch's net amount, and the cached balance of its key, which no longer is the
   * sum or whose sum no longer fits in 64 bits.
   */
  lemma AmountIsThreeFindings(d: Digest, db: Db, b: BatchRow, e: EntryRow, amount: int64)
    requires Clean(d, db) && Schema(db) && NoDuplicates(db.pools) && DistinctBy(EntryId, db.entries)
    requires b in db.batches && b.head.seqNo > 0 && e in db.entries && e.batch == b.head.id && amount != e.amount
    requires Link(d, b.prevHash, b.head, EntriesById(Amended(db, e, e.(amount := amount)).entries, b.head.id))
          != Link(d, b.prevHash, b.head, EntriesById(db.entries, b.head.id))
    ensures var after, at := Amended(db, e, e.(amount := amount)), Finding(BatchHashMismatch, b.head.pool, b.head.seqNo, b.head.id, "", "");
            AllFindings(d, after) ==
              [at, at.(kind := NetAmountMismatch), KeyFinding(b.head.pool, Flat(Replay(after, b.head.pool)), MoveOf(e).key)]
  {
    hide Replay, Walk, CacheFindings, Fold, Flat, Link, Clean, AllFindings, EntriesById, NetIs, AmendItems, KeyFinding, Map, Amend;
    var pool, f := b.head.pool, e.(amount := amount);
    var items := Replay(db, pool);
    AmendIsLocal(d, db, b, e, f);
    CleanWalk(d, db, pool);
    ReplayAmended(db, e, f, pool);
    FlatAmended(e, f, items);
    var i := WalkedAt(db, b);
    EntriesOfItem(db, pool, i, e);
    InFlat(items, i, e);
    CacheAmended(pool, CacheOf(db, pool), Flat(items), e, amount);
    AmountBreaksNet(d, db, b, i, e, amount);
    WalkedEntry(d, db, b, e);
  }

  lemma {:induction false} InFlat(items: seq<Item>, i: nat, e: EntryRow)
    requires i < |items| && e in items[i].entries
    ensures e in Flat(items)
  {
    var n := |items| - 1;
    if i < n { InFlat(items[..n], i, e); }
  }

  lemma WalkedEntry(d: Digest, db: Db, b: BatchRow, e: EntryRow)
    requires Clean(d, db) && Schema(db) && b in db.batches && b.head.seqNo > 0 && e in db.entries && e.batch == b.head.id
    ensures e.pool == b.head.pool && e.seqNo == b.head.seqNo
  {
    hide Clean, ChainHolds, PoolHolds, Replay;
    CleanPools(d, db);
    CleanEntry(d, db, b, e);
  }

  lemma AmountBreaksNet(d: Digest, db: Db, b: BatchRow, i: nat, e: EntryRow, amount: int64)
    requires Clean(d, db) && b.head.pool in db.pools && i < |Replay(db, b.head.pool)| && Replay(db, b.head.pool)[i].batch == b
    requires e in Replay(db, b.head.pool)[i].entries && amount != e.amount
    ensures !NetIs(EntriesById(Amended(db, e, e.(amount := amount)).entries, b.head.id), b.head.netAmount)
  {
    hide Replay, Walk, CacheFindings, Fold, Flat, Clean, EntriesById, Moves, AllAmounts, Sum, PrefixesFit, Map, Amend, Link;
    var items := Replay(db, b.head.pool);
    CleanWalk(d, db, b.head.pool);
    WalkClean(d, items);
    assert BatchOk(d, items, i);
    EntriesAt(db, b.head.pool, i);
    EntriesByIdAmended(db.entries, e, e.(amount := amount), b.head.id);
    SumsMove(items[i].entries, e, amount, MoveOf(e).key);
  }
}
