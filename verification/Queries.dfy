/** The reads of db/queries/ledger.sql, audit.sql and meta.sql, over the tables as sequences. */
module Queries {
  import opened Wrappers
  import opened Int64
  import opened Ordering
  import opened Rows

  // ---- orders ----

  predicate KeyLe(a: SnapKey, b: SnapKey) {
    StrLt(a.account, b.account) || (a.account == b.account && StrLe(a.kind, b.kind))
  }

  predicate EntryIdLe(a: EntryRow, b: EntryRow) { StrLe(a.id, b.id) }

  predicate BatchSeqLe(a: BatchRow, b: BatchRow) { a.head.seqNo <= b.head.seqNo }

  predicate AuditSeqLe(a: AuditRow, b: AuditRow) { a.body.seqNo <= b.body.seqNo }

  lemma KeyLeIsOrder()
    ensures Total(KeyLe) && Transitive(KeyLe)
    ensures forall a, b :: KeyLe(a, b) && KeyLe(b, a) ==> a == b
  {
    forall a: SnapKey, b: SnapKey
      ensures KeyLe(a, b) || KeyLe(b, a)
      ensures KeyLe(a, b) && KeyLe(b, a) ==> a == b
    {
      StrLeTotal(a.account, b.account);
      StrLeTotal(a.kind, b.kind);
      if StrLe(a.account, b.account) && StrLe(b.account, a.account) { StrLeAntisymmetric(a.account, b.account); }
      if StrLe(a.kind, b.kind) && StrLe(b.kind, a.kind) { StrLeAntisymmetric(a.kind, b.kind); }
    }
    forall a: SnapKey, b: SnapKey, c: SnapKey
      ensures KeyLe(a, b) && KeyLe(b, c) ==> KeyLe(a, c)
    {
      if StrLe(a.account, b.account) && StrLe(b.account, c.account) {
        StrLeTransitive(a.account, b.account, c.account);
        if a.account == c.account { StrLeAntisymmetric(a.account, b.account); }
      }
      if StrLe(a.kind, b.kind) && StrLe(b.kind, c.kind) { StrLeTransitive(a.kind, b.kind, c.kind); }
    }
  }

  lemma EntryIdLeIsOrder()
    ensures Total(EntryIdLe) && Transitive(EntryIdLe)
  {
    forall a: EntryRow, b: EntryRow ensures EntryIdLe(a, b) || EntryIdLe(b, a) { StrLeTotal(a.id, b.id); }
    forall a: EntryRow, b: EntryRow, c: EntryRow
      ensures EntryIdLe(a, b) && EntryIdLe(b, c) ==> EntryIdLe(a, c)
    {
      if EntryIdLe(a, b) && EntryIdLe(b, c) { StrLeTransitive(a.id, b.id, c.id); }
    }
  }

  /** The keys of a set in the order the Go code sorts them and SQLite lists them. */
  ghost function AnyOrder(s: set<SnapKey>): seq<SnapKey> {
    if s == {} then [] else var k :| k in s; [k] + AnyOrder(s - {k})
  }

  ghost function KeySeq(s: set<SnapKey>): seq<SnapKey> { Sort(KeyLe, AnyOrder(s)) }

  lemma {:induction false} AnyOrderMembers(s: set<SnapKey>)
    ensures forall k :: k in AnyOrder(s) <==> k in s
    ensures DistinctBy((k: SnapKey) => k, AnyOrder(s))
  {
    if s != {} {
      var k :| k in s && AnyOrder(s) == [k] + AnyOrder(s - {k});
      AnyOrderMembers(s - {k});
      assert forall i :: 0 <= i < |AnyOrder(s - {k})| ==> AnyOrder(s - {k})[i] in s - {k};
    }
  }

  lemma KeySeqMembers(s: set<SnapKey>)
    ensures forall k :: k in KeySeq(s) <==> k in s
    ensures Strict(KeyLe, KeySeq(s))
  {
    AnyOrderMembers(s);
    SortMembers(KeyLe, AnyOrder(s));
    SortKeeps(KeyLe, AnyOrder(s));
    KeyLeIsOrder();
    SortSorts(KeyLe, AnyOrder(s));
    DistinctPermutes((k: SnapKey) => k, KeySeq(s), AnyOrder(s));
  }

  /** The listing of a set of keys: each once, by account and then by kind. */
  lemma KeySeqAscends(s: set<SnapKey>)
    ensures forall k :: k in KeySeq(s) <==> k in s
    ensures forall i, j :: 0 <= i < j < |KeySeq(s)| ==>
      var a, b := KeySeq(s)[i], KeySeq(s)[j];
      StrLt(a.account, b.account) || (a.account == b.account && StrLt(a.kind, b.kind))
  {
    hide KeySeq;
    KeySeqMembers(s);
    forall a: SnapKey, b: SnapKey | KeyLe(a, b) && !KeyLe(b, a)
      ensures StrLt(a.account, b.account) || (a.account == b.account && StrLt(a.kind, b.kind))
    {
      StrLeReflexive(a.kind);
    }
  }

  /** A strictly ordered listing of a set is its only one. */
  lemma KeySeqUnique(s: set<SnapKey>, r: seq<SnapKey>)
    requires Strict(KeyLe, r) && forall k :: k in r <==> k in s
    ensures r == KeySeq(s)
  {
    KeySeqMembers(s);
    StrictUnique(KeyLe, r, KeySeq(s));
  }

  /** Collect the keys of a Go map, in whatever order it yields them, and sort them. */
  method SortedKeys(s: set<SnapKey>) returns (r: seq<SnapKey>)
    ensures r == KeySeq(s)
  {
    var todo := s;
    var keys: seq<SnapKey> := [];
    while todo != {}
      invariant todo <= s
      invariant forall k :: k in keys <==> k in s - todo
      invariant DistinctBy((k: SnapKey) => k, keys)
      decreases todo
    {
      var k :| k in todo;
      assert forall i :: 0 <= i < |keys| ==> keys[i] in s - todo;
      keys := keys + [k];
      todo := todo - {k};
    }
    r := Sort(KeyLe, keys);
    SortMembers(KeyLe, keys);
    SortKeeps(KeyLe, keys);
    KeyLeIsOrder();
    SortSorts(KeyLe, keys);
    DistinctPermutes((k: SnapKey) => k, r, keys);
    KeySeqUnique(s, r);
  }

  // ---- batches and their entries ----

  /** A batch with the entries that carry its id. */
  datatype Item = Item(batch: BatchRow, entries: seq<EntryRow>)

  function PoolBatches(bs: seq<BatchRow>, pool: string): seq<BatchRow> {
    if bs == [] then []
    else
      var n := |bs| - 1;
      PoolBatches(bs[..n], pool) + if bs[n].head.pool == pool then [bs[n]] else []
  }

  function EntriesOf(es: seq<EntryRow>, batch: string): seq<EntryRow> {
    if es == [] then []
    else
      var n := |es| - 1;
      EntriesOf(es[..n], batch) + if es[n].batch == batch then [es[n]] else []
  }

  function Items(bs: seq<BatchRow>, es: seq<EntryRow>): (r: seq<Item>)
    ensures |r| == |bs|
    ensures forall i :: 0 <= i < |bs| ==> r[i] == Item(bs[i], EntriesOf(es, bs[i].head.id))
  {
    seq(|bs|, i requires 0 <= i < |bs| => Item(bs[i], EntriesOf(es, bs[i].head.id)))
  }

  /** A pool's batches in the order they were committed. */
  function Log(db: Db, pool: string): seq<Item> { Items(PoolBatches(db.batches, pool), db.entries) }

  function Flat(log: seq<Item>): seq<EntryRow> {
    if log == [] then [] else Flat(log[..|log| - 1]) + log[|log| - 1].entries
  }

  function MaxSeq(bs: seq<BatchRow>): int {
    if bs == [] then 0
    else
      var n := |bs| - 1;
      if n == 0 || bs[n].head.seqNo > MaxSeq(bs[..n]) then bs[n].head.seqNo else MaxSeq(bs[..n])
  }

  /** `COALESCE(max(seq), 0) + 1`. */
  function NextPoolSeq(db: Db, pool: string): int { MaxSeq(PoolBatches(db.batches, pool)) + 1 }

  function FindBatch(bs: seq<BatchRow>, id: string): Option<BatchRow> {
    if bs == [] then None
    else
      var n := |bs| - 1;
      if bs[n].head.id == id then Some(bs[n]) else FindBatch(bs[..n], id)
  }

  function FindByIdempotencyKey(bs: seq<BatchRow>, pool: string, key: string): Option<BatchRow> {
    if bs == [] then None
    else
      var n := |bs| - 1;
      if bs[n].head.pool == pool && bs[n].head.idempotencyKey == Some(key) then Some(bs[n])
      else FindByIdempotencyKey(bs[..n], pool, key)
  }

  function MaxAuditSeq(rows: seq<AuditRow>): int {
    if rows == [] then 0
    else
      var n := |rows| - 1;
      if n == 0 || rows[n].body.seqNo > MaxAuditSeq(rows[..n]) then rows[n].body.seqNo else MaxAuditSeq(rows[..n])
  }

  function CacheOf(db: Db, pool: string): map<SnapKey, Snap> {
    if pool in db.cache then db.cache[pool] else map[]
  }

  /** The entries a balance in `pool` as of `asOf` is a sum over. */
  function Upto(es: seq<EntryRow>, pool: string, asOf: int): seq<EntryRow> {
    if es == [] then []
    else
      var n := |es| - 1;
      Upto(es[..n], pool, asOf) + if es[n].pool == pool && es[n].seqNo <= asOf then [es[n]] else []
  }

  /** BalanceAsOfSeq: the sum over the log of one account and kind, by seq and never by time. */
  function Balance(es: seq<EntryRow>, pool: string, k: SnapKey, asOf: int): int {
    Net(Moves(Upto(es, pool, asOf)), k)
  }

  // ---- appending ----

  lemma {:induction false} PoolBatchesSnoc(bs: seq<BatchRow>, b: BatchRow, pool: string)
    ensures PoolBatches(bs + [b], pool) == PoolBatches(bs, pool) + if b.head.pool == pool then [b] else []
  {
    assert (bs + [b])[..|bs|] == bs;
  }

  lemma {:induction false} EntriesOfAppend(es: seq<EntryRow>, rows: seq<EntryRow>, batch: string)
    ensures EntriesOf(es + rows, batch) == EntriesOf(es, batch) + EntriesOf(rows, batch)
  {
    if rows == [] {
      assert es + rows == es;
    } else {
      var n := |rows| - 1;
      assert (es + rows)[..|es| + n] == es + rows[..n];
      EntriesOfAppend(es, rows[..n], batch);
    }
  }

  lemma {:induction false} EntriesOfSame(rows: seq<EntryRow>, batch: string, id: string)
    requires forall e :: e in rows ==> e.batch == id
    ensures EntriesOf(rows, batch) == if batch == id then rows else []
  {
    if rows != [] {
      var n := |rows| - 1;
      assert rows == rows[..n] + [rows[n]];
      EntriesOfSame(rows[..n], batch, id);
    }
  }

  lemma {:induction false} UptoAppend(es: seq<EntryRow>, rows: seq<EntryRow>, pool: string, asOf: int)
    ensures Upto(es + rows, pool, asOf) == Upto(es, pool, asOf) + Upto(rows, pool, asOf)
  {
    if rows == [] {
      assert es + rows == es;
    } else {
      var n := |rows| - 1;
      assert (es + rows)[..|es| + n] == es + rows[..n];
      UptoAppend(es, rows[..n], pool, asOf);
    }
  }

  lemma {:induction false} EntriesOfMembers(es: seq<EntryRow>, batch: string)
    ensures forall e :: e in EntriesOf(es, batch) <==> e in es && e.batch == batch
  {
    if es != [] {
      var n := |es| - 1;
      assert es == es[..n] + [es[n]];
      EntriesOfMembers(es[..n], batch);
    }
  }

  lemma {:induction false} PoolBatchesMembers(bs: seq<BatchRow>, pool: string)
    ensures forall b :: b in PoolBatches(bs, pool) <==> b in bs && b.head.pool == pool
  {
    if bs != [] {
      var n := |bs| - 1;
      assert bs == bs[..n] + [bs[n]];
      PoolBatchesMembers(bs[..n], pool);
    }
  }

  lemma FlatSnoc(log: seq<Item>, item: Item)
    ensures Flat(log + [item]) == Flat(log) + item.entries
  {
    assert (log + [item])[..|log|] == log;
  }
}
