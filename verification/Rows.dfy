/**
 * The ledger's rows and tables (internal/ledger/commit.go, db/schema.hcl).
 *
 * A Go []byte that is nil and one that is empty compare equal with bytes.Equal and feed a hash
 * alike, so both are []. The columns a chain link hashes are kept apart from the two it does not.
 */
module Rows {
  import opened Wrappers
  import opened Int64

  type byte = x: int | 0 <= x < 256

  type Bytes = seq<byte>

  datatype BatchHeader = BatchHeader(
    id: string, pool: string, seqNo: int, kind: string,
    strategyId: string, strategyVersion: string, configSnapshot: string, rngSeed: Option<int>,
    source: string, sourceRef: Option<string>, actorUser: Option<string>, actorToken: Option<string>,
    actorIsBeneficiary: int, reason: string, reverses: Option<string>,
    effectiveAt: int, recordedAt: int, effectiveDay: string, idempotencyKey: Option<string>,
    entryCount: int, netAmount: int)

  datatype BatchRow = BatchRow(head: BatchHeader, prevHash: Bytes, hash: Bytes)

  datatype EntryRow = EntryRow(
    id: string, batch: string, pool: string, seqNo: int, account: string, character: Option<string>,
    kind: string, amount: int64, item: Option<string>, itemAward: Option<string>,
    raid: Option<string>, tick: Option<string>, metadata: string)

  datatype AuditBody = AuditBody(
    id: string, seqNo: int, at: int, actorKind: string, actorLabel: string, action: string,
    resourceKind: string, resourceId: Option<string>, outcome: string, ledgerBatch: Option<string>)

  datatype AuditRow = AuditRow(body: AuditBody, prevHash: Bytes, hash: Bytes)

  datatype OutboxRow = OutboxRow(eventSeq: int, id: string, topic: string, eventType: string, resourceRef: string, createdAt: int)

  /** The key of balance_snapshot within one pool, and of every per-account aggregate. */
  datatype SnapKey = SnapKey(account: string, kind: string)

  datatype Snap = Snap(amount: int64, asOf: int, count: int, updatedAt: int)

  datatype AccountKind = Person | System

  /** The database one statement sees. balance_snapshot is keyed by pool first. */
  datatype Db = Db(
    pools: seq<string>, accounts: map<string, AccountKind>,
    batches: seq<BatchRow>, entries: seq<EntryRow>,
    cache: map<string, map<SnapKey, Snap>>,
    audit: seq<AuditRow>, outbox: seq<OutboxRow>, lastEvent: int, meta: map<string, string>)

  /**
   * The two hash functions of internal/ledger/hashchain.go, as functions of the previous hash and
   * of what is hashed. Module HashChain gives the canonical-JSON instance.
   */
  datatype Digest = Digest(
    link: (Bytes, BatchHeader, seq<EntryRow>) -> Bytes,
    audit: (Bytes, AuditBody) -> Bytes)

  const HASH_LENGTH: int := 32

  /** Both hashes have the length `decodeHead` insists on. */
  ghost predicate Sized(d: Digest) {
    && (forall prev: Bytes, h: BatchHeader, es: seq<EntryRow> :: |d.link(prev, h, es)| == HASH_LENGTH)
    && (forall prev: Bytes, b: AuditBody :: |d.audit(prev, b)| == HASH_LENGTH)
  }

  // ---- amounts by key ----

  /** One account's change in one balance kind: what an entry does to a balance. */
  datatype Move = Move(key: SnapKey, amount: int64)

  function MoveOf(e: EntryRow): Move { Move(SnapKey(e.account, e.kind), e.amount) }

  function Moves(es: seq<EntryRow>): (r: seq<Move>)
    ensures |r| == |es| && forall i :: 0 <= i < |es| ==> r[i] == MoveOf(es[i])
  {
    seq(|es|, i requires 0 <= i < |es| => MoveOf(es[i]))
  }

  lemma MovesSnoc(es: seq<EntryRow>, e: EntryRow)
    ensures Moves(es + [e]) == Moves(es) + [MoveOf(e)]
  {}

  function ByKey(m: Move): SnapKey { m.key }

  function ByKind(m: Move): string { m.key.kind }

  /** The amounts of one group of moves, in order. */
  function Group<K(==)>(grp: Move -> K, ms: seq<Move>, k: K): seq<int> {
    if ms == [] then []
    else
      var n := |ms| - 1;
      Group(grp, ms[..n], k) + if grp(ms[n]) == k then [ms[n].amount] else []
  }

  /** The amounts moved for one key. A balance is their sum. */
  function Amounts(ms: seq<Move>, k: SnapKey): seq<int> { Group(ByKey, ms, k) }

  function Net(ms: seq<Move>, k: SnapKey): int { Sum(Amounts(ms, k)) }

  /** The amounts of one balance kind over all accounts. */
  function KindAmounts(ms: seq<Move>, kind: string): seq<int> { Group(ByKind, ms, kind) }

  function AllAmounts(ms: seq<Move>): seq<int> { Map<Move, int>((m: Move) => m.amount, ms) }

  function Keys(ms: seq<Move>): set<SnapKey> { set m | m in ms :: m.key }

  lemma {:induction false} GroupAppend<K>(grp: Move -> K, a: seq<Move>, b: seq<Move>, k: K)
    ensures Group(grp, a + b, k) == Group(grp, a, k) + Group(grp, b, k)
  {
    if b == [] {
      assert a + b == a;
    } else {
      var n := |b| - 1;
      assert (a + b)[..|a| + n] == a + b[..n];
      GroupAppend(grp, a, b[..n], k);
    }
  }

  lemma {:induction false} GroupOfUntouched<K>(grp: Move -> K, ms: seq<Move>, k: K)
    ensures (forall m :: m in ms ==> grp(m) != k) <==> Group(grp, ms, k) == []
  {
    if ms != [] {
      var n := |ms| - 1;
      GroupOfUntouched(grp, ms[..n], k);
      assert ms == ms[..n] + [ms[n]];
    }
  }

  lemma NetAppend(a: seq<Move>, b: seq<Move>, k: SnapKey)
    ensures Net(a + b, k) == Net(a, k) + Net(b, k)
  {
    GroupAppend(ByKey, a, b, k);
    SumAppend(Amounts(a, k), Amounts(b, k));
  }

  lemma {:induction false} NetIsSumBy(ms: seq<Move>, k: SnapKey)
    ensures Net(ms, k) == SumBy((m: Move) => if m.key == k then m.amount else 0, ms)
    ensures |Amounts(ms, k)| == SumBy((m: Move) => if m.key == k then 1 else 0, ms)
  {
    if ms != [] {
      var n := |ms| - 1;
      assert ms == ms[..n] + [ms[n]];
      NetIsSumBy(ms[..n], k);
      SumBySnoc((m: Move) => if m.key == k then m.amount else 0, ms[..n], ms[n]);
      SumBySnoc((m: Move) => if m.key == k then 1 else 0, ms[..n], ms[n]);
      SumAppend(Amounts(ms[..n], k), if ms[n].key == k then [ms[n].amount] else []);
      assert Sum([ms[n].amount]) == ms[n].amount;
    }
  }

  /** Neither the balance nor the count of a key depends on the order of the entries. */
  lemma NetPermutes(a: seq<EntryRow>, b: seq<EntryRow>, k: SnapKey)
    requires multiset(a) == multiset(b)
    ensures Net(Moves(a), k) == Net(Moves(b), k)
    ensures |Amounts(Moves(a), k)| == |Amounts(Moves(b), k)|
  {
    var f := (m: Move) => if m.key == k then m.amount else 0;
    var g := (m: Move) => if m.key == k then 1 else 0;
    NetIsSumBy(Moves(a), k);
    NetIsSumBy(Moves(b), k);
    SumOverRows(f, a);
    SumOverRows(f, b);
    SumOverRows(g, a);
    SumOverRows(g, b);
    SumByPermutes((e: EntryRow) => f(MoveOf(e)), a, b);
    SumByPermutes((e: EntryRow) => g(MoveOf(e)), a, b);
  }

  lemma SumOverRows(f: Move -> int, es: seq<EntryRow>)
    ensures SumBy(f, Moves(es)) == SumBy((e: EntryRow) => f(MoveOf(e)), es)
  {
    assert Map(f, Moves(es)) == Map((e: EntryRow) => f(MoveOf(e)), es);
  }

  /** The highest seq among the entries of one key, 0 when there are none. */
  function LastSeq(es: seq<EntryRow>, k: SnapKey): int {
    if es == [] then 0
    else
      var n := |es| - 1;
      var before := LastSeq(es[..n], k);
      if MoveOf(es[n]).key == k && es[n].seqNo > before then es[n].seqNo else before
  }

  lemma LastSeqSnoc(es: seq<EntryRow>, e: EntryRow, k: SnapKey)
    ensures LastSeq(es + [e], k) == if MoveOf(e).key == k && e.seqNo > LastSeq(es, k) then e.seqNo else LastSeq(es, k)
  {
    assert (es + [e])[..|es|] == es;
  }

  // ---- running sums per group, as the loops over a batch build them ----

  /** Moves of one group are in scope together. */
  ghost predicate ScopeIsByGroup<K>(grp: Move -> K, scope: Move -> bool) {
    forall a, b :: grp(a) == grp(b) ==> scope(a) == scope(b)
  }

  ghost predicate HasGroup<K(!new)>(grp: Move -> K, scope: Move -> bool, ms: seq<Move>, k: K) {
    exists m :: m in ms && scope(m) && grp(m) == k
  }

  /** `acc` holds the sum of every group in scope, and no running total has overflowed. */
  ghost predicate Sums<K(!new)>(grp: Move -> K, scope: Move -> bool, ms: seq<Move>, acc: map<K, int64>) {
    && (forall k :: k in acc <==> HasGroup(grp, scope, ms, k))
    && forall k :: k in acc ==> PrefixesFit(Group(grp, ms, k)) && acc[k] == Sum(Group(grp, ms, k))
  }

  lemma GroupSnoc<K>(grp: Move -> K, ms: seq<Move>, m: Move, k: K)
    ensures Group(grp, ms + [m], k) == Group(grp, ms, k) + if grp(m) == k then [m.amount] else []
  {
    assert (ms + [m])[..|ms|] == ms;
  }

  lemma GroupSumSnoc<K>(grp: Move -> K, ms: seq<Move>, m: Move)
    ensures Sum(Group(grp, ms + [m], grp(m))) == Sum(Group(grp, ms, grp(m))) + m.amount
  {
    GroupSnoc(grp, ms, m, grp(m));
    SumSnoc(Group(grp, ms, grp(m)), m.amount);
  }

  lemma HasGroupSnoc<K(!new)>(grp: Move -> K, scope: Move -> bool, ms: seq<Move>, m: Move, k: K)
    ensures HasGroup(grp, scope, ms + [m], k) <==> HasGroup(grp, scope, ms, k) || (scope(m) && grp(m) == k)
  {
    assert forall x :: x in ms + [m] <==> x in ms || x == m;
  }

  lemma SumsSkip<K(!new)>(grp: Move -> K, scope: Move -> bool, ms: seq<Move>, acc: map<K, int64>, m: Move)
    requires ScopeIsByGroup(grp, scope) && Sums(grp, scope, ms, acc) && !scope(m)
    ensures Sums(grp, scope, ms + [m], acc)
  {
    forall k ensures k in acc <==> HasGroup(grp, scope, ms + [m], k) { HasGroupSnoc(grp, scope, ms, m, k); }
    forall k | k in acc ensures Group(grp, ms + [m], k) == Group(grp, ms, k) {
      var x :| x in ms && scope(x) && grp(x) == k;
      GroupSnoc(grp, ms, m, k);
    }
  }

  lemma SumsStep<K(!new)>(grp: Move -> K, scope: Move -> bool, ms: seq<Move>, acc: map<K, int64>, m: Move, sum: int64)
    requires Sums(grp, scope, ms, acc) && scope(m)
    requires sum == (if grp(m) in acc then acc[grp(m)] else 0) + m.amount
    requires ScopeIsByGroup(grp, scope)
    ensures Sums(grp, scope, ms + [m], acc[grp(m) := sum])
  {
    var next := acc[grp(m) := sum];
    forall k ensures k in next <==> HasGroup(grp, scope, ms + [m], k) { HasGroupSnoc(grp, scope, ms, m, k); }
    forall k | k in next
      ensures PrefixesFit(Group(grp, ms + [m], k)) && next[k] == Sum(Group(grp, ms + [m], k))
    {
      if k == grp(m) {
        GroupFits(grp, scope, ms, acc, m);
        GroupSumSnoc(grp, ms, m);
      } else {
        assert k in acc;
        GroupSnoc(grp, ms, m, k);
        assert Group(grp, ms + [m], k) == Group(grp, ms, k);
      }
    }
  }

  /** The next running total of a group is in range exactly when the sum of two does not overflow. */
  lemma GroupFits<K(!new)>(grp: Move -> K, scope: Move -> bool, ms: seq<Move>, acc: map<K, int64>, m: Move)
    requires ScopeIsByGroup(grp, scope) && Sums(grp, scope, ms, acc) && scope(m)
    ensures var before := if grp(m) in acc then acc[grp(m)] else 0;
            && before == Sum(Group(grp, ms, grp(m)))
            && (PrefixesFit(Group(grp, ms + [m], grp(m))) <==> InRange(before + m.amount))
  {
    var k := grp(m);
    if k !in acc { NoGroup(grp, scope, ms, m); }
    GroupSnoc(grp, ms, m, k);
    PrefixesFitSnoc(Group(grp, ms, k), m.amount);
  }

  lemma NoGroup<K(!new)>(grp: Move -> K, scope: Move -> bool, ms: seq<Move>, m: Move)
    requires ScopeIsByGroup(grp, scope) && scope(m) && !HasGroup(grp, scope, ms, grp(m))
    ensures Group(grp, ms, grp(m)) == []
  {
    assert forall x :: x in ms && grp(x) == grp(m) ==> scope(x);
    GroupOfUntouched(grp, ms, grp(m));
  }

  /** An overflow among the first moves of a group is an overflow of the group. */
  lemma GroupOverflows<K>(grp: Move -> K, ms: seq<Move>, n: nat, k: K)
    requires n <= |ms| && !PrefixesFit(Group(grp, ms[..n], k))
    ensures !PrefixesFit(Group(grp, ms, k))
  {
    assert ms == ms[..n] + ms[n..];
    GroupAppend(grp, ms[..n], ms[n..], k);
    var whole, part := Group(grp, ms, k), Group(grp, ms[..n], k);
    assert whole[..|part|] == part;
    if PrefixesFit(whole) { PrefixesFitPrefix(whole, |part|); }
  }
}
