/**
 * What the replay's accumulators owe to the order of the entries (internal/ledger/verify.go:361-368).
 *
 * Keys, counts and last seqs owe nothing to it. The sum and the overflow flag owe nothing to it as
 * long as no order overflows, which is a condition on the amounts of each sign.
 */
module FoldOrder {
  import opened Wrappers
  import opened Int64
  import opened Ordering
  import opened Rows
  import opened VerifySpec
  import opened Attestation
  import opened LedgerInvariant
  import opened Runs
  import opened Soundness

  /** What one entry adds to the balance of a key. */
  function Part(k: SnapKey, e: EntryRow): int { if MoveOf(e).key == k then e.amount else 0 }

  function Up(k: SnapKey, e: EntryRow): int { if Part(k, e) > 0 then Part(k, e) else 0 }

  function Down(k: SnapKey, e: EntryRow): int { if Part(k, e) < 0 then Part(k, e) else 0 }

  /** The positive amounts of a key, and the negative ones, added up. */
  ghost function Rise(es: seq<EntryRow>, k: SnapKey): int { SumBy((e: EntryRow) => Up(k, e), es) }

  ghost function Fall(es: seq<EntryRow>, k: SnapKey): int { SumBy((e: EntryRow) => Down(k, e), es) }

  /** No running total of the key overflows in this order. */
  ghost predicate Fits(es: seq<EntryRow>, k: SnapKey) { PrefixesFit(Amounts(Moves(es), k)) }

  // ---- two orders ----

  lemma FoldsAgree(a: seq<EntryRow>, b: seq<EntryRow>, k: SnapKey)
    requires multiset(a) == multiset(b)
    ensures var x, y := At(Fold(a), k), At(Fold(b), k);
            && x.count == y.count && x.maxSeq == y.maxSeq
            && (!x.overflowed && !y.overflowed ==> x == y)
  {
    hide Fold, Moves, Amounts, Net, LastSeq;
    FoldAt(a, k);
    FoldAt(b, k);
    NetPermutes(a, b, k);
    LastSeqPermutes(a, b, k);
  }

  /** Two orders of the same entries fold alike when neither overflows; their keys always agree. */
  lemma FoldPermutes(a: seq<EntryRow>, b: seq<EntryRow>)
    requires multiset(a) == multiset(b)
    ensures Fold(a).Keys == Fold(b).Keys
    ensures KeysFit(a) && KeysFit(b) ==> Fold(a) == Fold(b)
  {
    hide Fold, Moves, Amounts, Keys;
    FoldKeys(a);
    FoldKeys(b);
    KeysPermute(a, b);
    if KeysFit(a) && KeysFit(b) {
      forall k | k in Fold(a) ensures Fold(a)[k] == Fold(b)[k] {
        FoldsAgree(a, b, k);
        FoldAt(a, k);
        FoldAt(b, k);
      }
    }
  }

  function Amount(amount: int64): EntryRow {
    EntryRow("e", "b", "p", 1, "a", None, "k", amount, None, None, None, None, "")
  }

  const KEY: SnapKey := SnapKey("a", "k")

  lemma FoldSnoc(es: seq<EntryRow>, amount: int64)
    ensures At(Fold(es + [Amount(amount)]), KEY) == AccStep(At(Fold(es), KEY), Amount(amount))
  {
    assert (es + [Amount(amount)])[..|es|] == es;
  }

  lemma StepIs(acc: Acc, amount: int64)
    requires InRange(acc.amount) && acc.maxSeq <= 1
    ensures AccStep(acc, Amount(amount)) ==
      if InRange(acc.amount + amount) then Acc(acc.amount + amount, acc.count + 1, 1, acc.overflowed)
      else Acc(acc.amount, acc.count + 1, 1, true)
  {
    hide AddCentipoints;
    AddCentipointsIsExact(acc.amount, amount);
  }

  /** The same three amounts in two orders: one overflows and keeps another sum. */
  lemma OverflowDependsOnOrder()
    ensures var a, b := [Amount(MAX)] + [Amount(1)] + [Amount(-1)], [Amount(MAX)] + [Amount(-1)] + [Amount(1)];
            && multiset(a) == multiset(b)
            && At(Fold(a), KEY) == Acc(MAX - 1, 3, 1, true) && At(Fold(b), KEY) == Acc(MAX, 3, 1, false)
  {
    hide Fold, AccStep;
    var first := [Amount(MAX)];
    assert first == [] + first;
    FoldSnoc([], MAX);
    EmptyFold();
    StepIs(NO_ACC, MAX);
    FoldSnoc(first, 1);
    StepIs(Acc(MAX, 1, 1, false), 1);
    FoldSnoc(first + [Amount(1)], -1);
    StepIs(Acc(MAX, 2, 1, true), -1);
    FoldSnoc(first, -1);
    StepIs(Acc(MAX, 1, 1, false), -1);
    FoldSnoc(first + [Amount(-1)], 1);
    StepIs(Acc(MAX - 1, 2, 1, false), 1);
  }

  lemma EmptyFold()
    ensures At(Fold([]), KEY) == NO_ACC
  {}

  // ---- every order ----

  lemma NetSnoc(es: seq<EntryRow>, e: EntryRow, k: SnapKey)
    ensures Net(Moves(es + [e]), k) == Net(Moves(es), k) + Part(k, e)
    ensures Fits(es + [e], k) <==> Fits(es, k) && (MoveOf(e).key == k ==> InRange(Net(Moves(es), k) + e.amount))
  {
    hide Moves, Group, PrefixesFit, Sum;
    MovesSnoc(es, e);
    GroupSnoc(ByKey, Moves(es), MoveOf(e), k);
    var xs := Amounts(Moves(es), k);
    assert Amounts(Moves(es + [e]), k) == if MoveOf(e).key == k then xs + [e.amount] else xs;
    SumSnoc(xs, e.amount);
    PrefixesFitSnoc(xs, e.amount);
  }

  lemma NetOfNone(k: SnapKey)
    ensures Net(Moves([]), k) == 0 && Fits([], k)
  {}

  /** The balance and every running total lie between the fall and the rise. */
  lemma {:induction false} Between(es: seq<EntryRow>, k: SnapKey)
    ensures Fall(es, k) <= Net(Moves(es), k) <= Rise(es, k) && Fall(es, k) <= 0 <= Rise(es, k)
    ensures InRange(Rise(es, k)) && InRange(Fall(es, k)) ==> Fits(es, k)
  {
    hide Moves, Net, Fits;
    if es == [] {
      NetOfNone(k);
    } else {
      var n := |es| - 1;
      assert es == es[..n] + [es[n]];
      Between(es[..n], k);
      NetSnoc(es[..n], es[n], k);
      SumBySnoc((e: EntryRow) => Up(k, e), es[..n], es[n]);
      SumBySnoc((e: EntryRow) => Down(k, e), es[..n], es[n]);
    }
  }

  /** The entries that raise a balance, taken alone, add up to its rise; those that lower it, to its fall. */
  lemma {:induction false} OneSided(es: seq<EntryRow>, k: SnapKey, up: bool)
    ensures Net(Moves(Filter((e: EntryRow) => (Part(k, e) > 0) == up, es)), k) == if up then Rise(es, k) else Fall(es, k)
  {
    hide Moves, Net;
    var p := (e: EntryRow) => (Part(k, e) > 0) == up;
    if es == [] {
      NetOfNone(k);
    } else {
      var n := |es| - 1;
      assert es == es[..n] + [es[n]];
      OneSided(es[..n], k, up);
      NetSnoc(Filter(p, es[..n]), es[n], k);
      assert Filter(p, es[..n]) + [] == Filter(p, es[..n]);
      SumBySnoc((e: EntryRow) => Up(k, e), es[..n], es[n]);
      SumBySnoc((e: EntryRow) => Down(k, e), es[..n], es[n]);
    }
  }

  /** The order that takes all of one sign first. */
  lemma SignFirst(es: seq<EntryRow>, k: SnapKey, up: bool) returns (order: seq<EntryRow>)
    ensures multiset(order) == multiset(es)
    ensures Fits(order, k) ==> InRange(if up then Rise(es, k) else Fall(es, k))
  {
    var first, after := Filter((e: EntryRow) => (Part(k, e) > 0) == up, es), Filter((e: EntryRow) => (Part(k, e) > 0) != up, es);
    order := first + after;
    FilterSplits((e: EntryRow) => true, (e: EntryRow) => (Part(k, e) > 0) == up, (e: EntryRow) => (Part(k, e) > 0) != up, es);
    FilterAll((e: EntryRow) => true, es);
    OneSided(es, k, up);
    if Fits(order, k) {
      MovesAppend(first, after);
      GroupAppend(ByKey, Moves(first), Moves(after), k);
      var xs, ys := Amounts(Moves(first), k), Amounts(Moves(after), k);
      PrefixesFitPrefix(xs + ys, |xs|);
      assert (xs + ys)[..|xs|] == xs;
      FittingSum(xs);
    }
  }

  lemma SidesPermute(a: seq<EntryRow>, b: seq<EntryRow>, k: SnapKey)
    requires multiset(a) == multiset(b)
    ensures Rise(a, k) == Rise(b, k) && Fall(a, k) == Fall(b, k)
  {
    SumByPermutes((e: EntryRow) => Up(k, e), a, b);
    SumByPermutes((e: EntryRow) => Down(k, e), a, b);
  }

  ghost predicate EveryOrderFits(es: seq<EntryRow>, k: SnapKey) {
    forall order: seq<EntryRow> :: multiset(order) == multiset(es) ==> Fits(order, k)
  }

  /** No order overflows exactly when the amounts of each sign, added alone, fit in 64 bits. */
  lemma EveryOrderFitsIff(es: seq<EntryRow>, k: SnapKey)
    ensures EveryOrderFits(es, k) <==> InRange(Rise(es, k)) && InRange(Fall(es, k))
  {
    hide Fits, Rise, Fall;
    if EveryOrderFits(es, k) {
      var ups := SignFirst(es, k, true);
      var downs := SignFirst(es, k, false);
    } else {
      var order: seq<EntryRow> :| multiset(order) == multiset(es) && !Fits(order, k);
      SidesPermute(order, es, k);
      Between(order, k);
    }
  }

  // ---- some order ----

  lemma {:induction false} PartsBound(es: seq<EntryRow>, k: SnapKey, i: nat)
    requires i < |es|
    ensures (forall e :: e in es ==> Part(k, e) >= 0) ==> Net(Moves(es), k) >= Part(k, es[i])
    ensures (forall e :: e in es ==> Part(k, e) <= 0) ==> Net(Moves(es), k) <= Part(k, es[i])
  {
    hide Moves, Net;
    var n := |es| - 1;
    assert es == es[..n] + [es[n]];
    NetSnoc(es[..n], es[n], k);
    if n == 0 {
      NetOfNone(k);
      assert es[..n] == [];
    } else {
      PartsBound(es[..n], k, if i < n then i else 0);
    }
  }

  /** One of the entries left can be added without leaving 64 bits, if the balance in the end fits. */
  lemma NextEntry(done: seq<EntryRow>, todo: seq<EntryRow>, k: SnapKey) returns (i: nat)
    requires todo != [] && InRange(Net(Moves(done), k)) && InRange(Net(Moves(done + todo), k))
    ensures i < |todo| && InRange(Net(Moves(done), k) + Part(k, todo[i]))
  {
    hide Moves, Net;
    MovesAppend(done, todo);
    NetAppend(Moves(done), Moves(todo), k);
    if j :| 0 <= j < |todo| && (if Net(Moves(done), k) >= 0 then Part(k, todo[j]) <= 0 else Part(k, todo[j]) >= 0) {
      i := j;
    } else {
      i := 0;
      PartsBound(todo, k, 0);
    }
  }

  lemma {:induction false} BalancedOrder(done: seq<EntryRow>, todo: seq<EntryRow>, k: SnapKey) returns (order: seq<EntryRow>)
    requires Fits(done, k) && InRange(Net(Moves(done + todo), k))
    ensures multiset(order) == multiset(done + todo) && Fits(order, k)
    decreases |todo|
  {
    hide Moves, Fits, Net;
    if todo == [] {
      order := done;
      assert done + todo == done;
    } else {
      FittingNet(done, k);
      var i := NextEntry(done, todo, k);
      var next, rest := done + [todo[i]], todo[..i] + todo[i + 1..];
      NetSnoc(done, todo[i], k);
      assert todo == todo[..i] + [todo[i]] + todo[i + 1..];
      assert multiset(next + rest) == multiset(done + todo);
      NetPermutes(next + rest, done + todo, k);
      order := BalancedOrder(next, rest, k);
    }
  }

  lemma FittingNet(es: seq<EntryRow>, k: SnapKey)
    requires Fits(es, k)
    ensures InRange(Net(Moves(es), k))
  {
    FittingSum(Amounts(Moves(es), k));
  }

  ghost predicate FlagIgnoresOrder(es: seq<EntryRow>, k: SnapKey) {
    forall order: seq<EntryRow> :: multiset(order) == multiset(es) ==>
      At(Fold(order), k).overflowed == At(Fold(es), k).overflowed
  }

  /**
   * The flag owes nothing to the order exactly when no order overflows or the balance itself is out
   * of range, and then all do. In between some orders overflow and others do not.
   */
  lemma FlagIgnoresOrderIff(es: seq<EntryRow>, k: SnapKey)
    ensures FlagIgnoresOrder(es, k) <==>
      !InRange(Net(Moves(es), k)) || (InRange(Rise(es, k)) && InRange(Fall(es, k)))
  {
    hide Fold, Moves, Net, Rise, Fall, LastSeq, Fits;
    forall order: seq<EntryRow> ensures At(Fold(order), k).overflowed == !Fits(order, k) { FlagIs(order, k); }
    EveryOrderFitsIff(es, k);
    if InRange(Net(Moves(es), k)) {
      NetOfNone(k);
      assert [] + es == es;
      var balanced := BalancedOrder([], es, k);
      assert multiset(balanced) == multiset(es);
    } else {
      forall order: seq<EntryRow> | multiset(order) == multiset(es) ensures !Fits(order, k) {
        NetPermutes(order, es, k);
        if Fits(order, k) { FittingNet(order, k); }
      }
    }
  }

  lemma FlagIs(es: seq<EntryRow>, k: SnapKey)
    ensures At(Fold(es), k).overflowed == !Fits(es, k)
  {
    FoldAt(es, k);
  }
}
