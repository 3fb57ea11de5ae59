/** Go's signed 64-bit integers, and the two ways the ledger adds them. */
module Int64 {
  import opened Wrappers

  const MIN: int := -0x8000_0000_0000_0000
  const MAX: int := 0x7FFF_FFFF_FFFF_FFFF
  const MODULUS: int := 0x1_0000_0000_0000_0000

  predicate InRange(x: int) { MIN <= x <= MAX }

  type int64 = x: int | MIN <= x <= MAX

  /** Two's-complement wrap-around, which is what Go's `+` does on overflow. */
  function Wrap(x: int): (r: int64) {
    (x - MIN) % MODULUS + MIN
  }

  /** The overflow test of `addCentipoints`: add with wrap-around, then look at the signs. */
  function AddCentipoints(a: int64, b: int64): (r: Option<int64>)
  {
    var sum := Wrap(a + b);
    if (b > 0 && sum < a) || (b < 0 && sum > a) then None else Some(sum)
  }

  lemma WrapIs(x: int, turns: int)
    requires InRange(x - turns * MODULUS)
    ensures Wrap(x) == x - turns * MODULUS
  {
    var q := (x - MIN) / MODULUS;
    assert q * MODULUS <= x - MIN < q * MODULUS + MODULUS;
    assert q == turns;
  }

  /** The sign test is exact: it refuses the sums that do not fit, and only those. */
  lemma AddCentipointsIsExact(a: int64, b: int64)
    ensures AddCentipoints(a, b) == if InRange(a + b) then Some(a + b) else None
  {
    var s := a + b;
    WrapIs(s, if InRange(s) then 0 else if s > MAX then 1 else -1);
  }

  /** The exact sum of a sequence. */
  function Sum(xs: seq<int>): int {
    if xs == [] then 0 else Sum(xs[..|xs| - 1]) + xs[|xs| - 1]
  }

  /** Every running total of `xs`, in order, fits in 64 bits. */
  ghost predicate PrefixesFit(xs: seq<int>) {
    xs == [] || (PrefixesFit(xs[..|xs| - 1]) && InRange(Sum(xs)))
  }

  lemma SumAppend(xs: seq<int>, ys: seq<int>)
    ensures Sum(xs + ys) == Sum(xs) + Sum(ys)
  {
    if ys == [] {
      assert xs + ys == xs;
    } else {
      var n := |ys| - 1;
      assert (xs + ys)[..|xs| + n] == xs + ys[..n];
      SumAppend(xs, ys[..n]);
    }
  }

  lemma SumSnoc(xs: seq<int>, x: int)
    ensures Sum(xs + [x]) == Sum(xs) + x
  {
    assert (xs + [x])[..|xs|] == xs;
  }

  lemma PrefixesFitSnoc(xs: seq<int>, x: int)
    ensures PrefixesFit(xs + [x]) <==> PrefixesFit(xs) && InRange(Sum(xs) + x)
  {
    assert (xs + [x])[..|xs|] == xs;
  }

  lemma FittingSum(xs: seq<int>)
    requires PrefixesFit(xs)
    ensures InRange(Sum(xs))
  {}

  /** Once a running total has left the range, no later amount repairs it. */
  lemma {:induction false} PrefixesFitPrefix(xs: seq<int>, k: nat)
    requires k <= |xs| && PrefixesFit(xs)
    ensures PrefixesFit(xs[..k])
  {
    if k == |xs| {
      assert xs[..k] == xs;
    } else {
      PrefixesFitPrefix(xs[..|xs| - 1], k);
      assert xs[..|xs| - 1][..k] == xs[..k];
    }
  }

  /** One turn of a summing loop: what the next amount does to the running total. */
  lemma RunningTotal(xs: seq<int>, i: nat)
    requires i < |xs| && PrefixesFit(xs[..i])
    ensures Sum(xs[..i + 1]) == Sum(xs[..i]) + xs[i]
    ensures PrefixesFit(xs[..i + 1]) <==> InRange(Sum(xs[..i]) + xs[i])
    ensures !InRange(Sum(xs[..i]) + xs[i]) ==> !PrefixesFit(xs)
  {
    assert xs[..i + 1] == xs[..i] + [xs[i]];
    PrefixesFitSnoc(xs[..i], xs[i]);
    SumSnoc(xs[..i], xs[i]);
    if PrefixesFit(xs) { PrefixesFitPrefix(xs, i + 1); }
  }

  // ---- sums over sequences of anything ----

  ghost function SumBy<T>(f: T -> int, s: seq<T>): int { Sum(Map(f, s)) }

  lemma SumBySnoc<T>(f: T -> int, s: seq<T>, x: T)
    ensures SumBy(f, s + [x]) == SumBy(f, s) + f(x)
  {
    assert Map(f, s + [x]) == Map(f, s) + [f(x)];
    assert (Map(f, s) + [f(x)])[..|s|] == Map(f, s);
  }

  lemma SumByAppend<T>(f: T -> int, s: seq<T>, t: seq<T>)
    ensures SumBy(f, s + t) == SumBy(f, s) + SumBy(f, t)
  {
    assert Map(f, s + t) == Map(f, s) + Map(f, t);
    SumAppend(Map(f, s), Map(f, t));
  }

  /** The last of the one sequence is somewhere in the other; without it they still agree. */
  lemma TakeOut<T>(s: seq<T>, t: seq<T>) returns (i: nat)
    requires multiset(s) == multiset(t) && s != []
    ensures i < |t| && t[i] == s[|s| - 1] && multiset(s[..|s| - 1]) == multiset(t[..i] + t[i + 1..])
  {
    var n := |s| - 1;
    assert s == s[..n] + [s[n]];
    assert s[n] in multiset(s);
    assert s[n] in t;
    i :| 0 <= i < |t| && t[i] == s[n];
    assert t == t[..i] + [t[i]] + t[i + 1..];
    assert multiset(t) == multiset(t[..i]) + multiset{s[n]} + multiset(t[i + 1..]);
    assert multiset(s[..n]) == multiset(s) - multiset{s[n]};
    assert multiset(t[..i] + t[i + 1..]) == multiset(t) - multiset{s[n]};
  }

  /** A sum does not depend on the order of what is summed. */
  lemma {:induction false} SumByPermutes<T>(f: T -> int, s: seq<T>, t: seq<T>)
    requires multiset(s) == multiset(t)
    ensures SumBy(f, s) == SumBy(f, t)
    decreases |s|
  {
    hide SumBy;
    if s == [] {
      assert |multiset(t)| == |multiset(s)|;
      assert t == [];
    } else {
      var n := |s| - 1;
      var i := TakeOut(s, t);
      assert s == s[..n] + [s[n]] && t == t[..i] + [t[i]] + t[i + 1..];
      SumByPermutes(f, s[..n], t[..i] + t[i + 1..]);
      SumBySnoc(f, s[..n], s[n]);
      SumByAppend(f, t[..i], t[i + 1..]);
      SumBySnoc(f, t[..i], t[i]);
      SumByAppend(f, t[..i] + [t[i]], t[i + 1..]);
    }
  }
}
