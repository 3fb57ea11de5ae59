/**
 * Largest-remainder allocation (internal/ledger/allocate.go): an amount is split across weighted
 * shares so that the parts sum to exactly the amount.
 */
module Allocate {
  import opened Wrappers
  import opened Int64
  import opened Ordering

  const UINT64: int := 0x1_0000_0000_0000_0000

  type uint64 = x: int | 0 <= x < 0x1_0000_0000_0000_0000

  /** The account that takes an amount no weight can divide. */
  const RESIDUE: string := "0000000000000000DKPACCTRES"

  datatype Share = Share(account: string, weight: int64)

  datatype Allocation = Allocation(account: string, amount: int64)

  datatype AllocateError = ZeroTotal | AmountOutOfRange | NegativeWeight | WeightOverflow

  // ---- math/bits ----

  function Mul64(x: uint64, y: uint64): (hiLo: (uint64, uint64))
    ensures hiLo.0 * UINT64 + hiLo.1 == x * y
  {
    var p := x * y;
    assert 0 <= p by { NonNegative(x, y); }
    assert p < UINT64 * UINT64 by { ProductBelow(x, y); }
    (p / UINT64, p % UINT64)
  }

  /** `bits.Div64` panics unless `y` is above the high word: that is this function's precondition. */
  function Div64(hi: uint64, lo: uint64, y: uint64): (qr: (uint64, uint64))
    requires hi < y
    ensures qr.0 * y + qr.1 == hi * UINT64 + lo && 0 <= qr.1 < y
  {
    var n := hi * UINT64 + lo;
    assert n < y * UINT64;
    QuotientBelow(n, y, UINT64);
    (n / y, n % y)
  }

  lemma NonNegative(x: int, y: int)
    requires 0 <= x && 0 <= y
    ensures 0 <= x * y
  {}

  lemma ProductMonotone(x: nat, y: int, z: int)
    requires y <= z
    ensures x * y <= x * z
  {}

  lemma ProductBelow(x: uint64, y: uint64)
    ensures x * y < UINT64 * UINT64
  {
    ProductMonotone(x, y, UINT64);
    ProductMonotone(UINT64, x, UINT64 - 1);
  }

  lemma QuotientBelow(n: int, y: int, bound: int)
    requires 0 <= n < y * bound && 0 < y
    ensures 0 <= n / y < bound
  {}

  // ---- the definition ----

  function Weight(s: Share): int { s.weight }

  ghost function WeightSum(shares: seq<Share>): int { SumBy(Weight, shares) }

  ghost predicate Divisible(shares: seq<Share>) {
    (forall i :: 0 <= i < |shares| ==> shares[i].weight >= 0) && 0 < WeightSum(shares) <= MAX
  }

  /** floor(P * w / W) and what it leaves over, as exact integers. */
  function Base(p: nat, w: int, s: Share): int requires w > 0 { p * s.weight / w }

  function Remainder(p: nat, w: int, s: Share): int requires w > 0 { p * s.weight % w }

  /** The order of the extra units: larger remainder first, then the smaller account id. */
  predicate Before(p: nat, w: int, a: Share, b: Share)
    requires w > 0
  {
    Remainder(p, w, a) > Remainder(p, w, b)
    || (Remainder(p, w, a) == Remainder(p, w, b) && StrLt(a.account, b.account))
  }

  /**
   * `units` splits `p` by largest remainder: each share has its floor or one unit more, the units
   * sum to `p`, and a share with the extra unit has it only if every share before it does.
   */
  ghost predicate IsSplit(p: nat, shares: seq<Share>, units: seq<int>)
    requires Divisible(shares)
  {
    var w := WeightSum(shares);
    && |units| == |shares|
    && Sum(units) == p
    && (forall i :: 0 <= i < |units| ==> Base(p, w, shares[i]) <= units[i] <= Base(p, w, shares[i]) + 1)
    && (forall i, j :: 0 <= i < |units| && 0 <= j < |units|
          && Before(p, w, shares[j], shares[i]) && units[i] > Base(p, w, shares[i])
          ==> units[j] > Base(p, w, shares[j]))
  }

  /** The rows a split is written as: signed, and without the shares that round to nothing. */
  ghost function Rows(shares: seq<Share>, units: seq<int>, sign: int): seq<(string, int)>
    requires |shares| == |units|
  {
    if shares == [] then []
    else
      var n := |shares| - 1;
      Rows(shares[..n], units[..n], sign)
      + if units[n] == 0 then [] else [(shares[n].account, sign * units[n])]
  }

  function Pair(a: Allocation): (string, int) { (a.account, a.amount) }

  ghost function Pairs(out: seq<Allocation>): seq<(string, int)> {
    if out == [] then [] else Pairs(out[..|out| - 1]) + [Pair(out[|out| - 1])]
  }

  predicate AccountLe(a: Allocation, b: Allocation) { StrLe(a.account, b.account) }

  ghost predicate SplitsInto(total: int, shares: seq<Share>, units: seq<int>, out: seq<Allocation>)
    requires Divisible(shares)
  {
    && IsSplit(Magnitude(total), shares, units)
    && multiset(Pairs(out)) == multiset(Rows(shares, units, if total < 0 then -1 else 1))
  }

  /** What `Allocate` returns when there is a basis on which to divide. */
  ghost predicate IsAllocation(total: int, shares: seq<Share>, out: seq<Allocation>)
    requires Divisible(shares)
  {
    Sorted(AccountLe, out) && exists units :: SplitsInto(total, shares, units, out)
  }

  function Magnitude(v: int): nat { if v < 0 then -v else v }

  // ---- the code ----

  datatype Candidate = Candidate(account: string, origin: nat, base: int, remainder: int)

  predicate RemainderLe(a: Candidate, b: Candidate) {
    a.remainder > b.remainder || (a.remainder == b.remainder && StrLe(a.account, b.account))
  }

  predicate CandidateAccountLe(a: Candidate, b: Candidate) { StrLe(a.account, b.account) }

  lemma OrdersAreTotal()
    ensures Total(RemainderLe) && Transitive(RemainderLe)
    ensures Total(CandidateAccountLe) && Transitive(CandidateAccountLe)
  {
    forall a: Candidate, b: Candidate
      ensures RemainderLe(a, b) || RemainderLe(b, a)
      ensures CandidateAccountLe(a, b) || CandidateAccountLe(b, a)
    {
      StrLeTotal(a.account, b.account);
    }
    forall a: Candidate, b: Candidate, c: Candidate
      ensures RemainderLe(a, b) && RemainderLe(b, c) ==> RemainderLe(a, c)
      ensures CandidateAccountLe(a, b) && CandidateAccountLe(b, c) ==> CandidateAccountLe(a, c)
    {
      if StrLe(a.account, b.account) && StrLe(b.account, c.account) {
        StrLeTransitive(a.account, b.account, c.account);
      }
    }
  }

  /** `sort.Slice`: the order of equal elements is not promised, and not used. */
  method SortSlice<T(!new)>(a: array<T>, le: (T, T) -> bool)
    requires Total(le) && Transitive(le)
    modifies a
    ensures multiset(a[..]) == multiset(old(a[..]))
    ensures Sorted(le, a[..])
  {
    hide Sort, Total, Transitive, Sorted;
    var s := Sort(le, a[..]);
    SortKeeps(le, a[..]);
    SortSorts(le, a[..]);
    for i := 0 to a.Length
      invariant a[..i] == s[..i]
    {
      a[i] := s[i];
    }
    assert a[..] == s;
  }

  method SumWeights(shares: seq<Share>) returns (r: Result<int64, AllocateError>)
    ensures r.Ok? <==> (forall i :: 0 <= i < |shares| ==> shares[i].weight >= 0) && WeightSum(shares) <= MAX
    ensures r.Ok? ==> r.value == WeightSum(shares)
    ensures r == Err(NegativeWeight) <==>
      exists k :: 0 <= k < |shares| && shares[k].weight < 0 && WeightSum(shares[..k]) <= MAX
                  && forall j :: 0 <= j < k ==> shares[j].weight >= 0
    ensures r.Err? ==> r.error == NegativeWeight || r.error == WeightOverflow
  {
    var total: int64 := 0;
    for i := 0 to |shares|
      invariant forall j :: 0 <= j < i ==> shares[j].weight >= 0
      invariant total == WeightSum(shares[..i])
    {
      var s := shares[i];
      assert shares[..i + 1] == shares[..i] + [s];
      SumBySnoc(Weight, shares[..i], s);
      if s.weight < 0 { return Err(NegativeWeight); }
      var sum := Wrap(total + s.weight);
      AddCentipointsIsExact(total, s.weight);
      if sum < total {
        WeightsGrow(shares, i + 1);
        return Err(WeightOverflow);
      }
      total := sum;
    }
    assert shares[..|shares|] == shares;
    return Ok(total);
  }

  /** A prefix whose weights are not negative already decides that the whole sum is too big. */
  lemma {:induction false} WeightsGrow(shares: seq<Share>, k: nat)
    requires k <= |shares| && WeightSum(shares[..k]) > MAX
    requires forall j :: 0 <= j < k ==> shares[j].weight >= 0
    ensures forall m :: k <= m <= |shares| && (forall j :: 0 <= j < m ==> shares[j].weight >= 0)
              ==> WeightSum(shares[..m]) > MAX
    ensures (forall j :: 0 <= j < |shares| ==> shares[j].weight >= 0) ==> WeightSum(shares) > MAX
    decreases |shares| - k
  {
    assert shares[..|shares|] == shares;
    if k < |shares| && shares[k].weight >= 0 {
      assert shares[..k + 1] == shares[..k] + [shares[k]];
      SumBySnoc(Weight, shares[..k], shares[k]);
      WeightsGrow(shares, k + 1);
    }
  }

  // ---- quotas ----

  ghost function Bases(p: nat, w: int, shares: seq<Share>): int
    requires w > 0
  {
    SumBy((s: Share) => p * s.weight / w, shares)
  }

  ghost function Remainders(p: nat, w: int, shares: seq<Share>): int
    requires w > 0
  {
    SumBy((s: Share) => p * s.weight % w, shares)
  }

  lemma BasesSnoc(p: nat, w: int, shares: seq<Share>, s: Share)
    requires w > 0
    ensures Bases(p, w, shares + [s]) == Bases(p, w, shares) + Base(p, w, s)
    ensures Remainders(p, w, shares + [s]) == Remainders(p, w, shares) + Remainder(p, w, s)
  {
    SumBySnoc((s: Share) => p * s.weight / w, shares, s);
    SumBySnoc((s: Share) => p * s.weight % w, shares, s);
  }

  lemma QuotaIsExact(p: nat, w: int, s: Share)
    requires w > 0
    ensures Base(p, w, s) * w + Remainder(p, w, s) == p * s.weight
    ensures 0 <= Remainder(p, w, s) < w
  {}

  /** The floors and the remainders together account for every unit. */
  lemma {:induction false} QuotasAreExact(p: nat, w: int, shares: seq<Share>)
    requires w > 0
    ensures Bases(p, w, shares) * w + Remainders(p, w, shares) == p * WeightSum(shares)
    ensures 0 <= Remainders(p, w, shares) <= |shares| * (w - 1)
  {
    if shares != [] {
      var n := |shares| - 1;
      var s, rest := shares[n], shares[..n];
      assert shares == rest + [s];
      QuotasAreExact(p, w, rest);
      BasesSnoc(p, w, rest, s);
      SumBySnoc(Weight, rest, s);
      QuotaIsExact(p, w, s);
      Distribute(Bases(p, w, rest), Base(p, w, s), w);
      Distribute(WeightSum(rest), s.weight, p);
      Distribute(|rest|, 1, w - 1);
    }
  }

  lemma Distribute(a: int, b: int, c: int)
    ensures (a + b) * c == a * c + b * c
    ensures c * (a + b) == c * a + c * b
  {}

  /** The shortfall the extra units make up is below the number of shares. */
  lemma ShortfallIsSmall(p: nat, shares: seq<Share>)
    requires Divisible(shares)
    ensures 0 <= p - Bases(p, WeightSum(shares), shares) < |shares|
  {
    var w := WeightSum(shares);
    var r := p - Bases(p, w, shares);
    QuotasAreExact(p, w, shares);
    assert r * w == Remainders(p, w, shares) by { Distribute(Bases(p, w, shares), r, w); }
    assert |shares| > 0;
    assert |shares| * (w - 1) < |shares| * w;
    ScaledBetween(r, |shares|, w);
  }

  lemma ScaledBetween(r: int, n: int, w: int)
    requires w > 0 && 0 <= r * w < n * w
    ensures 0 <= r < n
  {}

  lemma WeightSumGrows(shares: seq<Share>, k: nat)
    requires k <= |shares| && forall i :: 0 <= i < |shares| ==> shares[i].weight >= 0
    ensures 0 <= WeightSum(shares[..k]) <= WeightSum(shares)
  {
    WeightSumNonNegative(shares[..k]);
    WeightSumNonNegative(shares[k..]);
    SumByAppend(Weight, shares[..k], shares[k..]);
    assert shares == shares[..k] + shares[k..];
  }

  lemma WeightAtMostSum(shares: seq<Share>, k: nat)
    requires k < |shares| && forall i :: 0 <= i < |shares| ==> shares[i].weight >= 0
    ensures shares[k].weight <= WeightSum(shares)
  {
    assert shares[..k + 1] == shares[..k] + [shares[k]];
    SumBySnoc(Weight, shares[..k], shares[k]);
    WeightSumNonNegative(shares[..k]);
    WeightSumGrows(shares, k + 1);
  }

  lemma {:induction false} WeightSumNonNegative(shares: seq<Share>)
    requires forall i :: 0 <= i < |shares| ==> shares[i].weight >= 0
    ensures 0 <= WeightSum(shares)
  {
    if shares != [] {
      var n := |shares| - 1;
      assert shares == shares[..n] + [shares[n]];
      WeightSumNonNegative(shares[..n]);
      SumBySnoc(Weight, shares[..n], shares[n]);
    }
  }

  /** The first loop: floor and remainder of every quota, and the sum of the floors. */
  method Quotas(p: nat, w: int64, shares: seq<Share>) returns (c: array<Candidate>, floors: uint64)
    requires p <= MAX && Divisible(shares) && w == WeightSum(shares)
    ensures fresh(c) && c[..] == Candidates(p, w, shares)
    ensures floors == Bases(p, w, shares)
  {
    c := new Candidate[|shares|](_ => Candidate("", 0, 0, 0));
    floors := 0;
    for i := 0 to |shares|
      invariant c[..i] == Candidates(p, w, shares[..i])
      invariant floors == Bases(p, w, shares[..i])
    {
      var s := shares[i];
      WeightAtMostSum(shares, i);
      var hiLo := Mul64(p, s.weight);
      HighWordIsSmall(p, s.weight, w, hiLo.0, hiLo.1);
      var (base, remainder) := Div64(hiLo.0, hiLo.1, w);
      DivisionIsUnique(p * s.weight, w, base, remainder);
      c[i] := Candidate(s.account, i, base, remainder);
      assert shares[..i + 1] == shares[..i] + [s];
      BasesSnoc(p, w, shares[..i], s);
      BasesFit(p, w, shares, i + 1);
      floors := floors + base;
      CandidatesSnoc(p, w, shares, i);
      assert c[..i + 1] == c[..i] + [c[i]];
    }
    assert shares[..|shares|] == shares && c[..] == c[..|shares|];
  }

  function Candidates(p: nat, w: int, shares: seq<Share>): (c: seq<Candidate>)
    requires w > 0
    ensures |c| == |shares|
  {
    seq(|shares|, i requires 0 <= i < |shares| =>
      Candidate(shares[i].account, i, Base(p, w, shares[i]), Remainder(p, w, shares[i])))
  }

  lemma CandidatesSnoc(p: nat, w: int, shares: seq<Share>, i: nat)
    requires w > 0 && i < |shares|
    ensures Candidates(p, w, shares[..i + 1]) == Candidates(p, w, shares[..i])
      + [Candidate(shares[i].account, i, Base(p, w, shares[i]), Remainder(p, w, shares[i]))]
  {}

  /** `w_i <= W`, so the quotient fits: the division the code says cannot panic does not. */
  lemma HighWordIsSmall(p: nat, weight: int, w: int, hi: int, lo: int)
    requires p < UINT64 && 0 <= weight <= w && 0 < w
    requires 0 <= lo && hi * UINT64 + lo == p * weight
    ensures hi < w
  {
    if p == 0 || weight == 0 {
      assert p * weight == 0;
    } else {
      ProductMonotone(p, weight, w);
      ProductMonotone(w, p, UINT64 - 1);
      assert p * weight < w * UINT64;
    }
  }

  lemma DivisionIsUnique(n: int, w: int, q: int, r: int)
    requires w > 0 && n == q * w + r && 0 <= r < w
    ensures q == n / w && r == n % w
  {
    var d := q - n / w;
    assert d * w == n % w - r by { Distribute(d, n / w, w); }
    if d >= 1 { ProductMonotone(w, 1, d); }
    if d <= -1 { ProductMonotone(w, 1, -d); }
  }

  lemma BasesFit(p: nat, w: int, shares: seq<Share>, k: nat)
    requires p <= MAX && Divisible(shares) && w == WeightSum(shares) && k <= |shares|
    ensures 0 <= Bases(p, w, shares[..k]) <= p
  {
    QuotasAreExact(p, w, shares[..k]);
    WeightSumGrows(shares, k);
    ProductMonotone(p, WeightSum(shares[..k]), w);
    assert Bases(p, w, shares[..k]) * w <= p * w;
    ScaledAtMost(Bases(p, w, shares[..k]), p, w);
    BasesNonNegative(p, w, shares[..k]);
  }

  lemma ScaledAtMost(a: int, b: int, w: int)
    requires w > 0 && a * w <= b * w
    ensures a <= b
  {}

  lemma {:induction false} BasesNonNegative(p: nat, w: int, shares: seq<Share>)
    requires w > 0 && forall i :: 0 <= i < |shares| ==> shares[i].weight >= 0
    ensures 0 <= Bases(p, w, shares)
  {
    if shares != [] {
      var n := |shares| - 1;
      var s, rest := shares[n], shares[..n];
      assert shares == rest + [s];
      BasesNonNegative(p, w, rest);
      BasesSnoc(p, w, rest, s);
      BaseNonNegative(p, w, s);
    }
  }

  // ---- the extra units ----

  /** `u` is the candidates in share order: the floors, some with one unit more. */
  ghost predicate Bumped(c0: seq<Candidate>, u: seq<Candidate>) {
    && |u| == |c0|
    && forall i :: 0 <= i < |u| ==> u[i] == c0[i] || u[i] == c0[i].(base := c0[i].base + 1)
  }

  function CandidateBase(c: Candidate): int { c.base }

  /** The `+1` pass over the sorted candidates, with a ghost copy `u` kept in share order. */
  method AwardShortfall(c: array<Candidate>, shortfall: nat, ghost c0: seq<Candidate>)
    returns (ghost u: seq<Candidate>)
    requires multiset(c[..]) == multiset(c0) && shortfall <= |c0| == c.Length
    requires forall i :: 0 <= i < |c0| ==> c0[i].origin == i
    modifies c
    ensures Bumped(c0, u) && multiset(c[..]) == multiset(u)
    ensures SumBy(CandidateBase, u) == SumBy(CandidateBase, c0) + shortfall
    ensures forall i :: 0 <= i < |u| ==> (u[i] != c0[i] <==> c0[i] in old(c[..])[..shortfall])
  {
    ghost var cs := c[..];
    u := c0;
    var i := 0;
    while i < c.Length
      invariant 0 <= i <= shortfall
      invariant c[i..] == cs[i..]
      invariant Granted(c0, cs, c[..], u, i)
    {
      if i >= shortfall { break; }
      assert c[i] == c[i..][0] == cs[i..][0] == cs[i];
      ghost var before := c[..];
      u := Grant(c0, cs, before, u, i);
      c[i] := c[i].(base := c[i].base + 1);
      assert c[..] == before[i := before[i].(base := before[i].base + 1)];
      assert c[i + 1..] == cs[i + 1..] by { assert before[i + 1..] == before[i..][1..]; }
      i := i + 1;
    }
  }

  /** After the first `i` extra units: `c` is the array and `u` the same candidates in share order. */
  ghost predicate Granted(c0: seq<Candidate>, cs: seq<Candidate>, c: seq<Candidate>, u: seq<Candidate>, i: nat) {
    && i <= |cs| == |c|
    && Bumped(c0, u) && multiset(c) == multiset(u)
    && SumBy(CandidateBase, u) == SumBy(CandidateBase, c0) + i
    && forall k :: 0 <= k < |u| ==> (u[k] != c0[k] <==> c0[k] in cs[..i])
  }

  lemma Grant(c0: seq<Candidate>, cs: seq<Candidate>, c: seq<Candidate>, u: seq<Candidate>, i: nat)
    returns (v: seq<Candidate>)
    requires forall k :: 0 <= k < |c0| ==> c0[k].origin == k
    requires multiset(cs) == multiset(c0) && Granted(c0, cs, c, u, i) && i < |c| && c[i] == cs[i]
    ensures Granted(c0, cs, c[i := c[i].(base := c[i].base + 1)], v, i + 1)
  {
    var o := Owner(c0, cs, c, u, i);
    var x := c[i].(base := c[i].base + 1);
    v := u[o := x];
    BumpSum(u, o);
    UpdateBoth(c, u, i, o, x);
    GrantedSet(c0, cs, u, v, i, o);
  }

  lemma GrantedSet(c0: seq<Candidate>, cs: seq<Candidate>, u: seq<Candidate>, v: seq<Candidate>, i: nat, o: nat)
    requires i < |cs| && o < |c0| == |u| == |v| && cs[i] == c0[o]
    requires forall k :: 0 <= k < |c0| && k != o ==> c0[k] != cs[i] && v[k] == u[k]
    requires v[o] != c0[o]
    requires forall k :: 0 <= k < |u| ==> (u[k] != c0[k] <==> c0[k] in cs[..i])
    ensures forall k :: 0 <= k < |v| ==> (v[k] != c0[k] <==> c0[k] in cs[..i + 1])
  {
    assert cs[..i + 1] == cs[..i] + [cs[i]];
  }

  lemma UpdateBoth<T>(s: seq<T>, t: seq<T>, i: nat, j: nat, x: T)
    requires multiset(s) == multiset(t) && i < |s| && j < |t| && s[i] == t[j]
    ensures multiset(s[i := x]) == multiset(t[j := x])
  {}

  lemma SameLength<T>(s: seq<T>, t: seq<T>)
    requires multiset(s) == multiset(t)
    ensures |s| == |t|
  {
    assert |multiset(s)| == |s| && |multiset(t)| == |t|;
  }

  /** The share behind the candidate at position `i`, which has not had its extra unit yet. */
  lemma Owner(c0: seq<Candidate>, cs: seq<Candidate>, c: seq<Candidate>, u: seq<Candidate>, i: nat)
    returns (o: nat)
    requires forall k :: 0 <= k < |c0| ==> c0[k].origin == k
    requires multiset(cs) == multiset(c0) && multiset(c) == multiset(u) && Bumped(c0, u)
    requires i < |c| == |cs| && c[i] == cs[i]
    ensures o < |u| && u[o] == c[i] == c0[o]
    ensures forall k :: 0 <= k < |c0| && k != o ==> c0[k] != cs[i]
  {
    assert c[i] in multiset(c) && cs[i] in multiset(cs);
    assert c[i] in u && cs[i] in c0;
    o :| 0 <= o < |u| && u[o] == c[i];
    var m :| 0 <= m < |c0| && c0[m] == cs[i];
    assert m == c[i].origin == o;
  }

  lemma BumpSum(u: seq<Candidate>, o: nat)
    requires o < |u|
    ensures SumBy(CandidateBase, u[o := u[o].(base := u[o].base + 1)]) == SumBy(CandidateBase, u) + 1
  {
    var x := u[o].(base := u[o].base + 1);
    assert u == u[..o] + [u[o]] + u[o + 1..];
    assert u[o := x] == u[..o] + [x] + u[o + 1..];
    SumByAppend(CandidateBase, u[..o] + [u[o]], u[o + 1..]);
    SumByAppend(CandidateBase, u[..o] + [x], u[o + 1..]);
    SumBySnoc(CandidateBase, u[..o], u[o]);
    SumBySnoc(CandidateBase, u[..o], x);
  }

  // ---- writing the rows ----

  /** The rows of a run of candidates, in their order. */
  ghost function CandidateRows(c: seq<Candidate>, sign: int): seq<(string, int)> {
    if c == [] then []
    else
      var n := |c| - 1;
      CandidateRows(c[..n], sign) + if c[n].base == 0 then [] else [(c[n].account, sign * c[n].base)]
  }

  lemma {:induction false} CandidateRowsAppend(c: seq<Candidate>, d: seq<Candidate>, sign: int)
    ensures CandidateRows(c + d, sign) == CandidateRows(c, sign) + CandidateRows(d, sign)
  {
    if d == [] {
      assert c + d == c;
    } else {
      var n := |d| - 1;
      assert (c + d)[..|c| + n] == c + d[..n];
      CandidateRowsAppend(c, d[..n], sign);
    }
  }

  lemma {:induction false} CandidateRowsPermute(c: seq<Candidate>, d: seq<Candidate>, sign: int)
    requires multiset(c) == multiset(d)
    ensures multiset(CandidateRows(c, sign)) == multiset(CandidateRows(d, sign))
    decreases |c|
  {
    SameLength(c, d);
    if c != [] {
      var n := |c| - 1;
      assert c == c[..n] + [c[n]];
      assert c[n] in multiset(c);
      assert c[n] in d;
      var i :| 0 <= i < |d| && d[i] == c[n];
      RemoveBoth(c, d, n, i);
      CandidateRowsPermute(c[..n], d[..i] + d[i + 1..], sign);
      RowsWithout(c, n, sign);
      RowsWithout(d, i, sign);
      assert c[..n] + c[n + 1..] == c[..n];
    }
  }

  lemma RemoveBoth<T>(s: seq<T>, t: seq<T>, i: nat, j: nat)
    requires multiset(s) == multiset(t) && i < |s| && j < |t| && s[i] == t[j]
    ensures multiset(s[..i] + s[i + 1..]) == multiset(t[..j] + t[j + 1..])
    ensures i == |s| - 1 ==> multiset(s[..i]) == multiset(t[..j] + t[j + 1..])
  {
    RemoveOne(s, i);
    RemoveOne(t, j);
    assert i == |s| - 1 ==> s[..i] + s[i + 1..] == s[..i];
  }

  lemma RemoveOne<T>(s: seq<T>, i: nat)
    requires i < |s|
    ensures multiset(s[..i] + s[i + 1..]) == multiset(s) - multiset{s[i]}
  {
    assert s == s[..i] + [s[i]] + s[i + 1..];
  }

  lemma RowsWithout(c: seq<Candidate>, i: nat, sign: int)
    requires i < |c|
    ensures multiset(CandidateRows(c, sign))
         == multiset(CandidateRows(c[..i] + c[i + 1..], sign)) + multiset(CandidateRows([c[i]], sign))
  {
    assert c == c[..i] + [c[i]] + c[i + 1..];
    CandidateRowsAppend(c[..i], c[i + 1..], sign);
    CandidateRowsAppend(c[..i], [c[i]], sign);
    CandidateRowsAppend(c[..i] + [c[i]], c[i + 1..], sign);
  }

  ghost function Units(u: seq<Candidate>): (r: seq<int>) { Map(CandidateBase, u) }

  lemma {:induction false} CandidateRowsAreRows(shares: seq<Share>, u: seq<Candidate>, sign: int)
    requires |u| == |shares| && forall i :: 0 <= i < |u| ==> u[i].account == shares[i].account
    ensures CandidateRows(u, sign) == Rows(shares, Units(u), sign)
  {
    if u != [] {
      var n := |u| - 1;
      assert Units(u)[..n] == Units(u[..n]);
      CandidateRowsAreRows(shares[..n], u[..n], sign);
    }
  }

  /** The last loop: sign the amounts and leave the zeros out. */
  method Emit(c: seq<Candidate>, negative: bool) returns (out: seq<Allocation>)
    requires Sorted(CandidateAccountLe, c)
    requires forall i :: 0 <= i < |c| ==> 0 <= c[i].base <= MAX
    ensures Pairs(out) == CandidateRows(c, if negative then -1 else 1)
    ensures Sorted(AccountLe, out)
  {
    out := [];
    for i := 0 to |c|
      invariant Emitted(c, i, if negative then -1 else 1, out)
    {
      if c[i].base == 0 {
        EmitNothing(c, i, if negative then -1 else 1, out);
      } else {
        var amount: int64 := c[i].base;
        if negative { amount := -amount; }
        EmitRow(c, i, if negative then -1 else 1, out, amount);
        out := out + [Allocation(c[i].account, amount)];
      }
    }
    assert c[..|c|] == c;
  }

  /** The rows of the first `i` candidates are written, in account order. */
  ghost predicate Emitted(c: seq<Candidate>, i: nat, sign: int, out: seq<Allocation>)
  {
    && i <= |c|
    && Pairs(out) == CandidateRows(c[..i], sign)
    && Sorted(AccountLe, out)
    && forall k, j :: 0 <= k < |out| && i <= j < |c| ==> StrLe(out[k].account, c[j].account)
  }

  lemma EmitNothing(c: seq<Candidate>, i: nat, sign: int, out: seq<Allocation>)
    requires i < |c| && c[i].base == 0 && Emitted(c, i, sign, out)
    ensures Emitted(c, i + 1, sign, out)
  {
    assert c[..i + 1][..i] == c[..i];
  }

  lemma EmitRow(c: seq<Candidate>, i: nat, sign: int, out: seq<Allocation>, amount: int64)
    requires i < |c| && c[i].base != 0 && amount == sign * c[i].base
    requires Sorted(CandidateAccountLe, c) && Emitted(c, i, sign, out)
    ensures Emitted(c, i + 1, sign, out + [Allocation(c[i].account, amount)])
  {
    var x := Allocation(c[i].account, amount);
    assert forall k :: 0 <= k < |out| ==> AccountLe(out[k], x);
    SortedSnoc(AccountLe, out, x);
    RowWritten(c, i, sign, out, x);
    NextBelow(c, i, out, x);
  }

  lemma RowWritten(c: seq<Candidate>, i: nat, sign: int, out: seq<Allocation>, x: Allocation)
    requires i < |c| && c[i].base != 0 && Pair(x) == (c[i].account, sign * c[i].base)
    requires Pairs(out) == CandidateRows(c[..i], sign)
    ensures Pairs(out + [x]) == CandidateRows(c[..i + 1], sign)
  {
    assert c[..i + 1][..i] == c[..i] && (out + [x])[..|out|] == out;
  }

  lemma NextBelow(c: seq<Candidate>, i: nat, out: seq<Allocation>, x: Allocation)
    requires i < |c| && x.account == c[i].account && Sorted(CandidateAccountLe, c)
    requires forall k, j :: 0 <= k < |out| && i <= j < |c| ==> StrLe(out[k].account, c[j].account)
    ensures forall k, j :: 0 <= k < |out + [x]| && i < j < |c| ==> StrLe((out + [x])[k].account, c[j].account)
  {
    assert forall j :: i < j < |c| ==> CandidateAccountLe(c[i], c[j]);
  }

  /** The first `shortfall` candidates by remainder, each with one unit more, are a split. */
  lemma SplitOf(p: nat, shares: seq<Share>, c0: seq<Candidate>, cs: seq<Candidate>,
                u: seq<Candidate>, shortfall: nat)
    requires Divisible(shares)
    requires c0 == Candidates(p, WeightSum(shares), shares)
    requires multiset(cs) == multiset(c0) && Sorted(RemainderLe, cs) && shortfall <= |cs|
    requires Bumped(c0, u)
    requires SumBy(CandidateBase, u) == SumBy(CandidateBase, c0) + shortfall
    requires shortfall == p - Bases(p, WeightSum(shares), shares)
    requires forall i :: 0 <= i < |u| ==> (u[i] != c0[i] <==> c0[i] in cs[..shortfall])
    ensures IsSplit(p, shares, Units(u))
  {
    var w := WeightSum(shares);
    FloorsOfCandidates(p, w, shares);
    forall i, j | 0 <= i < |u| && 0 <= j < |u|
        && Before(p, w, shares[j], shares[i]) && Units(u)[i] > Base(p, w, shares[i])
      ensures Units(u)[j] > Base(p, w, shares[j])
    {
      assert u[i] != c0[i];
      var a :| 0 <= a < shortfall && cs[..shortfall][a] == c0[i];
      assert c0[j] in multiset(c0);
      assert c0[j] in cs;
      var b :| 0 <= b < |cs| && cs[b] == c0[j];
      if b >= shortfall {
        assert RemainderLe(cs[a], cs[b]);
        StrLeAntisymmetricUse(shares[i].account, shares[j].account);
      }
      assert cs[..shortfall][b] == c0[j];
    }
  }

  lemma StrLeAntisymmetricUse(a: string, b: string)
    ensures !(StrLe(a, b) && StrLt(b, a))
  {
    if StrLe(a, b) && StrLe(b, a) { StrLeAntisymmetric(a, b); }
  }

  lemma FloorsOfCandidates(p: nat, w: int, shares: seq<Share>)
    requires w > 0
    ensures SumBy(CandidateBase, Candidates(p, w, shares)) == Bases(p, w, shares)
  {
    assert Map(CandidateBase, Candidates(p, w, shares))
      == Map((s: Share) => p * s.weight / w, shares);
  }

  /** Every unit of a split is between nothing and the whole amount. */
  lemma UnitInRange(p: nat, shares: seq<Share>, units: seq<int>, k: nat)
    requires Divisible(shares) && IsSplit(p, shares, units) && k < |units|
    ensures 0 <= units[k] <= p
  {
    var w := WeightSum(shares);
    forall i | 0 <= i < |units| ensures 0 <= units[i] { BaseNonNegative(p, w, shares[i]); }
    PartAtMostSum(units, k);
  }

  lemma BaseNonNegative(p: nat, w: int, s: Share)
    requires w > 0 && s.weight >= 0
    ensures 0 <= Base(p, w, s)
  {
    NonNegative(p, s.weight);
  }

  lemma {:induction false} PartAtMostSum(xs: seq<int>, k: nat)
    requires k < |xs| && forall i :: 0 <= i < |xs| ==> 0 <= xs[i]
    ensures xs[k] <= Sum(xs)
  {
    if k < |xs| - 1 { PartAtMostSum(xs[..|xs| - 1], k); } else { SumNonNegative(xs[..k]); }
  }

  lemma {:induction false} SumNonNegative(xs: seq<int>)
    requires forall i :: 0 <= i < |xs| ==> 0 <= xs[i]
    ensures 0 <= Sum(xs)
  {
    if xs != [] { SumNonNegative(xs[..|xs| - 1]); }
  }

  /**
   * Split `total` across `shares` by largest remainder. Both degenerate cases go to a system
   * account, and the errors are the four the source names.
   */
  method Allocate(total: int64, shares: seq<Share>, emptyAccount: string)
    returns (r: Result<seq<Allocation>, AllocateError>)
    ensures total == 0 ==> r == Err(ZeroTotal)
    ensures total == MIN ==> r == Err(AmountOutOfRange)
    ensures total != 0 && total != MIN && shares == [] ==> r == Ok([Allocation(emptyAccount, total)])
    ensures total != 0 && total != MIN && shares != [] ==>
      && (r.Ok? <==> (forall i :: 0 <= i < |shares| ==> shares[i].weight >= 0) && WeightSum(shares) <= MAX)
      && (r == Err(NegativeWeight) <==>
            exists k :: 0 <= k < |shares| && shares[k].weight < 0 && WeightSum(shares[..k]) <= MAX
                        && forall j :: 0 <= j < k ==> shares[j].weight >= 0)
      && (r.Err? ==> r.error == NegativeWeight || r.error == WeightOverflow)
      && (r.Ok? && WeightSum(shares) == 0 ==> r == Ok([Allocation("0000000000000000DKPACCTRES", total)]))
      && (Divisible(shares) ==> r.Ok? && IsAllocation(total, shares, r.value))
  {
    if total == 0 { return Err(ZeroTotal); }
    if total == MIN { return Err(AmountOutOfRange); }
    if |shares| == 0 { return Ok([Allocation(emptyAccount, total)]); }
    var weights := SumWeights(shares);
    if weights.Err? { return Err(weights.error); }
    var weightSum := weights.value;
    if weightSum == 0 { return Ok([Allocation(RESIDUE, total)]); }
    WeightSumNonNegative(shares);
    var out := Divide(total, shares, weightSum);
    return Ok(out);
  }

  method Divide(total: int64, shares: seq<Share>, weightSum: int64) returns (out: seq<Allocation>)
    requires total != MIN && Divisible(shares) && weightSum == WeightSum(shares)
    ensures IsAllocation(total, shares, out)
  {
    var magnitude, negative := Magnitude(total), total < 0;
    ghost var c0 := Candidates(magnitude, weightSum, shares);
    var c, floors := Quotas(magnitude, weightSum, shares);
    ShortfallIsSmall(magnitude, shares);
    var shortfall: uint64 := magnitude - floors;
    OrdersAreTotal();
    SortSlice(c, RemainderLe);
    SameLength(c[..], c0);
    ghost var cs := c[..];
    ghost var u := AwardShortfall(c, shortfall, c0);
    SplitOf(magnitude, shares, c0, cs, u, shortfall);
    SortSlice(c, CandidateAccountLe);
    UnitsFit(magnitude, shares, c[..], u);
    out := Emit(c[..], negative);
    Conclude(total, shares, c[..], u, out);
  }

  lemma UnitsFit(p: nat, shares: seq<Share>, c: seq<Candidate>, u: seq<Candidate>)
    requires Divisible(shares) && p <= MAX && |u| == |shares| && IsSplit(p, shares, Units(u))
    requires multiset(c) == multiset(u)
    ensures forall i :: 0 <= i < |c| ==> 0 <= c[i].base <= MAX
  {
    SameMembers(c, u);
    forall i | 0 <= i < |c| ensures 0 <= c[i].base <= MAX {
      assert c[i] in u;
      var k :| 0 <= k < |u| && u[k] == c[i];
      UnitInRange(p, shares, Units(u), k);
    }
  }

  lemma Conclude(total: int, shares: seq<Share>, c: seq<Candidate>, u: seq<Candidate>, out: seq<Allocation>)
    requires Divisible(shares) && IsSplit(Magnitude(total), shares, Units(u)) && multiset(c) == multiset(u)
    requires |u| == |shares| && forall i :: 0 <= i < |u| ==> u[i].account == shares[i].account
    requires Pairs(out) == CandidateRows(c, if total < 0 then -1 else 1) && Sorted(AccountLe, out)
    ensures IsAllocation(total, shares, out)
  {
    var sign := if total < 0 then -1 else 1;
    CandidateRowsPermute(c, u, sign);
    CandidateRowsAreRows(shares, u, sign);
    assert SplitsInto(total, shares, Units(u), out);
  }
}
