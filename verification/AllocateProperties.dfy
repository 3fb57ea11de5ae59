/** What every largest-remainder allocation satisfies, whatever sort the code ran. */
module AllocateProperties {
  import opened Int64
  import opened Ordering
  import opened Allocate

  function Amount(row: (string, int)): int { row.1 }

  lemma {:induction false} RowsSum(shares: seq<Share>, units: seq<int>, sign: int)
    requires |shares| == |units|
    requires sign == 1 || sign == -1
    ensures SumBy(Amount, Rows(shares, units, sign)) == sign * Sum(units)
    ensures forall k :: 0 <= k < |Rows(shares, units, sign)| ==> Rows(shares, units, sign)[k].1 != 0
  {
    if shares != [] {
      var n := |shares| - 1;
      RowsSum(shares[..n], units[..n], sign);
      assert sign * units[n] == if sign == 1 then units[n] else -units[n];
      assert Rows(shares[..n], units[..n], sign) + [] == Rows(shares[..n], units[..n], sign);
      SumBySnoc(Amount, Rows(shares[..n], units[..n], sign), (shares[n].account, sign * units[n]));
      Distribute(Sum(units[..n]), units[n], sign);
    }
  }

  ghost function Total(out: seq<Allocation>): int { SumBy((a: Allocation) => a.amount, out) }

  lemma {:induction false} TotalOfPairs(out: seq<Allocation>)
    ensures Total(out) == SumBy(Amount, Pairs(out)) && |Pairs(out)| == |out|
    ensures forall k :: 0 <= k < |out| ==> Pairs(out)[k] == Pair(out[k])
  {
    if out != [] {
      var n := |out| - 1;
      assert out == out[..n] + [out[n]];
      TotalOfPairs(out[..n]);
      SumBySnoc((a: Allocation) => a.amount, out[..n], out[n]);
      SumBySnoc(Amount, Pairs(out[..n]), Pair(out[n]));
    }
  }

  /** Conservation: the parts sum to exactly the amount, of either sign, and no part is zero. */
  lemma AllocationIsExact(total: int, shares: seq<Share>, out: seq<Allocation>)
    requires total != 0 && Divisible(shares) && IsAllocation(total, shares, out)
    ensures Total(out) == total
    ensures forall a :: a in out ==> a.amount != 0
  {
    var units :| SplitsInto(total, shares, units, out);
    RowsAreExact(total, shares, units, out);
  }

  lemma RowsAreExact(total: int, shares: seq<Share>, units: seq<int>, out: seq<Allocation>)
    requires |shares| == |units| && Sum(units) == Magnitude(total)
    requires multiset(Pairs(out)) == multiset(Rows(shares, units, if total < 0 then -1 else 1))
    ensures Total(out) == total
    ensures forall a :: a in out ==> a.amount != 0
  {
    var sign := if total < 0 then -1 else 1;
    var rows := Rows(shares, units, sign);
    RowsSum(shares, units, sign);
    TotalOfPairs(out);
    SumByPermutes(Amount, Pairs(out), rows);
    SameMembers(Pairs(out), rows);
    forall a | a in out ensures a.amount != 0 {
      var k :| 0 <= k < |out| && out[k] == a;
      assert Pairs(out)[k] in rows;
    }
  }

  ghost predicate UnitsAreFloors(p: nat, w: int, shares: seq<Share>, units: seq<int>)
    requires w > 0
  {
    && |units| == |shares|
    && forall j :: 0 <= j < |units| ==>
         && Base(p, w, shares[j]) <= units[j] <= Base(p, w, shares[j]) + 1
         && (units[j] == Base(p, w, shares[j]) ==> Remainder(p, w, shares[j]) == 0)
  }

  /** If only exact quotas go without an extra unit, the extra units outweigh the remainders. */
  lemma {:induction false} RemaindersBelowExtras(p: nat, w: int, shares: seq<Share>, units: seq<int>)
    requires w > 0 && UnitsAreFloors(p, w, shares, units)
    ensures 0 <= Sum(units) - Bases(p, w, shares)
    ensures Remainders(p, w, shares) <= (Sum(units) - Bases(p, w, shares)) * (w - 1)
  {
    if shares != [] {
      var n := |shares| - 1;
      assert shares == shares[..n] + [shares[n]];
      RemaindersBelowExtras(p, w, shares[..n], units[..n]);
      BasesSnoc(p, w, shares[..n], shares[n]);
      QuotaIsExact(p, w, shares[n]);
      Distribute(Sum(units[..n]) - Bases(p, w, shares[..n]), units[n] - Base(p, w, shares[n]), w - 1);
      var extra := units[n] - Base(p, w, shares[n]);
      assert extra * (w - 1) == if extra == 0 then 0 else w - 1;
    }
  }

  /** A share whose quota is whole gets exactly that: the extra units go to the others. */
  lemma WholeQuotaGetsNoExtra(p: nat, shares: seq<Share>, units: seq<int>, i: nat)
    requires Divisible(shares) && IsSplit(p, shares, units) && i < |shares|
    requires Remainder(p, WeightSum(shares), shares[i]) == 0
    ensures units[i] == Base(p, WeightSum(shares), shares[i])
  {
    var w := WeightSum(shares);
    if units[i] != Base(p, w, shares[i]) {
      forall j | 0 <= j < |units| && units[j] == Base(p, w, shares[j])
        ensures Remainder(p, w, shares[j]) == 0
      {
        QuotaIsExact(p, w, shares[j]);
        assert !Before(p, w, shares[j], shares[i]);
      }
      assert UnitsAreFloors(p, w, shares, units);
      RemaindersBelowExtras(p, w, shares, units);
      QuotasAreExact(p, w, shares);
      var extras := p - Bases(p, w, shares);
      Distribute(Bases(p, w, shares), extras, w);
      assert extras * w <= extras * (w - 1);
      Distribute(w - 1, 1, extras);
      assert extras == 0;
      ExtrasCount(p, w, shares, units, i);
    }
  }

  /** If the units sum to the floors, every unit is its floor. */
  lemma {:induction false} ExtrasCount(p: nat, w: int, shares: seq<Share>, units: seq<int>, i: nat)
    requires w > 0 && UnitsAreFloors(p, w, shares, units) && i < |units|
    ensures Sum(units) - Bases(p, w, shares) >= units[i] - Base(p, w, shares[i])
  {
    var n := |shares| - 1;
    assert shares == shares[..n] + [shares[n]];
    BasesSnoc(p, w, shares[..n], shares[n]);
    RemaindersBelowExtras(p, w, shares[..n], units[..n]);
    if i < n { ExtrasCount(p, w, shares[..n], units[..n], i); }
  }

  /** A share of weight zero receives nothing. */
  lemma ZeroWeightGetsNothing(p: nat, shares: seq<Share>, units: seq<int>, i: nat)
    requires Divisible(shares) && IsSplit(p, shares, units) && i < |shares| && shares[i].weight == 0
    ensures units[i] == 0
  {
    var w := WeightSum(shares);
    assert p * shares[i].weight == 0;
    WholeQuotaGetsNoExtra(p, shares, units, i);
  }

  /** Each part is within one unit of the exact quota `p * w_i / W`, stated without dividing. */
  lemma WithinOneUnitOfQuota(p: nat, shares: seq<Share>, units: seq<int>, i: nat)
    requires Divisible(shares) && IsSplit(p, shares, units) && i < |shares|
    ensures var w := WeightSum(shares);
            -w < units[i] * w - p * shares[i].weight < w
  {
    var w := WeightSum(shares);
    var base := Base(p, w, shares[i]);
    QuotaIsExact(p, w, shares[i]);
    Distribute(base, units[i] - base, w);
    assert (units[i] - base) * w == if units[i] == base then 0 else w;
    if Remainder(p, w, shares[i]) == 0 { WholeQuotaGetsNoExtra(p, shares, units, i); }
  }

  /** A strictly heavier share never receives less than a lighter one. */
  lemma HeavierGetsNoLess(p: nat, shares: seq<Share>, units: seq<int>, i: nat, j: nat)
    requires Divisible(shares) && IsSplit(p, shares, units) && i < |shares| && j < |shares|
    requires shares[i].weight > shares[j].weight
    ensures units[i] >= units[j]
  {
    if p == 0 {
      UnitInRange(p, shares, units, i);
      UnitInRange(p, shares, units, j);
    } else {
      HeavierComesFirst(p, WeightSum(shares), shares[i], shares[j]);
    }
  }

  lemma HeavierComesFirst(p: nat, w: int, a: Share, b: Share)
    requires w > 0 && p > 0 && a.weight > b.weight
    ensures Base(p, w, a) > Base(p, w, b) || (Base(p, w, a) == Base(p, w, b) && Before(p, w, a, b))
  {
    QuotaIsExact(p, w, a);
    QuotaIsExact(p, w, b);
    StrictProduct(p, b.weight, a.weight);
    FloorsFollow(Base(p, w, a), Base(p, w, b), w, Remainder(p, w, a), Remainder(p, w, b));
  }

  lemma StrictProduct(p: int, x: int, y: int)
    requires p > 0 && x < y
    ensures p * x < p * y
  {}

  lemma FloorsFollow(bi: int, bj: int, w: int, ri: int, rj: int)
    requires w > 0 && bj * w + rj <= bi * w + ri && 0 <= ri < w && 0 <= rj
    ensures bi >= bj
  {
    assert (bj - bi) * w < w by { Distribute(bi, bj - bi, w); }
    ScaledAtMost(bj - bi, 0, w);
  }

  // ---- determinism ----

  ghost predicate DistinctAccounts(shares: seq<Share>) {
    DistinctBy((s: Share) => s.account, shares)
  }

  /** The shares that come before `x`, as a set: this does not depend on the order of `shares`. */
  ghost function Ahead(p: nat, w: int, shares: seq<Share>, x: Share): set<Share>
    requires w > 0
  {
    set y | y in shares && Before(p, w, y, x)
  }

  ghost function WithExtra(p: nat, w: int, shares: seq<Share>, units: seq<int>): set<Share>
    requires w > 0 && |units| == |shares|
  {
    set i | 0 <= i < |shares| && units[i] > Base(p, w, shares[i]) :: shares[i]
  }

  lemma {:induction false} WithExtraSize(p: nat, w: int, shares: seq<Share>, units: seq<int>)
    requires w > 0 && |units| == |shares| && DistinctAccounts(shares)
    requires forall j :: 0 <= j < |units| ==> Base(p, w, shares[j]) <= units[j] <= Base(p, w, shares[j]) + 1
    ensures |WithExtra(p, w, shares, units)| == Sum(units) - Bases(p, w, shares)
  {
    if shares != [] {
      var n := |shares| - 1;
      assert shares == shares[..n] + [shares[n]];
      WithExtraSize(p, w, shares[..n], units[..n]);
      BasesSnoc(p, w, shares[..n], shares[n]);
      WithExtraSnoc(p, w, shares, units);
    }
  }

  lemma WithExtraSnoc(p: nat, w: int, shares: seq<Share>, units: seq<int>)
    requires w > 0 && |units| == |shares| > 0 && DistinctAccounts(shares)
    ensures var n := |shares| - 1;
            var before := WithExtra(p, w, shares[..n], units[..n]);
            && shares[n] !in before
            && WithExtra(p, w, shares, units)
               == before + if units[n] > Base(p, w, shares[n]) then {shares[n]} else {}
  {
    var n := |shares| - 1;
    assert forall i :: 0 <= i < n ==> shares[..n][i] == shares[i] && units[..n][i] == units[i];
  }

  lemma BeforeIsStrict(p: nat, w: int, a: Share, b: Share)
    requires w > 0 && a.account != b.account
    ensures Before(p, w, a, b) <==> !Before(p, w, b, a)
    ensures !Before(p, w, a, a)
  {
    StrLeTotal(a.account, b.account);
    if StrLe(a.account, b.account) && StrLe(b.account, a.account) {
      StrLeAntisymmetric(a.account, b.account);
    }
  }

  lemma AheadOfAnExtra(p: nat, shares: seq<Share>, units: seq<int>, i: nat)
    requires Divisible(shares) && IsSplit(p, shares, units) && i < |shares|
    requires units[i] > Base(p, WeightSum(shares), shares[i])
    ensures var w := WeightSum(shares);
            Ahead(p, w, shares, shares[i]) <= WithExtra(p, w, shares, units) - {shares[i]}
  {
    var w := WeightSum(shares);
    forall y | y in Ahead(p, w, shares, shares[i])
      ensures y in WithExtra(p, w, shares, units) - {shares[i]}
    {
      var j :| 0 <= j < |shares| && shares[j] == y;
      assert units[j] > Base(p, w, shares[j]);
    }
  }

  lemma ExtrasAreAhead(p: nat, shares: seq<Share>, units: seq<int>, i: nat)
    requires Divisible(shares) && IsSplit(p, shares, units) && DistinctAccounts(shares) && i < |shares|
    requires units[i] == Base(p, WeightSum(shares), shares[i])
    ensures var w := WeightSum(shares);
            WithExtra(p, w, shares, units) <= Ahead(p, w, shares, shares[i])
  {
    var w := WeightSum(shares);
    forall y | y in WithExtra(p, w, shares, units)
      ensures y in Ahead(p, w, shares, shares[i])
    {
      var j :| 0 <= j < |shares| && units[j] > Base(p, w, shares[j]) && shares[j] == y;
      BeforeIsStrict(p, w, y, shares[i]);
    }
  }

  /** With distinct accounts the extra unit is decided by rank alone. */
  lemma ExtraByRank(p: nat, shares: seq<Share>, units: seq<int>, i: nat)
    requires Divisible(shares) && IsSplit(p, shares, units) && DistinctAccounts(shares) && i < |shares|
    ensures var w := WeightSum(shares);
            units[i] > Base(p, w, shares[i]) <==>
              |Ahead(p, w, shares, shares[i])| < p - Bases(p, w, shares)
  {
    var w := WeightSum(shares);
    var ahead, extra := Ahead(p, w, shares, shares[i]), WithExtra(p, w, shares, units);
    WithExtraSize(p, w, shares, units);
    if units[i] > Base(p, w, shares[i]) {
      AheadOfAnExtra(p, shares, units, i);
      assert shares[i] in extra;
      Smaller(ahead, extra - {shares[i]});
    } else {
      ExtrasAreAhead(p, shares, units, i);
      Smaller(extra, ahead);
    }
  }

  lemma {:induction false} Smaller<T>(a: set<T>, b: set<T>)
    requires a <= b
    ensures |a| <= |b|
    decreases a
  {
    if a != {} {
      var x :| x in a;
      Smaller(a - {x}, b - {x});
    }
  }

  /** Share `i` has this row. */
  predicate HasRow(shares: seq<Share>, units: seq<int>, sign: int, row: (string, int), i: nat)
    requires i < |shares| == |units|
  {
    units[i] != 0 && row == (shares[i].account, sign * units[i])
  }

  lemma RowsSnoc(shares: seq<Share>, units: seq<int>, sign: int, row: (string, int))
    requires |shares| == |units| && shares != []
    ensures var n := |shares| - 1;
            && (row in Rows(shares, units, sign) <==> row in Rows(shares[..n], units[..n], sign) || HasRow(shares, units, sign, row, n))
            && forall i: nat :: i < n ==> HasRow(shares[..n], units[..n], sign, row, i) == HasRow(shares, units, sign, row, i)
  {}

  lemma {:induction false} RowMembers(shares: seq<Share>, units: seq<int>, sign: int, row: (string, int))
    requires |shares| == |units|
    ensures row in Rows(shares, units, sign) <==> exists i: nat :: i < |shares| && HasRow(shares, units, sign, row, i)
  {
    hide HasRow;
    if shares != [] {
      hide Rows;
      var n := |shares| - 1;
      RowsSnoc(shares, units, sign, row);
      RowMembers(shares[..n], units[..n], sign, row);
      if i: nat :| i < n && HasRow(shares, units, sign, row, i) {
        assert HasRow(shares[..n], units[..n], sign, row, i);
      }
    }
  }

  /** Two orders of the same shares give a share the same units. */
  lemma SameUnits(p: nat, s: seq<Share>, us: seq<int>, i: nat, t: seq<Share>, ut: seq<int>, j: nat)
    requires multiset(s) == multiset(t) && DistinctAccounts(s) && DistinctAccounts(t)
    requires Divisible(s) && Divisible(t) && IsSplit(p, s, us) && IsSplit(p, t, ut)
    requires i < |s| && j < |t| && s[i] == t[j]
    ensures us[i] == ut[j]
  {
    SumByPermutes(Weight, s, t);
    var w := WeightSum(s);
    SumByPermutes((x: Share) => p * x.weight / w, s, t);
    SameMembers(s, t);
    assert Ahead(p, w, s, s[i]) == Ahead(p, w, t, t[j]);
    ExtraByRank(p, s, us, i);
    ExtraByRank(p, t, ut, j);
  }

  lemma RowsAgree(p: nat, s: seq<Share>, us: seq<int>, t: seq<Share>, ut: seq<int>, sign: int, row: (string, int))
    requires multiset(s) == multiset(t) && DistinctAccounts(s) && DistinctAccounts(t)
    requires Divisible(s) && Divisible(t) && IsSplit(p, s, us) && IsSplit(p, t, ut)
    requires row in Rows(s, us, sign)
    ensures row in Rows(t, ut, sign)
  {
    hide IsSplit, Divisible, DistinctAccounts, Rows, HasRow;
    SplitLength(p, s, us);
    SplitLength(p, t, ut);
    RowMembers(s, us, sign, row);
    RowMembers(t, ut, sign, row);
    var i: nat :| i < |s| && HasRow(s, us, sign, row, i);
    SameMembers(s, t);
    assert s[i] in t;
    var j: nat :| j < |t| && t[j] == s[i];
    SameUnits(p, s, us, i, t, ut, j);
    SameRow(s, us, i, t, ut, j, sign, row);
  }

  lemma SplitLength(p: nat, shares: seq<Share>, units: seq<int>)
    requires Divisible(shares) && IsSplit(p, shares, units)
    ensures |units| == |shares|
  {}

  lemma SameRow(s: seq<Share>, us: seq<int>, i: nat, t: seq<Share>, ut: seq<int>, j: nat, sign: int, row: (string, int))
    requires i < |s| == |us| && j < |t| == |ut| && s[i] == t[j] && us[i] == ut[j]
    ensures HasRow(s, us, sign, row, i) == HasRow(t, ut, sign, row, j)
  {}

  /** An allocation to distinct accounts names each account once. */
  lemma {:induction false} AccountsOnce(shares: seq<Share>, units: seq<int>, sign: int)
    requires |shares| == |units| && DistinctAccounts(shares)
    ensures var rows := Rows(shares, units, sign);
            DistinctBy((r: (string, int)) => r.0, rows)
  {
    if shares != [] {
      var n := |shares| - 1;
      AccountsOnce(shares[..n], units[..n], sign);
      var rows := Rows(shares[..n], units[..n], sign);
      forall a | 0 <= a < |rows| ensures rows[a].0 != shares[n].account {
        RowMembers(shares[..n], units[..n], sign, rows[a]);
      }
    }
  }

  lemma OutputIsStrict(total: int, shares: seq<Share>, units: seq<int>, out: seq<Allocation>)
    requires Divisible(shares) && DistinctAccounts(shares)
    requires SplitsInto(total, shares, units, out) && Sorted(AccountLe, out)
    ensures Strict(AccountLe, out)
  {
    var sign := if total < 0 then -1 else 1;
    AccountsOnce(shares, units, sign);
    DistinctPermutes((r: (string, int)) => r.0, Pairs(out), Rows(shares, units, sign));
    TotalOfPairs(out);
    forall a, b | 0 <= a < b < |out| ensures AccountLe(out[a], out[b]) && !AccountLe(out[b], out[a]) {
      assert Pairs(out)[a].0 != Pairs(out)[b].0;
      if AccountLe(out[b], out[a]) { StrLeAntisymmetric(out[a].account, out[b].account); }
    }
  }

  lemma OutputMembers(total: int, s: seq<Share>, us: seq<int>, o: seq<Allocation>,
                      t: seq<Share>, ut: seq<int>, q: seq<Allocation>, x: Allocation)
    requires multiset(s) == multiset(t) && DistinctAccounts(s) && DistinctAccounts(t)
    requires Divisible(s) && Divisible(t)
    requires SplitsInto(total, s, us, o) && SplitsInto(total, t, ut, q) && x in o
    ensures x in q
  {
    var sign := if total < 0 then -1 else 1;
    TotalOfPairs(o);
    TotalOfPairs(q);
    SameMembers(Pairs(o), Rows(s, us, sign));
    SameMembers(Pairs(q), Rows(t, ut, sign));
    var k :| 0 <= k < |o| && o[k] == x;
    assert Pairs(o)[k] == Pair(x);
    RowsAgree(Magnitude(total), s, us, t, ut, sign, Pair(x));
    assert Pair(x) in Pairs(q);
    var m :| 0 <= m < |q| && Pairs(q)[m] == Pair(x);
    assert q[m] == x;
  }

  /** Any two orders of the same shares with distinct accounts are written as the same rows. */
  lemma AllocationIsDeterministic(total: int, s: seq<Share>, o: seq<Allocation>, t: seq<Share>, q: seq<Allocation>)
    requires multiset(s) == multiset(t) && DistinctAccounts(s) && Divisible(s) && Divisible(t)
    requires IsAllocation(total, s, o) && IsAllocation(total, t, q)
    ensures o == q
  {
    DistinctPermutes((x: Share) => x.account, t, s);
    var us :| SplitsInto(total, s, us, o);
    var ut :| SplitsInto(total, t, ut, q);
    OutputIsStrict(total, s, us, o);
    OutputIsStrict(total, t, ut, q);
    forall x ensures x in o <==> x in q {
      if x in o { OutputMembers(total, s, us, o, t, ut, q, x); }
      if x in q { OutputMembers(total, t, ut, q, s, us, o, x); }
    }
    StrictUnique(AccountLe, o, q);
  }
}
