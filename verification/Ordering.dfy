/** Orders on strings and the sorting the queries and the Go code rely on. */
module Ordering {
  import opened Wrappers

  /**
   * Go compares strings, and SQLite compares TEXT, byte by byte. On valid UTF-8 that is the
   * order of the code points, which is the order of Dafny's characters.
   */
  predicate StrLe(a: string, b: string) {
    a == [] || (b != [] && (a[0] < b[0] || (a[0] == b[0] && StrLe(a[1..], b[1..]))))
  }

  predicate StrLt(a: string, b: string) { StrLe(a, b) && a != b }

  /** The texts agree before `i` and there the first has the smaller character. */
  predicate DiffersAt(a: string, b: string, i: nat) { i < |a| && i < |b| && a[..i] == b[..i] && a[i] < b[i] }

  lemma DiffersLater(a: string, b: string, i: nat)
    requires a != [] && b != [] && a[0] == b[0]
    ensures DiffersAt(a, b, i + 1) <==> DiffersAt(a[1..], b[1..], i)
  {
    if i + 1 < |a| && i + 1 < |b| {
      assert a[..i + 1] == [a[0]] + a[1..][..i] && b[..i + 1] == [b[0]] + b[1..][..i];
      assert a[1..][..i] == a[..i + 1][1..] && b[1..][..i] == b[..i + 1][1..];
    }
  }

  /** A prefix comes first; other texts compare by the first character in which they differ. */
  lemma {:induction false} StrLeIs(a: string, b: string)
    ensures StrLe(a, b) <==> a <= b || exists i: nat :: DiffersAt(a, b, i)
  {
    if a == [] || b == [] {
    } else if a[0] == b[0] {
      var s, t := a[1..], b[1..];
      StrLeIs(s, t);
      assert a == [a[0]] + s && b == [b[0]] + t;
      if i: nat :| DiffersAt(s, t, i) { DiffersLater(a, b, i); }
      if i: nat :| DiffersAt(a, b, i) {
        assert i > 0;
        DiffersLater(a, b, i - 1);
      }
    } else {
      assert a[..0] == b[..0];
      if a[0] < b[0] { assert DiffersAt(a, b, 0); }
      forall i: nat | 0 < i && DiffersAt(a, b, i) ensures a[0] < b[0] { assert a[..i][0] == b[..i][0]; }
    }
  }

  lemma StrLeReflexive(a: string)
    ensures StrLe(a, a)
  {}

  lemma {:induction false} StrLeTotal(a: string, b: string)
    ensures StrLe(a, b) || StrLe(b, a)
  {
    if a != [] && b != [] { StrLeTotal(a[1..], b[1..]); }
  }

  lemma {:induction false} StrLeAntisymmetric(a: string, b: string)
    requires StrLe(a, b) && StrLe(b, a)
    ensures a == b
  {
    if a != [] && b != [] {
      StrLeAntisymmetric(a[1..], b[1..]);
      assert a == [a[0]] + a[1..] && b == [b[0]] + b[1..];
    }
  }

  lemma {:induction false} StrLeTransitive(a: string, b: string, c: string)
    requires StrLe(a, b) && StrLe(b, c)
    ensures StrLe(a, c)
  {
    if a != [] && a[0] == b[0] && b[0] == c[0] { StrLeTransitive(a[1..], b[1..], c[1..]); }
  }

  /** Strings of one length compare by their first difference, whatever follows them. */
  lemma {:induction false} StrLtExtends(a: string, b: string, x: string, y: string)
    requires |a| == |b| && StrLt(a, b)
    ensures StrLt(a + x, b + y)
  {
    assert (a + x)[0] == a[0] && (b + y)[0] == b[0];
    assert (a + x)[1..] == a[1..] + x && (b + y)[1..] == b[1..] + y;
    if a[0] == b[0] {
      assert a == [a[0]] + a[1..] && b == [b[0]] + b[1..];
      StrLtExtends(a[1..], b[1..], x, y);
    }
  }

  // ---- sorting by a total order ----

  ghost predicate Total<T(!new)>(le: (T, T) -> bool) { forall a, b :: le(a, b) || le(b, a) }

  ghost predicate Transitive<T(!new)>(le: (T, T) -> bool) {
    forall a, b, c :: le(a, b) && le(b, c) ==> le(a, c)
  }

  predicate Sorted<T>(le: (T, T) -> bool, s: seq<T>) {
    forall i, j :: 0 <= i < j < |s| ==> le(s[i], s[j])
  }

  function Insert<T>(le: (T, T) -> bool, x: T, s: seq<T>): seq<T> {
    if s == [] then [x]
    else if le(x, s[0]) then [x] + s
    else [s[0]] + Insert(le, x, s[1..])
  }

  /** What `ORDER BY` and `sort.Slice` produce when no two keys are equal. */
  function Sort<T>(le: (T, T) -> bool, s: seq<T>): seq<T> {
    if s == [] then [] else Insert(le, s[0], Sort(le, s[1..]))
  }

  lemma {:induction false} InsertKeeps<T>(le: (T, T) -> bool, x: T, s: seq<T>)
    ensures multiset(Insert(le, x, s)) == multiset(s) + multiset{x}
    ensures |Insert(le, x, s)| == |s| + 1
  {
    if s != [] && !le(x, s[0]) {
      InsertKeeps(le, x, s[1..]);
      assert s == [s[0]] + s[1..];
    }
  }

  lemma {:induction false} SortKeeps<T>(le: (T, T) -> bool, s: seq<T>)
    ensures multiset(Sort(le, s)) == multiset(s)
    ensures |Sort(le, s)| == |s|
  {
    if s != [] {
      SortKeeps(le, s[1..]);
      InsertKeeps(le, s[0], Sort(le, s[1..]));
      assert s == [s[0]] + s[1..];
    }
  }

  lemma SortMembers<T>(le: (T, T) -> bool, s: seq<T>)
    ensures forall x :: x in Sort(le, s) <==> x in s
  {
    SortKeeps(le, s);
    forall x ensures x in Sort(le, s) <==> x in s {
      assert x in Sort(le, s) <==> x in multiset(Sort(le, s));
      assert x in s <==> x in multiset(s);
    }
  }

  lemma {:induction false} InsertSorted<T(!new)>(le: (T, T) -> bool, x: T, s: seq<T>)
    requires Total(le) && Transitive(le) && Sorted(le, s)
    ensures Sorted(le, Insert(le, x, s))
  {
    if s == [] {
    } else if le(x, s[0]) {
      forall j | 0 <= j < |s| ensures le(x, s[j]) { if j > 0 { assert le(s[0], s[j]); } }
    } else {
      InsertSorted(le, x, s[1..]);
      InsertKeeps(le, x, s[1..]);
      var r := Insert(le, x, s[1..]);
      forall j | 0 <= j < |r| ensures le(s[0], r[j]) {
        assert r[j] in multiset(r);
        if r[j] != x { assert r[j] in s[1..]; }
      }
    }
  }

  lemma {:induction false} SortSorts<T(!new)>(le: (T, T) -> bool, s: seq<T>)
    requires Total(le) && Transitive(le)
    ensures Sorted(le, Sort(le, s))
  {
    if s != [] {
      SortSorts(le, s[1..]);
      InsertSorted(le, s[0], Sort(le, s[1..]));
    }
  }

  /** A sorted sequence is left alone, so sorting twice is sorting once. */
  lemma {:induction false} SortFixes<T>(le: (T, T) -> bool, s: seq<T>)
    requires Sorted(le, s)
    ensures Sort(le, s) == s
  {
    if s != [] {
      SortFixes(le, s[1..]);
      assert s == [s[0]] + s[1..];
      if |s| > 1 { assert le(s[0], s[1]); }
    }
  }

  /** Strictly ordered by `le`: sorted, and no two positions equal. */
  ghost predicate Strict<T>(le: (T, T) -> bool, s: seq<T>) {
    forall i, j :: 0 <= i < j < |s| ==> le(s[i], s[j]) && !le(s[j], s[i])
  }

  /** Two strictly ordered sequences with the same members are the same sequence. */
  lemma {:induction false} StrictUnique<T>(le: (T, T) -> bool, s: seq<T>, t: seq<T>)
    requires Strict(le, s) && Strict(le, t)
    requires forall x :: x in s <==> x in t
    ensures s == t
  {
    assert t != [] ==> t[0] in t;
    if s != [] {
      assert s[0] in s;
      assert t[0] in t && t[0] in s && s[0] in t;
      var i :| 0 <= i < |s| && s[i] == t[0];
      var j :| 0 <= j < |t| && t[j] == s[0];
      forall x ensures x in s[1..] <==> x in t[1..] {
        if x in s[1..] { StrictTail(le, s, x); assert x in t; }
        if x in t[1..] { StrictTail(le, t, x); assert x in s; }
      }
      StrictUnique(le, s[1..], t[1..]);
      assert s == [s[0]] + s[1..] && t == [t[0]] + t[1..];
    }
  }

  lemma StrictTail<T>(le: (T, T) -> bool, s: seq<T>, x: T)
    requires Strict(le, s) && s != [] && x in s[1..]
    ensures x != s[0] && x in s
  {
    var k :| 0 <= k < |s[1..]| && s[1..][k] == x;
    assert s[k + 1] == x;
  }

  lemma SortedSnoc<T>(le: (T, T) -> bool, s: seq<T>, x: T)
    requires Sorted(le, s) && forall k :: 0 <= k < |s| ==> le(s[k], x)
    ensures Sorted(le, s + [x])
  {}

  // ---- keys that occur once ----

  ghost predicate DistinctBy<T, K>(key: T -> K, s: seq<T>) {
    forall i, j :: 0 <= i < j < |s| ==> key(s[i]) != key(s[j])
  }

  lemma SameMembers<T>(s: seq<T>, t: seq<T>)
    requires multiset(s) == multiset(t)
    ensures forall x :: x in s <==> x in t
  {
    forall x ensures x in s <==> x in t {
      assert x in s <==> x in multiset(s);
      assert x in t <==> x in multiset(t);
    }
  }

  lemma {:induction false} OnceIfDistinct<T, K>(key: T -> K, s: seq<T>, x: T)
    requires DistinctBy(key, s)
    ensures multiset(s)[x] <= 1
  {
    if s != [] {
      var n := |s| - 1;
      assert s == s[..n] + [s[n]];
      OnceIfDistinct(key, s[..n], x);
      assert forall i :: 0 <= i < n ==> key(s[i]) != key(s[n]);
      assert x == s[n] ==> x !in s[..n];
      assert x !in s[..n] ==> multiset(s[..n])[x] == 0;
    }
  }

  lemma DistinctPermutes<T, K>(key: T -> K, s: seq<T>, t: seq<T>)
    requires multiset(s) == multiset(t) && DistinctBy(key, t)
    ensures DistinctBy(key, s)
  {
    SameMembers(s, t);
    forall i, j | 0 <= i < j < |s| ensures key(s[i]) != key(s[j]) {
      if key(s[i]) == key(s[j]) {
        assert s[i] in t && s[j] in t;
        assert s == s[..i] + [s[i]] + s[i + 1..j] + [s[j]] + s[j + 1..];
        OnceIfDistinct(key, t, s[i]);
      }
    }
  }

  // ---- rows past a cursor ----

  function Filter<T>(p: T -> bool, s: seq<T>): seq<T> {
    if s == [] then [] else Filter(p, s[..|s| - 1]) + if p(s[|s| - 1]) then [s[|s| - 1]] else []
  }

  lemma {:induction false} FilterMembers<T>(p: T -> bool, s: seq<T>)
    ensures forall x :: x in Filter(p, s) <==> x in s && p(x)
  {
    if s != [] {
      var n := |s| - 1;
      assert s == s[..n] + [s[n]];
      FilterMembers(p, s[..n]);
    }
  }

  lemma {:induction false} FilterAll<T>(p: T -> bool, s: seq<T>)
    requires forall x :: x in s ==> p(x)
    ensures Filter(p, s) == s
  {
    if s != [] {
      var n := |s| - 1;
      assert s == s[..n] + [s[n]];
      FilterAll(p, s[..n]);
    }
  }

  lemma {:induction false} FilterNone<T>(p: T -> bool, s: seq<T>)
    requires forall x :: x in s ==> !p(x)
    ensures Filter(p, s) == []
  {
    if s != [] {
      var n := |s| - 1;
      assert s == s[..n] + [s[n]];
      FilterNone(p, s[..n]);
    }
  }

  /** Along an ordered listing, what lies past a cursor is a suffix. */
  lemma {:induction false} FilterIsSuffix<T>(p: T -> bool, s: seq<T>) returns (from: nat)
    requires forall i, j :: 0 <= i < j < |s| && p(s[i]) ==> p(s[j])
    ensures from <= |s| && Filter(p, s) == s[from..]
    ensures forall i :: 0 <= i < |s| ==> (p(s[i]) <==> from <= i)
  {
    if s == [] {
      from := 0;
    } else {
      var n := |s| - 1;
      assert s == s[..n] + [s[n]];
      from := FilterIsSuffix(p, s[..n]);
      forall i | 0 <= i < n ensures p(s[i]) <==> from <= i { assert s[..n][i] == s[i]; }
      assert from < n ==> p(s[from]);
      if !p(s[n]) {
        from := n + 1;
        assert s[..n][n..] + [] == s[n + 1..];
      } else {
        assert s[..n][from..] + [s[n]] == s[from..];
      }
    }
  }

  // ---- rewriting every element ----

  lemma {:induction false} InsertMaps<T>(le: (T, T) -> bool, f: T -> T, x: T, s: seq<T>)
    requires forall a, b :: le(f(a), f(b)) == le(a, b)
    ensures Map(f, Insert(le, x, s)) == Insert(le, f(x), Map(f, s))
  {
    hide Map;
    if s == [] {
      assert Map(f, [x]) == [f(x)];
    } else {
      InsertMaps(le, f, x, s[1..]);
      assert Map(f, s)[0] == f(s[0]);
      assert Map(f, s)[1..] == Map(f, s[1..]);
      if le(x, s[0]) {
        assert Map(f, [x] + s) == [f(x)] + Map(f, s);
      } else {
        assert Map(f, [s[0]] + Insert(le, x, s[1..])) == [f(s[0])] + Map(f, Insert(le, x, s[1..]));
      }
    }
  }

  lemma {:induction false} SortMaps<T>(le: (T, T) -> bool, f: T -> T, s: seq<T>)
    requires forall a, b :: le(f(a), f(b)) == le(a, b)
    ensures Map(f, Sort(le, s)) == Sort(le, Map(f, s))
  {
    if s != [] {
      SortMaps(le, f, s[1..]);
      InsertMaps(le, f, s[0], Sort(le, s[1..]));
      assert Map(f, s)[1..] == Map(f, s[1..]);
    }
  }

  lemma {:induction false} FilterMaps<T>(p: T -> bool, f: T -> T, s: seq<T>)
    requires forall x :: p(f(x)) == p(x)
    ensures Filter(p, Map(f, s)) == Map(f, Filter(p, s))
  {
    if s != [] {
      var n := |s| - 1;
      assert Map(f, s)[..n] == Map(f, s[..n]);
      FilterMaps(p, f, s[..n]);
    }
  }
}
