/** White space as Go trims it (`strings.TrimSpace`): Unicode's, no-break space included. */
module Blanks {
  predicate IsSpace(c: char) {
    '\t' <= c <= '\r' || c == ' ' || c == '\U{85}' || c == '\U{A0}' || c == '\U{1680}' || '\U{2000}' <= c <= '\U{200A}'
    || c == '\U{2028}' || c == '\U{2029}' || c == '\U{202F}' || c == '\U{205F}' || c == '\U{3000}'
  }

  function TrimLeft(s: string): string { if s != "" && IsSpace(s[0]) then TrimLeft(s[1..]) else s }

  function TrimRight(s: string): string { if s != "" && IsSpace(s[|s| - 1]) then TrimRight(s[..|s| - 1]) else s }

  function TrimSpace(s: string): string { TrimRight(TrimLeft(s)) }

  predicate Trimmed(path: string) { path != "" && !IsSpace(path[0]) && !IsSpace(path[|path| - 1]) }

  lemma TrimmedIsKept(path: string)
    requires Trimmed(path)
    ensures TrimSpace(path) == path
  {}

  lemma {:induction false} TrimRightIsPrefix(s: string) returns (k: nat)
    ensures k <= |s| && TrimRight(s) == s[..k]
  {
    if s != "" && IsSpace(s[|s| - 1]) {
      k := TrimRightIsPrefix(s[..|s| - 1]);
      assert s[..|s| - 1][..k] == s[..k];
    } else {
      k := |s|;
      assert s[..k] == s;
    }
  }

  lemma {:induction false} TrimLeftIsSuffix(s: string) returns (k: nat)
    ensures k <= |s| && TrimLeft(s) == s[k..] && forall i :: 0 <= i < k ==> IsSpace(s[i])
    ensures k < |s| ==> !IsSpace(s[k])
  {
    if s != "" && IsSpace(s[0]) {
      k := TrimLeftIsSuffix(s[1..]);
      k := k + 1;
    } else {
      k := 0;
    }
  }

  lemma {:induction false} TrimRightKeeps(s: string)
    ensures var t := TrimRight(s);
      && t <= s && (forall i :: |t| <= i < |s| ==> IsSpace(s[i])) && (t != "" ==> !IsSpace(t[|t| - 1]))
  {
    if s != "" && IsSpace(s[|s| - 1]) { TrimRightKeeps(s[..|s| - 1]); }
  }

  /** Trimming takes white space off both ends, and all of it. */
  lemma TrimSpaceIs(s: string)
    ensures exists i, j :: 0 <= i <= j <= |s| && TrimSpace(s) == s[i..j]
              && (forall k :: 0 <= k < i || j <= k < |s| ==> IsSpace(s[k]))
              && (i < j ==> !IsSpace(s[i]) && !IsSpace(s[j - 1]))
  {
    var i := TrimLeftIsSuffix(s);
    TrimRightKeeps(s[i..]);
    var t := TrimSpace(s);
    var j := i + |t|;
    assert s[i..j] == s[i..][..|t|] == t;
    forall k | j <= k < |s| ensures IsSpace(s[k]) { assert s[i..][k - i] == s[k]; }
  }

  /** The code points that Go's unicode.IsSpace takes: White_Space of Unicode. */
  lemma SpacesAre(c: char)
    ensures IsSpace(c) <==>
      c as int in {9, 10, 11, 12, 13, 0x20, 0x85, 0xA0, 0x1680, 0x2028, 0x2029, 0x202F, 0x205F, 0x3000}
      || 0x2000 <= c as int <= 0x200A
  {}
}
