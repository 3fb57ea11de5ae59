/**
 * Go's base64.RawURLEncoding: section 5 of RFC 4648 without padding. The decoder skips line breaks
 * and does not look at the unused bits of the last character.
 */
module Base64 {
  import opened Wrappers
  import opened Rows

  function Digit64(n: int): (c: char)
    requires 0 <= n < 64
    ensures Value64(c) == Some(n) && c != '.' && c != '\n' && c != '\r' && c != '\0'
  {
    if n < 26 then 'A' + n as char
    else if n < 52 then 'a' + (n - 26) as char
    else if n < 62 then '0' + (n - 52) as char
    else if n == 62 then '-' else '_'
  }

  function Value64(c: char): (r: Option<int>)
    ensures r.Some? ==> 0 <= r.value < 64
  {
    if 'A' <= c <= 'Z' then Some(c as int - 'A' as int)
    else if 'a' <= c <= 'z' then Some(c as int - 'a' as int + 26)
    else if '0' <= c <= '9' then Some(c as int - '0' as int + 52)
    else if c == '-' then Some(62)
    else if c == '_' then Some(63)
    else None
  }

  function Encode(b: Bytes): (s: string)
    ensures |s| == |b| / 3 * 4 + if |b| % 3 == 0 then 0 else |b| % 3 + 1
  {
    if |b| == 0 then ""
    else if |b| == 1 then [Digit64(b[0] / 4), Digit64(b[0] % 4 * 16)]
    else if |b| == 2 then [Digit64(b[0] / 4), Digit64(b[0] % 4 * 16 + b[1] / 16), Digit64(b[1] % 16 * 4)]
    else
      [Digit64(b[0] / 4), Digit64(b[0] % 4 * 16 + b[1] / 16), Digit64(b[1] % 16 * 4 + b[2] / 64), Digit64(b[2] % 64)]
      + Encode(b[3..])
  }

  predicate IsLineBreak(c: char) { c == '\n' || c == '\r' }

  function WithoutBreaks(s: string): string {
    if s == "" then "" else (if IsLineBreak(s[0]) then "" else [s[0]]) + WithoutBreaks(s[1..])
  }

  predicate AllDigits(s: string) { forall i :: 0 <= i < |s| ==> Value64(s[i]).Some? }

  /** The bytes of a run of digits: three for each four, and one or two for what is left. */
  function Quads(s: string): Bytes
    requires AllDigits(s)
  {
    if |s| < 2 then []
    else
      var v0, v1 := Value64(s[0]).value, Value64(s[1]).value;
      if |s| == 2 then [v0 * 4 + v1 / 16]
      else
        var v2 := Value64(s[2]).value;
        if |s| == 3 then [v0 * 4 + v1 / 16, v1 % 16 * 16 + v2 / 4]
        else
          var v3 := Value64(s[3]).value;
          [v0 * 4 + v1 / 16, v1 % 16 * 16 + v2 / 4, v2 % 4 * 64 + v3] + Quads(s[4..])
  }

  /** A lone last character is an error, and so is any character outside the alphabet. */
  function Decode(s: string): Option<Bytes> {
    var text := WithoutBreaks(s);
    if AllDigits(text) && |text| % 4 != 1 then Some(Quads(text)) else None
  }

  // ---- the alphabet ----

  /** Table 2 of RFC 4648: four runs of the alphabet and two marks, and nothing else is a digit. */
  lemma DigitsAreTheAlphabet()
    ensures Digit64(0) == 'A' && Digit64(25) == 'Z' && Digit64(26) == 'a' && Digit64(51) == 'z'
    ensures Digit64(52) == '0' && Digit64(61) == '9' && Digit64(62) == '-' && Digit64(63) == '_'
    ensures forall n :: 0 <= n < 61 && n != 25 && n != 51 ==> Digit64(n + 1) as int == Digit64(n) as int + 1
    ensures forall c :: Value64(c).Some? ==> Digit64(Value64(c).value) == c
  {}

  lemma Three(x: byte, y: byte, z: byte)
    ensures Encode([x, y, z]) == [Digit64(x / 4), Digit64(x % 4 * 16 + y / 16), Digit64(y % 16 * 4 + z / 64), Digit64(z % 64)]
  {
    hide Digit64;
    assert [x, y, z][3..] == [] && Encode([]) == "";
  }

  lemma Digits()
    ensures Digit64(25) == 'Z' && Digit64(38) == 'm' && Digit64(61) == '9' && Digit64(47) == 'v'
    ensures Digit64(32) == 'g' && Digit64(60) == '8'
  {}

  /** Vectors of section 10 of RFC 4648, without the padding. */
  lemma VectorOfThree()
    ensures Encode([102, 111, 111]) == "Zm9v"
  {
    hide Digit64, Encode;
    Digits();
    Three(102, 111, 111);
  }

  lemma VectorsOfLess()
    ensures Encode([102]) == "Zg" && Encode([102, 111]) == "Zm8"
  {
    hide Digit64, Encode;
    Digits();
    One(102);
    Two(102, 111);
  }

  lemma One(x: byte)
    ensures Encode([x]) == [Digit64(x / 4), Digit64(x % 4 * 16)]
  {
    hide Digit64;
  }

  lemma Two(x: byte, y: byte)
    ensures Encode([x, y]) == [Digit64(x / 4), Digit64(x % 4 * 16 + y / 16), Digit64(y % 16 * 4)]
  {
    hide Digit64;
  }

  // ---- round trip ----

  lemma {:induction false} EncodeIsDigits(b: Bytes)
    ensures AllDigits(Encode(b))
    ensures forall i :: 0 <= i < |Encode(b)| ==> Encode(b)[i] !in {'.', '\n', '\r', '\0'}
  {
    if |b| >= 3 { EncodeIsDigits(b[3..]); }
  }

  lemma {:induction false} NothingToSkip(s: string)
    requires forall i :: 0 <= i < |s| ==> !IsLineBreak(s[i])
    ensures WithoutBreaks(s) == s
  {
    if s != "" {
      NothingToSkip(s[1..]);
      assert s == [s[0]] + s[1..];
    }
  }

  lemma ThreeBytes(x: byte, y: byte, z: byte)
    ensures x / 4 * 4 + (x % 4 * 16 + y / 16) / 16 == x
    ensures (x % 4 * 16 + y / 16) % 16 * 16 + (y % 16 * 4 + z / 64) / 4 == y
    ensures (y % 16 * 4 + z / 64) % 4 * 64 + z % 64 == z
  {}

  lemma Spelled(v: int)
    requires 0 <= v < 64
    ensures Value64(Digit64(v)) == Some(v)
  {}

  /** Four digits to three bytes, and the rest after them. */
  lemma QuadStep(v0: int, v1: int, v2: int, v3: int, rest: string)
    requires 0 <= v0 < 64 && 0 <= v1 < 64 && 0 <= v2 < 64 && 0 <= v3 < 64 && AllDigits(rest)
    ensures var s := [Digit64(v0), Digit64(v1), Digit64(v2), Digit64(v3)] + rest;
            AllDigits(s) && Quads(s) == [v0 * 4 + v1 / 16, v1 % 16 * 16 + v2 / 4, v2 % 4 * 64 + v3] + Quads(rest)
  {
    hide Digit64, Value64;
    Spelled(v0);
    Spelled(v1);
    Spelled(v2);
    Spelled(v3);
    var s := [Digit64(v0), Digit64(v1), Digit64(v2), Digit64(v3)] + rest;
    assert s[0] == Digit64(v0) && s[1] == Digit64(v1) && s[2] == Digit64(v2) && s[3] == Digit64(v3) && s[4..] == rest;
    assert forall i :: 4 <= i < |s| ==> s[i] == rest[i - 4];
  }

  lemma ShortQuads(v0: int, v1: int, v2: int)
    requires 0 <= v0 < 64 && 0 <= v1 < 64 && 0 <= v2 < 64
    ensures AllDigits([Digit64(v0), Digit64(v1)]) && Quads([Digit64(v0), Digit64(v1)]) == [v0 * 4 + v1 / 16]
    ensures AllDigits([Digit64(v0), Digit64(v1), Digit64(v2)])
    ensures Quads([Digit64(v0), Digit64(v1), Digit64(v2)]) == [v0 * 4 + v1 / 16, v1 % 16 * 16 + v2 / 4]
  {
    hide Digit64, Value64;
    Spelled(v0);
    Spelled(v1);
    Spelled(v2);
  }

  lemma ShortText(b: Bytes)
    ensures |b| == 1 ==> Encode(b) == [Digit64(b[0] / 4), Digit64(b[0] % 4 * 16)]
    ensures |b| == 2 ==> Encode(b) == [Digit64(b[0] / 4), Digit64(b[0] % 4 * 16 + b[1] / 16), Digit64(b[1] % 16 * 4)]
  {
    hide Digit64;
  }

  lemma ShortEncode(b: Bytes)
    requires 0 < |b| < 3
    ensures AllDigits(Encode(b)) && Quads(Encode(b)) == b
  {
    hide Digit64, Value64, Quads, AllDigits, Encode;
    ShortText(b);
    if |b| == 1 {
      ThreeBytes(b[0], 0, 0);
      ShortQuads(b[0] / 4, b[0] % 4 * 16, 0);
    } else {
      ThreeBytes(b[0], b[1], 0);
      ShortQuads(b[0] / 4, b[0] % 4 * 16 + b[1] / 16, b[1] % 16 * 4);
    }
  }

  lemma EncodeStep(b: Bytes)
    requires |b| >= 3
    ensures Encode(b) ==
      [Digit64(b[0] / 4), Digit64(b[0] % 4 * 16 + b[1] / 16), Digit64(b[1] % 16 * 4 + b[2] / 64), Digit64(b[2] % 64)]
      + Encode(b[3..])
  {
    hide Digit64;
  }

  lemma {:induction false} QuadsOfEncode(b: Bytes)
    ensures AllDigits(Encode(b)) && Quads(Encode(b)) == b
  {
    hide Digit64, Value64, Encode, Quads;
    EncodeIsDigits(b);
    if |b| == 0 {
      NoBytes();
    } else if |b| < 3 {
      ShortEncode(b);
    } else {
      EncodeIsDigits(b[3..]);
      QuadsOfEncode(b[3..]);
      EncodeStep(b);
      ThreeBytes(b[0], b[1], b[2]);
      QuadStep(b[0] / 4, b[0] % 4 * 16 + b[1] / 16, b[1] % 16 * 4 + b[2] / 64, b[2] % 64, Encode(b[3..]));
      assert b == [b[0], b[1], b[2]] + b[3..];
    }
  }

  lemma NoBytes()
    ensures Encode([]) == "" && Quads("") == []
  {}

  lemma RoundTrip(b: Bytes)
    ensures Decode(Encode(b)) == Some(b)
  {
    hide Encode, Quads, WithoutBreaks;
    EncodeIsDigits(b);
    NothingToSkip(Encode(b));
    QuadsOfEncode(b);
  }

  // ---- which texts decode alike ----

  lemma {:induction false} SkipShortens(s: string)
    ensures |WithoutBreaks(s)| <= |s|
    ensures |WithoutBreaks(s)| == |s| ==> WithoutBreaks(s) == s
  {
    if s != "" {
      SkipShortens(s[1..]);
      assert s == [s[0]] + s[1..];
    }
  }

  lemma {:induction false} QuadsLength(s: string)
    requires AllDigits(s) && |s| % 4 != 1
    ensures |Quads(s)| == |s| / 4 * 3 + if |s| % 4 == 0 then 0 else |s| % 4 - 1
  {
    if |s| >= 4 { QuadsLength(s[4..]); }
  }

  lemma ValueOnce(c: char, d: char)
    requires Value64(c).Some? && Value64(c) == Value64(d)
    ensures c == d
  {}

  lemma SameQuad(u0: int, u1: int, u2: int, u3: int, v0: int, v1: int, v2: int, v3: int)
    requires 0 <= u0 < 64 && 0 <= u1 < 64 && 0 <= u2 < 64 && 0 <= u3 < 64
    requires 0 <= v0 < 64 && 0 <= v1 < 64 && 0 <= v2 < 64 && 0 <= v3 < 64
    requires u0 * 4 + u1 / 16 == v0 * 4 + v1 / 16 && u1 % 16 * 16 + u2 / 4 == v1 % 16 * 16 + v2 / 4
    ensures u0 == v0 && u1 == v1 && u2 / 4 == v2 / 4
    ensures u2 % 4 * 64 + u3 == v2 % 4 * 64 + v3 ==> u2 == v2 && u3 == v3
  {}

  lemma QuadsStep(s: string)
    requires AllDigits(s) && |s| >= 4
    ensures AllDigits(s[4..])
    ensures var v0, v1, v2, v3 := Value64(s[0]).value, Value64(s[1]).value, Value64(s[2]).value, Value64(s[3]).value;
            Quads(s) == [v0 * 4 + v1 / 16, v1 % 16 * 16 + v2 / 4, v2 % 4 * 64 + v3] + Quads(s[4..])
  {
    hide Value64;
  }

  lemma FourDetermine(s: string, t: string)
    requires AllDigits(s) && AllDigits(t) && |s| >= 4 && |t| >= 4 && Quads(s) == Quads(t)
    ensures s[..4] == t[..4] && Quads(s[4..]) == Quads(t[4..])
  {
    hide Value64, Quads;
    QuadsStep(s);
    QuadsStep(t);
    var u0, u1, u2, u3 := Value64(s[0]).value, Value64(s[1]).value, Value64(s[2]).value, Value64(s[3]).value;
    var v0, v1, v2, v3 := Value64(t[0]).value, Value64(t[1]).value, Value64(t[2]).value, Value64(t[3]).value;
    var x, y := Quads(s), Quads(t);
    assert x[0] == y[0] && x[1] == y[1] && x[2] == y[2] && x[3..] == Quads(s[4..]) && y[3..] == Quads(t[4..]);
    SameQuad(u0, u1, u2, u3, v0, v1, v2, v3);
    ValueOnce(s[0], t[0]);
    ValueOnce(s[1], t[1]);
    ValueOnce(s[2], t[2]);
    ValueOnce(s[3], t[3]);
    assert s[..4] == [s[0], s[1], s[2], s[3]] && t[..4] == [t[0], t[1], t[2], t[3]];
  }

  lemma ShortDetermine(s: string, t: string)
    requires AllDigits(s) && AllDigits(t) && |s| == |t| && 2 <= |s| < 4 && Quads(s) == Quads(t)
    ensures s[..|s| - 1] == t[..|t| - 1]
  {
    hide Value64;
    var u0, u1, v0, v1 := Value64(s[0]).value, Value64(s[1]).value, Value64(t[0]).value, Value64(t[1]).value;
    assert Quads(s)[0] == Quads(t)[0];
    if |s| == 2 {
      SameQuad(u0, u1 / 16 * 16, 0, 0, v0, v1 / 16 * 16, 0, 0);
      ValueOnce(s[0], t[0]);
      assert s[..1] == [s[0]] && t[..1] == [t[0]];
    } else {
      assert Quads(s)[1] == Quads(t)[1];
      SameQuad(u0, u1, Value64(s[2]).value, 0, v0, v1, Value64(t[2]).value, 0);
      ValueOnce(s[0], t[0]);
      ValueOnce(s[1], t[1]);
      assert s[..2] == [s[0], s[1]] && t[..2] == [t[0], t[1]];
    }
  }

  /** Digits that decode alike are alike, up to a last character whose spare bits nobody reads. */
  lemma {:induction false} QuadsDetermine(s: string, t: string)
    requires AllDigits(s) && AllDigits(t) && |s| == |t| && |s| % 4 != 1 && Quads(s) == Quads(t)
    ensures |s| % 4 == 0 ==> s == t
    ensures |s| % 4 != 0 ==> s[..|s| - 1] == t[..|t| - 1]
  {
    hide Value64, Quads;
    if 2 <= |s| < 4 {
      ShortDetermine(s, t);
    } else if |s| >= 4 {
      FourDetermine(s, t);
      QuadsDetermine(s[4..], t[4..]);
      assert s == s[..4] + s[4..] && t == t[..4] + t[4..];
      if |s| % 4 != 0 { FirstFour(s, t); }
    }
  }

  lemma FirstFour(s: string, t: string)
    requires 4 < |s| == |t| && s[..4] == t[..4] && s[4..][..|s| - 5] == t[4..][..|t| - 5]
    ensures s[..|s| - 1] == t[..|t| - 1]
  {
    assert s[..|s| - 1] == s[..4] + s[4..][..|s| - 5] && t[..|t| - 1] == t[..4] + t[4..][..|t| - 5];
  }
}
