/**
 * Personal access tokens (internal/auth/token.go): a fixed-width printer and its parser. A
 * character here stands for one byte of the presented header.
 */
module AccessToken {
  import opened Wrappers
  import opened Rows
  import opened Base64

  const SCHEME: string := "dkp_pat_"
  const PREFIX_BYTES: int := 6
  const PREFIX_LEN: int := 8
  const SECRET_BYTES: int := 32
  const TOKEN_LEN: int := 60

  datatype Parsed = Parsed(prefix: string, secret: Bytes)

  datatype Malformed = Malformed

  /** What NewToken prints of the random bytes it drew. */
  function Plaintext(prefix: Bytes, secret: Bytes): string {
    SCHEME + Base64.Encode(prefix) + "_" + Base64.Encode(secret)
  }

  /** `parseToken`: positions are exact, and the separator is never searched for. */
  function Parse(presented: string): Result<Parsed, Malformed> {
    if |presented| != TOKEN_LEN || presented[..8] != SCHEME then Err(Malformed)
    else
      var rest := presented[8..];
      var prefix := rest[..PREFIX_LEN];
      if rest[PREFIX_LEN] != '_' then Err(Malformed)
      else
        var secret := Base64.Decode(rest[PREFIX_LEN + 1..]);
        if secret.None? || |secret.value| != SECRET_BYTES then Err(Malformed)
        else
          var raw := Base64.Decode(prefix);
          if raw.None? || |raw.value| != PREFIX_BYTES then Err(Malformed)
          else Ok(Parsed(prefix, secret.value))
  }

  /** A minted token parses back to its own parts, whatever underscores its text contains. */
  lemma MintedParses(prefix: Bytes, secret: Bytes)
    requires |prefix| == PREFIX_BYTES && |secret| == SECRET_BYTES
    ensures |Plaintext(prefix, secret)| == TOKEN_LEN
    ensures Parse(Plaintext(prefix, secret)) == Ok(Parsed(Base64.Encode(prefix), secret))
  {
    hide Base64.Encode, Base64.Decode;
    var p, s := Base64.Encode(prefix), Base64.Encode(secret);
    RoundTrip(prefix);
    RoundTrip(secret);
    var t := Plaintext(prefix, secret);
    assert t[..8] == SCHEME;
    assert t[8..] == p + "_" + s;
    assert t[8..][..8] == p && t[8..][8] == '_' && t[8..][9..] == s;
  }

  lemma FirstDigit(b: Bytes)
    requires |b| >= 3
    ensures Base64.Encode(b)[0] == Digit64(b[0] / 4)
  {}

  /** What splitting on the separator would have had to cope with. */
  lemma MintedCanHoldUnderscores()
    ensures exists prefix: Bytes, secret: Bytes :: |prefix| == PREFIX_BYTES && |secret| == SECRET_BYTES
              && '_' in Base64.Encode(prefix)
  {
    hide Base64.Encode;
    var prefix: Bytes := [255, 255, 255, 0, 0, 0];
    var secret: Bytes := seq(32, i => 0);
    FirstDigit(prefix);
    assert Base64.Encode(prefix)[0] == '_';
    assert |prefix| == PREFIX_BYTES && |secret| == SECRET_BYTES && '_' in Base64.Encode(prefix);
  }

  lemma DecodedLength(s: string, n: nat, m: nat)
    requires |s| == n && Base64.Decode(s).Some? && |Base64.Decode(s).value| == m
    requires n % 4 != 1 && m == n / 4 * 3 + if n % 4 == 0 then 0 else n % 4 - 1
    ensures WithoutBreaks(s) == s && AllDigits(s) && Base64.Decode(s).value == Quads(s)
  {
    hide WithoutBreaks, Quads;
    SkipShortens(s);
    QuadsLength(WithoutBreaks(s));
    if |WithoutBreaks(s)| < n { ShorterDecodesToLess(|WithoutBreaks(s)|, n); }
  }

  lemma ShorterDecodesToLess(k: nat, n: nat)
    requires k < n && k % 4 != 1 && n % 4 != 1
    ensures k / 4 * 3 + (if k % 4 == 0 then 0 else k % 4 - 1) < n / 4 * 3 + (if n % 4 == 0 then 0 else n % 4 - 1)
  {}

  /** The scheme, eight digits, the separator and forty-three digits. */
  predicate Shaped(presented: string) {
    && |presented| == TOKEN_LEN && presented[..8] == SCHEME && presented[16] == '_'
    && AllDigits(presented[8..16]) && AllDigits(presented[17..])
  }

  /** Exactly the shaped texts are accepted, and for what they spell. */
  lemma AcceptedIffShaped(presented: string)
    ensures Parse(presented).Ok? <==> Shaped(presented)
    ensures Shaped(presented) ==> Parse(presented) == Ok(Parsed(presented[8..16], Quads(presented[17..])))
  {
    hide Base64.Decode, WithoutBreaks, Quads, AllDigits;
    if |presented| == TOKEN_LEN {
      var rest := presented[8..];
      assert rest[..8] == presented[8..16] && rest[8] == presented[16] && rest[9..] == presented[17..];
      if Parse(presented).Ok? {
        DecodedLength(presented[8..16], 8, 6);
        DecodedLength(presented[17..], 43, 32);
      }
      if Shaped(presented) {
        DigitsDecode(presented[8..16]);
        DigitsDecode(presented[17..]);
      }
    }
  }

  lemma DigitsDecode(s: string)
    requires AllDigits(s) && |s| % 4 != 1
    ensures Base64.Decode(s) == Some(Quads(s))
    ensures |Quads(s)| == |s| / 4 * 3 + if |s| % 4 == 0 then 0 else |s| % 4 - 1
  {
    hide WithoutBreaks, Quads;
    NothingToSkip(s);
    QuadsLength(s);
  }

  /** Two accepted texts that mean the same token differ in their last character at most. */
  lemma SameTokenSameText(s: string, t: string)
    requires Parse(s).Ok? && Parse(s) == Parse(t)
    ensures s[..59] == t[..59]
  {
    hide Parse, Quads, AllDigits;
    AcceptedIffShaped(s);
    AcceptedIffShaped(t);
    QuadsDetermine(s[17..], t[17..]);
    AllButLast(s);
    AllButLast(t);
  }

  lemma AllButLast(s: string)
    requires |s| == TOKEN_LEN
    ensures s[..59] == s[..8] + s[8..16] + [s[16]] + s[17..][..42]
  {
    assert s[17..][..42] == s[17..59];
  }

  /** That last character can differ: its two low bits are never read. */
  lemma TextIsNotUnique()
    ensures exists s, t :: s != t && Parse(s).Ok? && Parse(s) == Parse(t)
  {
    hide Parse, Quads, AllDigits, Base64.Encode;
    var prefix: Bytes := [0, 0, 0, 0, 0, 0];
    var secret: Bytes := seq(32, i => 0);
    var s := Plaintext(prefix, secret);
    MintedParses(prefix, secret);
    AcceptedIffShaped(s);
    LastOfZeros(secret);
    SecretEnds(s, prefix, secret);
    var t := s[59 := 'B'];
    assert t[17..] == s[17..][42 := 'B'] && t[8..16] == s[8..16] && t[..8] == s[..8] && t[16] == s[16];
    LastBitsIgnored(s[17..], t[17..]);
    AcceptedIffShaped(t);
  }

  lemma SecretEnds(s: string, prefix: Bytes, secret: Bytes)
    requires s == Plaintext(prefix, secret) && |prefix| == PREFIX_BYTES && |secret| == SECRET_BYTES
    ensures |s| == TOKEN_LEN && s[17..] == Base64.Encode(secret) && s[59] == Base64.Encode(secret)[42]
  {
    hide Base64.Encode;
    assert s[59] == s[17..][42];
  }

  lemma {:induction false} LastOfZeros(b: Bytes)
    requires |b| % 3 == 2 && forall i :: 0 <= i < |b| ==> b[i] == 0
    ensures Base64.Encode(b)[|Base64.Encode(b)| - 1] == 'A'
  {
    hide Base64.Encode;
    if |b| == 2 {
      ShortText(b);
    } else {
      LastOfZeros(b[3..]);
      EncodeStep(b);
    }
  }

  lemma {:induction false} LastBitsIgnored(s: string, t: string)
    requires |s| == |t| && |s| % 4 == 3 && AllDigits(s) && s[|s| - 1] == 'A' && t == s[|s| - 1 := 'B']
    ensures AllDigits(t) && Quads(t) == Quads(s)
  {
    hide Value64;
    FirstTwoDigits();
    if |s| > 3 {
      assert t[4..] == s[4..][|s| - 5 := 'B'];
      LastBitsIgnored(s[4..], t[4..]);
    }
  }

  lemma FirstTwoDigits()
    ensures Value64('A') == Some(0) && Value64('B') == Some(1)
  {}
}
