/** Chain heads in dkp_meta: hex text, read back strictly (internal/ledger/hashchain.go). */
module Hex {
  import opened Wrappers
  import opened Rows

  function Digit(n: int): (c: char)
    requires 0 <= n < 16
    ensures Nibble(c) == Some(n)
  {
    if n < 10 then '0' + n as char else 'a' + (n - 10) as char
  }

  /** `hex.DecodeString` takes both cases. */
  function Nibble(c: char): (r: Option<int>)
    ensures r.Some? ==> 0 <= r.value < 16
  {
    if '0' <= c <= '9' then Some(c as int - '0' as int)
    else if 'a' <= c <= 'f' then Some(c as int - 'a' as int + 10)
    else if 'A' <= c <= 'F' then Some(c as int - 'A' as int + 10)
    else None
  }

  function EncodeHead(hash: Bytes): string {
    if hash == [] then "" else [Digit(hash[0] / 16), Digit(hash[0] % 16)] + EncodeHead(hash[1..])
  }

  function DecodeHex(value: string): Option<Bytes> {
    if value == "" then Some([])
    else if |value| == 1 then None
    else
      var hi, lo, rest := Nibble(value[0]), Nibble(value[1]), DecodeHex(value[2..]);
      if hi.None? || lo.None? || rest.None? then None
      else Some([hi.value * 16 + lo.value] + rest.value)
  }

  /** A head that is not hex, or not a digest long, is an error and never "no head". */
  function DecodeHead(value: string): Option<Bytes> {
    match DecodeHex(value)
    case None => None
    case Some(raw) => if |raw| == HASH_LENGTH then Some(raw) else None
  }

  /** Heads are written in lower case and read in either case, and no other character is a digit. */
  lemma DigitsAreHex()
    ensures Digit(0) == '0' && Digit(9) == '9' && Digit(10) == 'a' && Digit(15) == 'f'
    ensures forall n :: 0 <= n < 15 && n != 9 ==> Digit(n + 1) as int == Digit(n) as int + 1
    ensures forall c: char :: 'A' <= c <= 'F' ==> Nibble(c) == Some(c as int - 'A' as int + 10)
    ensures forall c: char :: Nibble(c).Some? ==> Digit(Nibble(c).value) == c || 'A' <= c <= 'F'
  {}

  /** Two digits a byte, the high one first. */
  lemma {:induction false} EncodedAt(hash: Bytes, i: nat)
    requires i < |hash|
    ensures |EncodeHead(hash)| == 2 * |hash|
    ensures EncodeHead(hash)[2 * i] == Digit(hash[i] / 16) && EncodeHead(hash)[2 * i + 1] == Digit(hash[i] % 16)
  {
    if |hash| > 1 { EncodedAt(hash[1..], if i == 0 then 0 else i - 1); }
  }

  lemma {:induction false} HexRoundTrip(hash: Bytes)
    ensures DecodeHex(EncodeHead(hash)) == Some(hash)
  {
    if hash != [] {
      HexRoundTrip(hash[1..]);
      ByteRoundTrip(hash[0], EncodeHead(hash[1..]));
      assert hash == [hash[0]] + hash[1..];
    }
  }

  lemma ByteRoundTrip(b: byte, rest: string)
    requires DecodeHex(rest).Some?
    ensures DecodeHex([Digit(b / 16), Digit(b % 16)] + rest) == Some([b] + DecodeHex(rest).value)
  {
    var hi, lo := b / 16, b % 16;
    PairDecodes(Digit(hi), Digit(lo), rest, hi, lo);
  }

  lemma PairDecodes(c: char, d: char, rest: string, hi: int, lo: int)
    requires Nibble(c) == Some(hi) && Nibble(d) == Some(lo) && DecodeHex(rest).Some?
    ensures 0 <= hi < 16 && 0 <= lo < 16
    ensures DecodeHex([c, d] + rest) == Some([hi * 16 + lo] + DecodeHex(rest).value)
  {
    var text := [c, d] + rest;
    assert text[0] == c && text[1] == d && text[2..] == rest;
  }

  /** A head that was written is read back as the hash it was written from. */
  lemma HeadRoundTrip(hash: Bytes)
    ensures DecodeHead(EncodeHead(hash)) == if |hash| == HASH_LENGTH then Some(hash) else None
  {
    HexRoundTrip(hash);
  }
}
