/**
 * Pagination cursors (internal/core/cursor.go): a sort key in the clear, a signed body, and the
 * signature, dot-separated. HMAC and the JSON of the body are parameters.
 */
module Cursor {
  import opened Wrappers
  import opened Ordering
  import opened Rows
  import opened Base64

  datatype Cursor = Cursor(version: int, key: string, id: string, filter: string, principal: string)

  datatype Payload = Payload(v: int, k: string, i: string, f: string, pc: string)

  datatype CursorError = Invalid | FilterMismatch | EmptyPrincipalClass

  /** The keyed hash and the body's JSON. */
  datatype Codec = Codec(mac: Bytes -> Bytes, marshal: Payload -> Bytes, unmarshal: Bytes -> Option<Payload>)

  const VERSION: int := 1

  ghost predicate JsonRoundTrips(cc: Codec) { forall p: Payload :: cc.unmarshal(cc.marshal(p)) == Some(p) }

  /** A text as the bytes that are signed; a character stands for one byte. */
  function Message(key: string, body: string): seq<char> { key + ['\0'] + body }

  function TextBytes(s: seq<char>): Bytes {
    if s == [] then [] else [s[0] as int % 256] + TextBytes(s[1..])
  }

  function Sign(cc: Codec, key: string, body: string): Bytes { cc.mac(TextBytes(Message(key, body))) }

  function Split(s: string): (r: seq<string>)
    ensures |r| >= 1
  {
    if s == "" then [""]
    else if s[0] == '.' then [""] + Split(s[1..])
    else var rest := Split(s[1..]); [[s[0]] + rest[0]] + rest[1..]
  }

  function PayloadOf(c: Cursor): Payload {
    Payload(if c.version == 0 then VERSION else c.version, c.key, c.id, c.filter, c.principal)
  }

  function BodyOf(cc: Codec, c: Cursor): string { Base64.Encode(cc.marshal(PayloadOf(c))) }

  function Encode(cc: Codec, c: Cursor): Result<string, CursorError> {
    if c.principal == "" then Err(EmptyPrincipalClass)
    else
      var body := BodyOf(cc, c);
      Ok(c.key + "." + body + "." + Base64.Encode(Sign(cc, c.key, body)))
  }

  function Opened(cc: Codec, key: string, body: string, principal: string, filter: string): Result<Cursor, CursorError> {
    match Base64.Decode(body)
    case None => Err(Invalid)
    case Some(raw) =>
      match cc.unmarshal(raw)
      case None => Err(Invalid)
      case Some(p) =>
        if p.k != key || p.v != VERSION || p.pc == "" || p.pc != principal then Err(Invalid)
        else if p.f != filter then Err(FilterMismatch)
        else Ok(Cursor(p.v, p.k, p.i, p.f, p.pc))
  }

  function Decode(cc: Codec, token: string, principal: string, filter: string): Result<Cursor, CursorError> {
    if principal == "" then Err(EmptyPrincipalClass)
    else
      var parts := Split(token);
      if |parts| != 3 then Err(Invalid)
      else if Base64.Decode(parts[2]) != Some(Sign(cc, parts[0], parts[1])) then Err(Invalid)
      else Opened(cc, parts[0], parts[1], principal, filter)
  }

  // ---- splitting ----

  lemma {:induction false} SplitPlain(s: string)
    requires '.' !in s
    ensures Split(s) == [s]
  {
    if s != "" {
      assert s[0] in s;
      SplitPlain(s[1..]);
      assert s == [s[0]] + s[1..];
    }
  }

  lemma {:induction false} SplitJoined(a: string, b: string)
    requires '.' !in a
    ensures Split(a + "." + b) == [a] + Split(b)
  {
    var s := a + "." + b;
    if a == "" {
      assert s == "." + b && s[1..] == b;
    } else {
      assert a[0] in a;
      assert s[0] == a[0] && s[1..] == a[1..] + "." + b;
      SplitJoined(a[1..], b);
      assert a == [a[0]] + a[1..];
      assert ([a[1..]] + Split(b))[0] == a[1..] && ([a[1..]] + Split(b))[1..] == Split(b);
    }
  }

  lemma {:induction false} SplitCount(a: string, b: string)
    ensures |Split(a + "." + b)| == |Split(a)| + |Split(b)|
  {
    var s := a + "." + b;
    if a == "" {
      assert s[1..] == b && s[0] == '.';
    } else {
      assert s[0] == a[0] && s[1..] == a[1..] + "." + b;
      SplitCount(a[1..], b);
    }
  }

  lemma {:induction false} SplitOne(s: string)
    ensures |Split(s)| == 1 <==> '.' !in s
  {
    if s != "" {
      SplitOne(s[1..]);
      assert s == [s[0]] + s[1..];
    }
  }

  lemma NoDots(b: Bytes)
    ensures '.' !in Base64.Encode(b)
  {
    EncodeIsDigits(b);
  }

  lemma TokenParts(key: string, body: string, mac: string)
    requires '.' !in body && '.' !in mac
    ensures var parts := Split(key + "." + body + "." + mac);
            && (|parts| == 3 <==> '.' !in key)
            && ('.' !in key ==> parts == [key, body, mac])
  {
    assert key + "." + body + "." + mac == key + "." + (body + "." + mac);
    SplitCount(key, body + "." + mac);
    SplitCount(body, mac);
    SplitOne(key);
    SplitOne(body);
    SplitOne(mac);
    if '.' !in key {
      SplitJoined(key, body + "." + mac);
      SplitJoined(body, mac);
      SplitPlain(mac);
    }
  }

  // ---- round trip ----

  /**
   * Decoding what was encoded, for the same class and filter, returns it: exactly when the key holds
   * no dot and the version is the current one or unset.
   */
  lemma RoundTripIff(cc: Codec, c: Cursor)
    requires JsonRoundTrips(cc) && c.principal != ""
    ensures Encode(cc, c).Ok?
    ensures var back := Decode(cc, Encode(cc, c).value, c.principal, c.filter);
            && (back.Ok? <==> '.' !in c.key && (c.version == 0 || c.version == VERSION))
            && (back.Ok? ==> back.value == c.(version := VERSION))
  {
    hide Base64.Encode, Base64.Decode, Split, Message, TextBytes;
    var p := PayloadOf(c);
    var body := Base64.Encode(cc.marshal(p));
    var mac := Base64.Encode(Sign(cc, c.key, body));
    NoDots(cc.marshal(p));
    NoDots(Sign(cc, c.key, body));
    TokenParts(c.key, body, mac);
    RoundTrip(cc.marshal(p));
    RoundTrip(Sign(cc, c.key, body));
    assert cc.unmarshal(cc.marshal(p)) == Some(p);
  }

  /**
   * A minted token presented by anyone, for any query. Another class is refused as no cursor at all,
   * whatever its filter; only the class it was minted for learns that the filter is another.
   */
  lemma PresentedElsewhere(cc: Codec, c: Cursor, principal: string, filter: string)
    requires JsonRoundTrips(cc) && c.principal != "" && '.' !in c.key && (c.version == 0 || c.version == VERSION)
    ensures Decode(cc, Encode(cc, c).value, principal, filter) ==
      if principal == "" then Err(EmptyPrincipalClass)
      else if principal != c.principal then Err(Invalid)
      else if filter != c.filter then Err(FilterMismatch)
      else Ok(Cursor(1, c.key, c.id, c.filter, c.principal))
  {
    hide Base64.Encode, Base64.Decode, Split, Message, TextBytes;
    var p := PayloadOf(c);
    var body := Base64.Encode(cc.marshal(p));
    var mac := Base64.Encode(Sign(cc, c.key, body));
    NoDots(cc.marshal(p));
    NoDots(Sign(cc, c.key, body));
    TokenParts(c.key, body, mac);
    RoundTrip(cc.marshal(p));
    RoundTrip(Sign(cc, c.key, body));
    assert cc.unmarshal(cc.marshal(p)) == Some(p);
  }

  /** What is on the wire: the key in the clear, the payload, and the MAC of the key, a NUL and the payload. */
  lemma TokenIs(cc: Codec, c: Cursor)
    requires c.principal != "" && '.' !in c.key
    ensures var body := Base64.Encode(cc.marshal(Payload(if c.version == 0 then 1 else c.version, c.key, c.id, c.filter, c.principal)));
            && Encode(cc, c).Ok?
            && Split(Encode(cc, c).value) == [c.key, body, Base64.Encode(cc.mac(TextBytes(c.key + [0 as char] + body)))]
  {
    hide Base64.Encode, Split, TextBytes;
    var body := Base64.Encode(cc.marshal(PayloadOf(c)));
    NoDots(cc.marshal(PayloadOf(c)));
    NoDots(Sign(cc, c.key, body));
    TokenParts(c.key, body, Base64.Encode(Sign(cc, c.key, body)));
  }

  /** The token has three parts, its MAC verifies, and its body is a payload of this version for the key in the clear. */
  ghost predicate Carries(cc: Codec, token: string, p: Payload) {
    var parts := Split(token);
    && |parts| == 3 && Base64.Decode(parts[2]) == Some(Sign(cc, parts[0], parts[1]))
    && Base64.Decode(parts[1]).Some? && cc.unmarshal(Base64.Decode(parts[1]).value) == Some(p)
    && p.k == parts[0] && p.v == 1
  }

  /** What any text at all decodes to, for any class and filter; what is not listed is an invalid cursor. */
  lemma DecodeIs(cc: Codec, token: string, principal: string, filter: string)
    ensures var r := Decode(cc, token, principal, filter);
      && (r == Err(EmptyPrincipalClass) <==> principal == "")
      && (r == Err(FilterMismatch) <==> principal != "" && exists p :: Carries(cc, token, p) && p.pc == principal && p.f != filter)
      && (forall c :: r == Ok(c) <==>
            principal != "" && exists p :: Carries(cc, token, p) && p.pc == principal && p.f == filter
                                           && c == Cursor(1, p.k, p.i, p.f, p.pc))
  {
    hide Base64.Decode, Split, Sign;
    var r, parts := Decode(cc, token, principal, filter), Split(token);
    if |parts| == 3 && Base64.Decode(parts[1]).Some? && cc.unmarshal(Base64.Decode(parts[1]).value).Some? {
      var p := cc.unmarshal(Base64.Decode(parts[1]).value).value;
      assert forall q :: Carries(cc, token, q) ==> q == p;
      assert r.Ok? || r == Err(FilterMismatch) ==> Carries(cc, token, p);
    } else {
      assert forall q :: !Carries(cc, token, q);
    }
  }

  /** Nothing is minted without a class. */
  lemma NoClassNoToken(cc: Codec, c: Cursor)
    ensures Encode(cc, c).Err? <==> c.principal == ""
    ensures Encode(cc, c).Err? ==> Encode(cc, c).error == EmptyPrincipalClass
  {
    hide Base64.Encode;
  }

  /** Tokens sort as their keys do, for keys of one length. */
  lemma TokensSortAsKeys(cc: Codec, a: Cursor, b: Cursor)
    requires a.principal != "" && b.principal != "" && |a.key| == |b.key| && StrLt(a.key, b.key)
    ensures StrLt(Encode(cc, a).value, Encode(cc, b).value)
  {
    hide Base64.Encode, Sign, StrLe;
    var s, t := Encode(cc, a).value, Encode(cc, b).value;
    assert s == a.key + s[|a.key|..] && t == b.key + t[|b.key|..];
    StrLtExtends(a.key, b.key, s[|a.key|..], t[|b.key|..]);
  }

  // ---- what an accepted cursor proves ----

  /** A pair of texts the server signed: the key of a cursor and its encoded body. */
  datatype Signed = Signed(key: string, body: string)

  predicate IsByteText(s: string) { forall i :: 0 <= i < |s| ==> (s[i] as int) < 256 }

  /** What minting these cursors signs. */
  function SignedBy(cc: Codec, minted: set<Cursor>): set<Signed> {
    set c | c in minted && c.principal != "" :: Signed(c.key, BodyOf(cc, c))
  }

  /** What minting these cursors hands out. */
  function TokensOf(cc: Codec, minted: set<Cursor>): set<string> {
    set c | c in minted && c.principal != "" :: Encode(cc, c).value
  }

  /** The server signs keys and bodies of bytes other than NUL: identifiers and base64url. */
  predicate Signable(s: Signed) { IsByteText(s.key) && IsByteText(s.body) && '\0' !in s.key && '\0' !in s.body }

  /**
   * No token among those presented carries a MAC of a message that was never signed. It speaks of the
   * bytes the MAC is computed over, not of where the key ends and the body begins, and only of the
   * tokens that are presented: a MAC of fixed length has collisions among all messages.
   */
  ghost predicate NoForgery(cc: Codec, signed: set<Signed>, presented: set<string>) {
    forall token :: token in presented ==>
      var parts := Split(token);
      |parts| == 3 && Base64.Decode(parts[2]) == Some(Sign(cc, parts[0], parts[1])) ==>
        exists x :: x in signed && TextBytes(Message(x.key, x.body)) == TextBytes(Message(parts[0], parts[1]))
  }

  lemma {:induction false} TextBytesInjective(s: seq<char>, t: seq<char>)
    requires TextBytes(s) == TextBytes(t) && IsByteText(s) && IsByteText(t)
    ensures s == t
  {
    if s == [] {
      assert t == [];
    } else {
      assert TextBytes(s)[0] == TextBytes(t)[0] && TextBytes(s)[1..] == TextBytes(s[1..]) && TextBytes(t)[1..] == TextBytes(t[1..]);
      TextBytesInjective(s[1..], t[1..]);
      assert s == [s[0]] + s[1..] && t == [t[0]] + t[1..];
    }
  }

  lemma {:induction false} OneNul(a: string, b: string, x: string, y: string)
    requires Message(a, b) == Message(x, y) && '\0' !in a && '\0' !in b
    ensures a == x && b == y
  {
    var m := Message(a, b);
    assert m[|a|] == '\0' && Message(x, y)[|x|] == '\0';
    assert forall i :: 0 <= i < |a| ==> m[i] == a[i];
    assert forall i :: 0 <= i < |b| ==> m[|a| + 1 + i] == b[i];
    assert |x| == |a|;
    assert a == m[..|a|] && x == Message(x, y)[..|a|] && b == m[|a| + 1..] && y == Message(x, y)[|a| + 1..];
  }

  /** No byte can move between the key and the body: an accepted pair is one that was signed. */
  lemma AcceptedWasSigned(cc: Codec, signed: set<Signed>, presented: set<string>, token: string, principal: string, filter: string)
    requires (forall x :: x in signed ==> Signable(x)) && NoForgery(cc, signed, presented)
    requires token in presented && IsByteText(token) && Decode(cc, token, principal, filter).Ok?
    ensures var parts, c := Split(token), Decode(cc, token, principal, filter).value;
            && |parts| == 3 && Signed(parts[0], parts[1]) in signed
            && c.key == parts[0] && c.principal == principal && c.filter == filter
  {
    hide Base64.Decode, Base64.Encode, Split, Message, TextBytes;
    var parts := Split(token);
    SplitBytes(token);
    var x :| x in signed && TextBytes(Message(x.key, x.body)) == TextBytes(Message(parts[0], parts[1]));
    MessageBytes(x.key, x.body);
    MessageBytes(parts[0], parts[1]);
    TextBytesInjective(Message(x.key, x.body), Message(parts[0], parts[1]));
    OneNul(x.key, x.body, parts[0], parts[1]);
  }

  /** And what it decodes to is the cursor that was minted with that key and body. */
  lemma AcceptedWasMinted(cc: Codec, minted: set<Cursor>, presented: set<string>, token: string, principal: string, filter: string)
    requires JsonRoundTrips(cc) && NoForgery(cc, SignedBy(cc, minted), presented)
    requires forall c :: c in minted ==> IsByteText(c.key) && '\0' !in c.key
    requires token in presented && IsByteText(token) && Decode(cc, token, principal, filter).Ok?
    ensures exists c :: c in minted && c.principal == principal && c.filter == filter
                        && Decode(cc, token, principal, filter).value == c.(version := VERSION)
  {
    hide Base64.Decode, Base64.Encode, Split, Sign;
    MintedIsSignable(cc, minted);
    AcceptedWasSigned(cc, SignedBy(cc, minted), presented, token, principal, filter);
    var parts := Split(token);
    var c :| c in minted && c.principal != "" && Signed(c.key, BodyOf(cc, c)) == Signed(parts[0], parts[1]);
    var p := PayloadOf(c);
    RoundTrip(cc.marshal(p));
    assert cc.unmarshal(cc.marshal(p)) == Some(p);
  }

  lemma MintedIsSignable(cc: Codec, minted: set<Cursor>)
    requires forall c :: c in minted ==> IsByteText(c.key) && '\0' !in c.key
    ensures forall x :: x in SignedBy(cc, minted) ==> Signable(x)
  {
    hide Base64.Encode;
    forall c | c in minted ensures Signable(Signed(c.key, BodyOf(cc, c))) {
      EncodeIsDigits(cc.marshal(PayloadOf(c)));
    }
  }

  /** Of any codec: presenting what was minted, and texts whose MAC does not verify, is no forgery. */
  lemma HonestTokensAreNoForgery(cc: Codec, minted: set<Cursor>, noise: set<string>)
    requires forall token :: token in noise && |Split(token)| == 3 ==>
               Base64.Decode(Split(token)[2]) != Some(Sign(cc, Split(token)[0], Split(token)[1]))
    ensures NoForgery(cc, SignedBy(cc, minted), TokensOf(cc, minted) + noise)
  {
    hide Base64.Decode, Base64.Encode, Split, Sign, Message, TextBytes;
    forall c | c in minted && c.principal != ""
      ensures |Split(Encode(cc, c).value)| == 3 ==> Split(Encode(cc, c).value)[..2] == [c.key, BodyOf(cc, c)]
    {
      var body := BodyOf(cc, c);
      NoDots(cc.marshal(PayloadOf(c)));
      NoDots(Sign(cc, c.key, body));
      TokenParts(c.key, body, Base64.Encode(Sign(cc, c.key, body)));
    }
    forall token | token in TokensOf(cc, minted) + noise && |Split(token)| == 3
                   && Base64.Decode(Split(token)[2]) == Some(Sign(cc, Split(token)[0], Split(token)[1]))
      ensures exists x :: x in SignedBy(cc, minted) && TextBytes(Message(x.key, x.body)) == TextBytes(Message(Split(token)[0], Split(token)[1]))
    {
      var c :| c in minted && c.principal != "" && token == Encode(cc, c).value;
      assert Split(token)[0] == Split(token)[..2][0] && Split(token)[1] == Split(token)[..2][1];
      assert Signed(c.key, BodyOf(cc, c)) in SignedBy(cc, minted);
    }
  }

  lemma MessageBytes(key: string, body: string)
    requires IsByteText(key) && IsByteText(body)
    ensures IsByteText(Message(key, body))
  {}

  lemma {:induction false} SplitBytes(s: string)
    requires IsByteText(s)
    ensures forall i :: 0 <= i < |Split(s)| ==> IsByteText(Split(s)[i])
  {
    if s != "" { SplitBytes(s[1..]); }
  }
}
