/**
 * As much of Go's encoding/json (HTML escaping off) as the hash inputs use: objects with a fixed
 * list of names, whose values are strings, integers and null, and arrays of such objects.
 *
 * Dafny's characters are Unicode scalar values, so a string here is what valid UTF-8 text decodes
 * to. The encoder replaces invalid bytes by U+FFFD and is not injective on them.
 */
module Json {
  import opened Wrappers
  import opened Rows
  import opened Hex

  type Text = seq<char>

  datatype Value = Str(text: string) | Num(value: int) | Null

  // ---- strings ----

  const HEX: string := "0123456789abcdef"

  function Escape(c: char): Text {
    if c == '"' then ['\\', '"']
    else if c == '\\' then ['\\', '\\']
    else if c == '\n' then ['\\', 'n']
    else if c == '\r' then ['\\', 'r']
    else if c == '\t' then ['\\', 't']
    else if c == 8 as char then ['\\', 'b']
    else if c == 12 as char then ['\\', 'f']
    else if c < ' ' then ['\\', 'u', '0', '0', HEX[c as int / 16], HEX[c as int % 16]]
    else if c == '\U{2028}' then ['\\', 'u', '2', '0', '2', '8']
    else if c == '\U{2029}' then ['\\', 'u', '2', '0', '2', '9']
    else [c]
  }

  function Body(s: string): Text {
    if s == "" then [] else Escape(s[0]) + Body(s[1..])
  }

  function Quoted(s: string): Text { ['"'] + Body(s) + ['"'] }

  /** What one character, or one escape, stands for within a JSON string: section 7 of RFC 8259. */
  function Meant(t: Text): Option<char> {
    if |t| == 1 then if t[0] >= ' ' && t[0] != '"' && t[0] != '\\' then Some(t[0]) else None
    else if |t| == 2 && t[0] == '\\' then
      match t[1]
      case '"' => Some('"')
      case '\\' => Some('\\')
      case '/' => Some('/')
      case 'b' => Some(8 as char)
      case 'f' => Some(12 as char)
      case 'n' => Some(10 as char)
      case 'r' => Some(13 as char)
      case 't' => Some(9 as char)
      case _ => None
    else if |t| == 6 && t[0] == '\\' && t[1] == 'u' then
      var a, b, c, d := Nibble(t[2]), Nibble(t[3]), Nibble(t[4]), Nibble(t[5]);
      if a.None? || b.None? || c.None? || d.None? then None
      else
        var code := ((a.value * 16 + b.value) * 16 + c.value) * 16 + d.value;
        if code < 0xD800 then Some(code as char) else None
    else None
  }

  /** Every character reads back as itself. */
  lemma EscapeMeans(c: char)
    ensures Meant(Escape(c)) == Some(c)
  {
    if c < ' ' {
      HexAt(c as int / 16);
      HexAt(c as int % 16);
      Control(c);
    }
  }

  lemma Control(c: char)
    requires c < ' '
    ensures var hi, lo := Digit(c as int / 16), Digit(c as int % 16);
            Meant(['\\', 'u', '0', '0', hi, lo]) == Some(c)
  {
    var hi, lo := Digit(c as int / 16), Digit(c as int % 16);
    assert Nibble(hi) == Some(c as int / 16) && Nibble(lo) == Some(c as int % 16) && Nibble('0') == Some(0);
  }

  /** A short escape for seven characters, a long one for the other controls and two separators, and no other. */
  lemma EscapeClasses(c: char)
    ensures |Escape(c)| == 2 <==> c in {'"', '\\', 8 as char, 9 as char, 10 as char, 12 as char, 13 as char}
    ensures |Escape(c)| == 6 <==> (c as int < 32 && |Escape(c)| != 2) || c as int == 0x2028 || c as int == 0x2029
    ensures forall i :: 0 <= i < |Escape(c)| && |Escape(c)| == 6 ==> !('A' <= Escape(c)[i] <= 'F')
  {
    if c < ' ' {
      HexAt(c as int / 16);
      HexAt(c as int % 16);
    }
  }

  lemma HexAt(n: int)
    requires 0 <= n < 16
    ensures HEX[n] == Digit(n)
  {}

  // ---- integers ----

  predicate IsDigit(c: char) { '0' <= c <= '9' }

  function Digits(n: nat): Text {
    if n < 10 then ['0' + n as char] else Digits(n / 10) + ['0' + (n % 10) as char]
  }

  function Number(n: int): Text { if n < 0 then ['-'] + Digits(-n) else Digits(n) }

  function Rendered(v: Value): Text {
    match v
    case Str(s) => Quoted(s)
    case Num(n) => Number(n)
    case Null => "null"
  }

  // ---- objects and arrays ----

  /** The fields from the `i`th on, and the closing brace. */
  function Fields(names: seq<string>, values: seq<Value>, i: nat): Text
    requires i <= |names| == |values|
    decreases |names| - i
  {
    if i == |names| then "}"
    else (if i == 0 then "" else ",") + Quoted(names[i]) + ":" + Rendered(values[i]) + Fields(names, values, i + 1)
  }

  function Object(names: seq<string>, values: seq<Value>): Text
    requires |names| == |values|
  {
    "{" + Fields(names, values, 0)
  }

  function Elements(names: seq<string>, rows: seq<seq<Value>>, i: nat): Text
    requires i <= |rows| && forall r :: r in rows ==> |r| == |names|
    decreases |rows| - i
  {
    if i == |rows| then "]"
    else (if i == 0 then "" else ",") + Object(names, rows[i]) + Elements(names, rows, i + 1)
  }

  function Array(names: seq<string>, rows: seq<seq<Value>>): Text
    requires forall r :: r in rows ==> |r| == |names|
  {
    "[" + Elements(names, rows, 0)
  }

  // ---- the layout ----

  function Pair(name: string, v: Value): Text { Quoted(name) + ":" + Rendered(v) }

  /** The parts with a comma between them. */
  function Joined(parts: seq<Text>): Text {
    if parts == [] then ""
    else if |parts| == 1 then parts[0]
    else Joined(parts[..|parts| - 1]) + "," + parts[|parts| - 1]
  }

  lemma {:induction false} JoinedFrom(parts: seq<Text>, i: nat)
    requires 0 < i < |parts|
    ensures Joined(parts) == Joined(parts[..i]) + "," + Joined(parts[i..])
  {
    var n := |parts| - 1;
    if i == n {
      assert parts[i..] == [parts[n]];
    } else {
      JoinedFrom(parts[..n], i);
      assert parts[..n][..i] == parts[..i] && parts[i..][..n - i] == parts[..n][i..] && parts[i..][n - i] == parts[n];
    }
  }

  lemma JoinedFirst(parts: seq<Text>)
    requires |parts| > 1
    ensures Joined(parts) == parts[0] + "," + Joined(parts[1..])
  {
    JoinedFrom(parts, 1);
    assert parts[..1] == [parts[0]];
  }

  datatype Field = Field(name: string, value: Value)

  function Listed(names: seq<string>, values: seq<Value>): (r: seq<Field>)
    requires |names| == |values|
    ensures |r| == |names| && forall i :: 0 <= i < |r| ==> r[i] == Field(names[i], values[i])
  {
    seq(|names|, i requires 0 <= i < |names| => Field(names[i], values[i]))
  }

  function Parts(fields: seq<Field>): (r: seq<Text>)
    ensures |r| == |fields| && forall i :: 0 <= i < |r| ==> r[i] == Pair(fields[i].name, fields[i].value)
  {
    seq(|fields|, i requires 0 <= i < |fields| => Pair(fields[i].name, fields[i].value))
  }

  /** An object: its fields in order, a comma between them, in braces. */
  function Spelled(fields: seq<Field>): Text { "{" + Joined(Parts(fields)) + "}" }

  lemma FieldsStep(names: seq<string>, values: seq<Value>, i: nat)
    requires i <= |names| == |values|
    ensures Fields(names, values, i) ==
      if i == |names| then "}" else (if i == 0 then "" else ",") + Parts(Listed(names, values))[i] + Fields(names, values, i + 1)
  {
    hide Quoted, Rendered;
    if i < |names| {
      assert Parts(Listed(names, values))[i] == Pair(names[i], values[i]);
      PairFirst(if i == 0 then "" else ",", Quoted(names[i]), Rendered(values[i]), Fields(names, values, i + 1));
    }
  }

  lemma PairFirst(before: Text, name: Text, value: Text, rest: Text)
    ensures before + name + ":" + value + rest == before + (name + ":" + value) + rest
  {}

  lemma {:induction false} FieldsAre(names: seq<string>, values: seq<Value>, i: nat)
    requires i < |names| == |values|
    ensures Fields(names, values, i) == (if i == 0 then "" else ",") + Joined(Parts(Listed(names, values))[i..]) + "}"
    decreases |names| - i
  {
    hide Fields, Joined, Parts, Listed;
    var ps := Parts(Listed(names, values));
    FieldsStep(names, values, i);
    JoinedNext(ps, i);
    if i + 1 == |names| {
      FieldsStep(names, values, i + 1);
    } else {
      FieldsAre(names, values, i + 1);
      CommaMoves(if i == 0 then "" else ",", ps[i], Joined(ps[i + 1..]), "}");
    }
  }

  lemma JoinedNext(parts: seq<Text>, i: nat)
    requires i < |parts|
    ensures Joined(parts[i..]) == if i + 1 == |parts| then parts[i] else parts[i] + "," + Joined(parts[i + 1..])
  {
    if i + 1 == |parts| {
      assert parts[i..] == [parts[i]];
    } else {
      JoinedFirst(parts[i..]);
      assert parts[i..][1..] == parts[i + 1..];
    }
  }

  lemma ObjectIs(names: seq<string>, values: seq<Value>)
    requires 0 < |names| == |values|
    ensures Object(names, values) == Spelled(Listed(names, values))
  {
    hide Joined, Fields, Parts, Listed;
    FieldsAre(names, values, 0);
    assert Parts(Listed(names, values))[0..] == Parts(Listed(names, values));
  }

  function Objects(names: seq<string>, rows: seq<seq<Value>>): (r: seq<Text>)
    requires forall r :: r in rows ==> |r| == |names|
    ensures |r| == |rows| && forall i :: 0 <= i < |r| ==> r[i] == Object(names, rows[i])
  {
    seq(|rows|, i requires 0 <= i < |rows| => Object(names, rows[i]))
  }

  lemma ElementsStep(names: seq<string>, rows: seq<seq<Value>>, i: nat)
    requires i <= |rows| && forall r :: r in rows ==> |r| == |names|
    ensures Elements(names, rows, i) ==
      if i == |rows| then "]" else (if i == 0 then "" else ",") + Objects(names, rows)[i] + Elements(names, rows, i + 1)
  {}

  lemma {:induction false} ElementsAre(names: seq<string>, rows: seq<seq<Value>>, i: nat)
    requires i < |rows| && forall r :: r in rows ==> |r| == |names|
    ensures Elements(names, rows, i) == (if i == 0 then "" else ",") + Joined(Objects(names, rows)[i..]) + "]"
    decreases |rows| - i
  {
    hide Object, Joined, Elements, Objects;
    var os := Objects(names, rows);
    ElementsStep(names, rows, i);
    JoinedNext(os, i);
    if i + 1 == |rows| {
      ElementsStep(names, rows, i + 1);
    } else {
      ElementsAre(names, rows, i + 1);
      CommaMoves(if i == 0 then "" else ",", os[i], Joined(os[i + 1..]), "]");
    }
  }

  lemma CommaMoves(before: Text, first: Text, rest: Text, end: Text)
    ensures before + first + ("," + rest + end) == before + (first + "," + rest) + end
  {}

  /** An array is its objects in order, a comma between them, in brackets. */
  lemma ArrayIs(names: seq<string>, rows: seq<seq<Value>>)
    requires forall r :: r in rows ==> |r| == |names|
    ensures Array(names, rows) == "[" + Joined(Objects(names, rows)) + "]"
  {
    hide Elements, Objects;
    if rows == [] {
      EmptyArray(names);
    } else {
      ElementsAre(names, rows, 0);
      assert Objects(names, rows)[0..] == Objects(names, rows);
    }
  }

  lemma EmptyArray(names: seq<string>)
    ensures Array(names, []) == "[" + Joined(Objects(names, [])) + "]"
  {}

  // ---- cancelling a common prefix ----

  lemma CancelPrefix<T>(p: seq<T>, x: seq<T>, y: seq<T>)
    requires p + x == p + y
    ensures x == y
  {
    assert x == (p + x)[|p|..] && y == (p + y)[|p|..];
  }

  lemma Assoc<T>(a: seq<T>, b: seq<T>, c: seq<T>)
    ensures (a + b) + c == a + (b + c)
  {}

  // ---- strings delimit themselves ----

  /** What an escape looks like, by its length. */
  lemma EscapeShape(c: char)
    ensures |Escape(c)| == 1 ==> Escape(c) == [c] && c != '\\'
    ensures |Escape(c)| > 1 ==> Escape(c)[0] == '\\'
    ensures |Escape(c)| == 1 || |Escape(c)| == 2 || |Escape(c)| == 6
    ensures |Escape(c)| == 2 ==> Escape(c)[1] != 'u'
    ensures |Escape(c)| == 6 ==> Escape(c)[1] == 'u' && (Escape(c)[2] == '0' <==> c < ' ')
    ensures |Escape(c)| == 6 && c < ' ' ==> Escape(c)[4] == HEX[c as int / 16] && Escape(c)[5] == HEX[c as int % 16]
    ensures |Escape(c)| == 6 && c >= ' ' ==> (c == '\U{2028}' && Escape(c)[5] == '8') || (c == '\U{2029}' && Escape(c)[5] == '9')
  {}

  lemma ShortEscape(c: char, d: char)
    requires |Escape(c)| == 2 == |Escape(d)| && Escape(c)[1] == Escape(d)[1]
    ensures c == d
  {
    hide Escape;
    ShortEscapeOf(c);
    ShortEscapeOf(d);
  }

  /** What the second character of a short escape stands for. */
  function Unescaped(letter: char): char {
    match letter case 'n' => '\n' case 'r' => '\r' case 't' => '\t' case 'b' => 8 as char case 'f' => 12 as char case _ => letter
  }

  lemma ShortEscapeOf(c: char)
    requires |Escape(c)| == 2
    ensures c == Unescaped(Escape(c)[1])
  {}

  /** An escape is never the beginning of another one. */
  lemma EscapePrefixFree(c: char, d: char)
    requires |Escape(c)| <= |Escape(d)| && forall i :: 0 <= i < |Escape(c)| ==> Escape(c)[i] == Escape(d)[i]
    ensures c == d
  {
    hide Escape;
    EscapeShape(c);
    EscapeShape(d);
    assert Escape(c)[0] == Escape(d)[0];
    if |Escape(c)| > 1 {
      assert Escape(c)[1] == Escape(d)[1];
      if |Escape(c)| == 2 {
        ShortEscape(c, d);
      } else {
        assert Escape(c)[2] == Escape(d)[2] && Escape(c)[4] == Escape(d)[4] && Escape(c)[5] == Escape(d)[5];
        if c < ' ' { HexPair(c, d); }
      }
    }
  }

  lemma HexPair(c: char, d: char)
    requires c < ' ' && d < ' '
    requires HEX[c as int / 16] == HEX[d as int / 16] && HEX[c as int % 16] == HEX[d as int % 16]
    ensures c == d
  {
    HexOnce(c as int / 16, d as int / 16);
    HexOnce(c as int % 16, d as int % 16);
    assert c as int == d as int;
  }

  lemma HexOnce(i: int, j: int)
    requires 0 <= i < 16 && 0 <= j < 16 && HEX[i] == HEX[j]
    ensures i == j
  {}

  lemma EscapeDelimits(c: char, d: char, x: Text, y: Text)
    requires Escape(c) + x == Escape(d) + y
    ensures c == d && x == y
  {
    var u, v := Escape(c), Escape(d);
    hide Escape;
    assert forall i :: 0 <= i < |u| ==> (u + x)[i] == u[i];
    assert forall i :: 0 <= i < |v| ==> (v + y)[i] == v[i];
    if |u| <= |v| { EscapePrefixFree(c, d); } else { EscapePrefixFree(d, c); }
    CancelPrefix(u, x, y);
  }

  lemma EscapeIsNoQuote(c: char)
    ensures Escape(c) != [] && Escape(c)[0] != '"'
  {}

  /** The first bare quote ends a string: its text and what follows are both determined. */
  lemma {:induction false} BodyDelimits(s: string, t: string, x: Text, y: Text)
    requires Body(s) + (['"'] + x) == Body(t) + (['"'] + y)
    ensures s == t && x == y
  {
    hide Escape;
    BodyFirst(s, ['"'] + x);
    BodyFirst(t, ['"'] + y);
    if s == "" {
      assert Body(s) + (['"'] + x) == ['"'] + x && Body(t) + (['"'] + y) == ['"'] + y;
      CancelPrefix(['"'], x, y);
    } else {
      BodyText(s, ['"'] + x);
      BodyText(t, ['"'] + y);
      EscapeDelimits(s[0], t[0], Body(s[1..]) + (['"'] + x), Body(t[1..]) + (['"'] + y));
      BodyDelimits(s[1..], t[1..], x, y);
      assert s == [s[0]] + s[1..] && t == [t[0]] + t[1..];
    }
  }

  lemma BodyFirst(s: string, rest: Text)
    requires rest != [] && rest[0] == '"'
    ensures |Body(s) + rest| > 0 && ((Body(s) + rest)[0] == '"' <==> s == "")
  {
    if s != "" {
      EscapeIsNoQuote(s[0]);
      assert (Body(s) + rest)[0] == Escape(s[0])[0];
    }
  }

  lemma BodyText(s: string, rest: Text)
    requires s != ""
    ensures Body(s) + rest == Escape(s[0]) + (Body(s[1..]) + rest)
  {
    hide Escape;
    Assoc(Escape(s[0]), Body(s[1..]), rest);
  }

  lemma QuotedText(s: string, x: Text)
    ensures Quoted(s) + x == ['"'] + (Body(s) + (['"'] + x))
  {
    hide Body;
  }

  lemma QuotedDelimits(s: string, t: string, x: Text, y: Text)
    requires Quoted(s) + x == Quoted(t) + y
    ensures s == t && x == y
  {
    hide Body;
    QuotedText(s, x);
    QuotedText(t, y);
    CancelPrefix(['"'], Body(s) + (['"'] + x), Body(t) + (['"'] + y));
    BodyDelimits(s, t, x, y);
  }

  // ---- integers end at the first character that is not a digit ----

  function Parsed(ds: Text): int {
    if ds == [] then 0 else Parsed(ds[..|ds| - 1]) * 10 + (ds[|ds| - 1] as int - '0' as int)
  }

  lemma {:induction false} DigitsParse(n: nat)
    ensures Digits(n) != [] && Parsed(Digits(n)) == n
    ensures forall i :: 0 <= i < |Digits(n)| ==> IsDigit(Digits(n)[i])
  {
    if n >= 10 {
      DigitsParse(n / 10);
      var ds := Digits(n);
      assert ds[..|ds| - 1] == Digits(n / 10);
    } else {
      assert Digits(n)[..0] == [];
    }
  }

  ghost predicate EndsNumber(x: Text) { x != [] && !IsDigit(x[0]) }

  lemma SpanUnique(u: Text, v: Text, x: Text, y: Text)
    requires u + x == v + y && EndsNumber(x) && EndsNumber(y)
    requires (forall i :: 0 <= i < |u| ==> IsDigit(u[i])) && forall i :: 0 <= i < |v| ==> IsDigit(v[i])
    ensures u == v && x == y
  {
    assert (u + x)[|u|] == x[0] && (v + y)[|v|] == y[0];
    assert forall i :: 0 <= i < |u| ==> (u + x)[i] == u[i];
    assert forall i :: 0 <= i < |v| ==> (v + y)[i] == v[i];
    assert |u| == |v|;
    assert u == (u + x)[..|u|] && v == (v + y)[..|u|];
    CancelPrefix(u, x, y);
  }

  lemma NumberDelimits(a: int, b: int, x: Text, y: Text)
    requires Number(a) + x == Number(b) + y && EndsNumber(x) && EndsNumber(y)
    ensures a == b && x == y
  {
    DigitsParse(if a < 0 then -a else a);
    DigitsParse(if b < 0 then -b else b);
    var u, v := Digits(if a < 0 then -a else a), Digits(if b < 0 then -b else b);
    assert (Number(a) + x)[0] == if a < 0 then '-' else u[0];
    assert (Number(b) + y)[0] == if b < 0 then '-' else v[0];
    assert IsDigit(u[0]) && IsDigit(v[0]);
    if a < 0 {
      Assoc(['-'], u, x);
      Assoc(['-'], v, y);
      CancelPrefix(['-'], u + x, v + y);
    }
    SpanUnique(u, v, x, y);
  }

  // ---- values, objects, arrays ----

  lemma FirstOf(v: Value, x: Text)
    ensures Rendered(v) != [] && (Rendered(v) + x)[0] == Rendered(v)[0]
    ensures v.Str? ==> Rendered(v)[0] == '"'
    ensures v.Null? ==> Rendered(v)[0] == 'n'
    ensures v.Num? ==> Rendered(v)[0] == '-' || IsDigit(Rendered(v)[0])
  {
    if v.Num? { DigitsParse(if v.value < 0 then -v.value else v.value); }
  }

  /** A value is determined by what it renders to, and null is not the empty string. */
  lemma ValueDelimits(v: Value, w: Value, x: Text, y: Text)
    requires Rendered(v) + x == Rendered(w) + y && EndsNumber(x) && EndsNumber(y)
    ensures v == w && x == y
  {
    FirstOf(v, x);
    FirstOf(w, y);
    match v {
      case Str(s) => QuotedDelimits(s, w.text, x, y);
      case Num(a) => NumberDelimits(a, w.value, x, y);
      case Null => CancelPrefix("null", x, y);
    }
  }

  lemma FieldsEndNumber(names: seq<string>, values: seq<Value>, i: nat, x: Text)
    requires 0 < i <= |names| == |values|
    ensures EndsNumber(Fields(names, values, i) + x)
  {
    var t := Fields(names, values, i);
    assert t[0] == if i == |names| then '}' else ',';
    assert (t + x)[0] == t[0];
  }

  lemma FieldText(names: seq<string>, values: seq<Value>, i: nat, x: Text)
    requires i < |names| == |values|
    ensures var before := (if i == 0 then "" else ",") + Quoted(names[i]) + ":";
            Fields(names, values, i) + x == before + (Rendered(values[i]) + (Fields(names, values, i + 1) + x))
  {
    hide Quoted, Rendered;
  }

  lemma {:induction false} FieldsDelimit(names: seq<string>, vs: seq<Value>, ws: seq<Value>, i: nat, x: Text, y: Text)
    requires i <= |names| == |vs| == |ws|
    requires Fields(names, vs, i) + x == Fields(names, ws, i) + y
    ensures vs[i..] == ws[i..] && x == y
    decreases |names| - i
  {
    hide Quoted, Rendered, Fields;
    if i == |names| {
      assert Fields(names, vs, i) == "}" == Fields(names, ws, i) by { LastField(names, vs); LastField(names, ws); }
      CancelPrefix("}", x, y);
    } else {
      var before := (if i == 0 then "" else ",") + Quoted(names[i]) + ":";
      var fx, fy := Fields(names, vs, i + 1) + x, Fields(names, ws, i + 1) + y;
      FieldText(names, vs, i, x);
      FieldText(names, ws, i, y);
      CancelPrefix(before, Rendered(vs[i]) + fx, Rendered(ws[i]) + fy);
      FieldsEndNumber(names, vs, i + 1, x);
      FieldsEndNumber(names, ws, i + 1, y);
      ValueDelimits(vs[i], ws[i], fx, fy);
      FieldsDelimit(names, vs, ws, i + 1, x, y);
      assert vs[i..] == [vs[i]] + vs[i + 1..] && ws[i..] == [ws[i]] + ws[i + 1..];
    }
  }

  lemma LastField(names: seq<string>, values: seq<Value>)
    requires |names| == |values|
    ensures Fields(names, values, |names|) == "}"
  {}

  /** An object with known names ends where its text says, and holds the values it was made from. */
  lemma ObjectDelimits(names: seq<string>, vs: seq<Value>, ws: seq<Value>, x: Text, y: Text)
    requires |names| == |vs| == |ws| && Object(names, vs) + x == Object(names, ws) + y
    ensures vs == ws && x == y
  {
    hide Fields;
    Assoc("{", Fields(names, vs, 0), x);
    Assoc("{", Fields(names, ws, 0), y);
    CancelPrefix("{", Fields(names, vs, 0) + x, Fields(names, ws, 0) + y);
    FieldsDelimit(names, vs, ws, 0, x, y);
  }

  lemma ElementsFirst(names: seq<string>, rows: seq<seq<Value>>, i: nat, x: Text)
    requires i <= |rows| && forall r :: r in rows ==> |r| == |names|
    ensures Elements(names, rows, i) != []
    ensures (Elements(names, rows, i) + x)[0] == if i == |rows| then ']' else if i == 0 then '{' else ','
  {
    hide Fields;
    if i < |rows| { assert Object(names, rows[i])[0] == '{'; }
  }

  lemma ElementText(names: seq<string>, rows: seq<seq<Value>>, i: nat, x: Text)
    requires i < |rows| && forall r :: r in rows ==> |r| == |names|
    ensures Elements(names, rows, i) + x
         == (if i == 0 then "" else ",") + (Object(names, rows[i]) + (Elements(names, rows, i + 1) + x))
  {
    hide Object;
  }

  lemma {:induction false} ElementsDelimit(names: seq<string>, rs: seq<seq<Value>>, ss: seq<seq<Value>>, i: nat, x: Text, y: Text)
    requires i <= |rs| && i <= |ss|
    requires (forall r :: r in rs ==> |r| == |names|) && forall s :: s in ss ==> |s| == |names|
    requires Elements(names, rs, i) + x == Elements(names, ss, i) + y
    ensures rs[i..] == ss[i..] && x == y
    decreases |rs| - i
  {
    hide Object, Elements;
    ElementsFirst(names, rs, i, x);
    ElementsFirst(names, ss, i, y);
    if i == |rs| {
      LastElement(names, rs);
      LastElement(names, ss);
      CancelPrefix("]", x, y);
    } else {
      var comma := if i == 0 then "" else ",";
      var ex, ey := Elements(names, rs, i + 1) + x, Elements(names, ss, i + 1) + y;
      ElementText(names, rs, i, x);
      ElementText(names, ss, i, y);
      CancelPrefix(comma, Object(names, rs[i]) + ex, Object(names, ss[i]) + ey);
      ObjectDelimits(names, rs[i], ss[i], ex, ey);
      ElementsDelimit(names, rs, ss, i + 1, x, y);
      assert rs[i..] == [rs[i]] + rs[i + 1..] && ss[i..] == [ss[i]] + ss[i + 1..];
    }
  }

  lemma LastElement(names: seq<string>, rows: seq<seq<Value>>)
    requires forall r :: r in rows ==> |r| == |names|
    ensures Elements(names, rows, |rows|) == "]"
  {}

  lemma ArrayDelimits(names: seq<string>, rs: seq<seq<Value>>, ss: seq<seq<Value>>, x: Text, y: Text)
    requires (forall r :: r in rs ==> |r| == |names|) && forall s :: s in ss ==> |s| == |names|
    requires Array(names, rs) + x == Array(names, ss) + y
    ensures rs == ss && x == y
  {
    hide Elements;
    Assoc("[", Elements(names, rs, 0), x);
    Assoc("[", Elements(names, ss, 0), y);
    CancelPrefix("[", Elements(names, rs, 0) + x, Elements(names, ss, 0) + y);
    ElementsDelimit(names, rs, ss, 0, x, y);
  }

  // ---- UTF-8 ----

  /** Section 3 of RFC 3629. */
  function Utf8Char(c: char): Bytes {
    var n := c as int;
    if n < 0x80 then [n]
    else if n < 0x800 then [0xC0 + n / 64, 0x80 + n % 64]
    else if n < 0x10000 then [0xE0 + n / 64 / 64, 0x80 + n / 64 % 64, 0x80 + n % 64]
    else [0xF0 + n / 64 / 64 / 64, 0x80 + n / 64 / 64 % 64, 0x80 + n / 64 % 64, 0x80 + n % 64]
  }

  function Utf8(t: Text): Bytes {
    if t == [] then [] else Utf8Char(t[0]) + Utf8(t[1..])
  }

  /** The payload of a continuation byte: six bits after a one and a zero. */
  function Tail(b: byte): Option<int> { if 0x80 <= b < 0xC0 then Some(b - 0x80) else None }

  /** The code point that a sequence of bytes stands for, in the four shapes of the RFC. */
  function CodePoint(u: Bytes): Option<int> {
    if |u| == 1 && u[0] < 0x80 then Some(u[0])
    else if |u| == 2 && 0xC0 <= u[0] < 0xE0 && Tail(u[1]).Some? then Some((u[0] - 0xC0) * 0x40 + Tail(u[1]).value)
    else if |u| == 3 && 0xE0 <= u[0] < 0xF0 && Tail(u[1]).Some? && Tail(u[2]).Some? then
      Some((u[0] - 0xE0) * 0x1000 + Tail(u[1]).value * 0x40 + Tail(u[2]).value)
    else if |u| == 4 && 0xF0 <= u[0] < 0xF8 && Tail(u[1]).Some? && Tail(u[2]).Some? && Tail(u[3]).Some? then
      Some((u[0] - 0xF0) * 0x40000 + Tail(u[1]).value * 0x1000 + Tail(u[2]).value * 0x40 + Tail(u[3]).value)
    else None
  }

  /** Each character is written in its shortest shape, and stands for itself. */
  lemma Utf8Is(c: char)
    ensures CodePoint(Utf8Char(c)) == Some(c as int)
    ensures |Utf8Char(c)| == if c as int < 0x80 then 1 else if c as int < 0x800 then 2 else if c as int < 0x10000 then 3 else 4
  {
    var n := c as int;
    assert n == n / 64 * 64 + n % 64;
    assert n / 64 == n / 64 / 64 * 64 + n / 64 % 64;
    assert n / 64 / 64 == n / 64 / 64 / 64 * 64 + n / 64 / 64 % 64;
  }

  /** The first byte says how many there are. */
  lemma SameLength(c: char, d: char)
    requires Utf8Char(c)[0] == Utf8Char(d)[0]
    ensures |Utf8Char(c)| == |Utf8Char(d)|
  {}

  lemma Utf8CharDelimits(c: char, d: char, x: Bytes, y: Bytes)
    requires Utf8Char(c) + x == Utf8Char(d) + y
    ensures c == d && x == y
  {
    var s, t, u, v := Utf8Char(c) + x, Utf8Char(d) + y, Utf8Char(c), Utf8Char(d);
    assert s[0] == u[0] && t[0] == v[0];
    SameLength(c, d);
    hide Utf8Char;
    assert u == s[..|u|] && v == t[..|u|];
    SameBytes(c, d);
    CancelPrefix(u, x, y);
  }

  lemma SameDigits(m: nat, n: nat)
    requires m / 64 == n / 64 && m % 64 == n % 64
    ensures m == n
  {}

  lemma SameBytes(c: char, d: char)
    requires Utf8Char(c) == Utf8Char(d)
    ensures c == d
  {
    var m, n, u, v := c as int, d as int, Utf8Char(c), Utf8Char(d);
    assert |u| > 0 && u[0] == v[0] && u[|u| - 1] == v[|u| - 1];
    if |u| > 1 {
      assert |u| > 2 ==> u[1] == v[1];
      assert |u| > 3 ==> u[2] == v[2];
      if |u| > 2 {
        if |u| > 3 { SameDigits(m / 64 / 64, n / 64 / 64); }
        SameDigits(m / 64, n / 64);
      }
      SameDigits(m, n);
    }
  }

  lemma {:induction false} Utf8Append(a: Text, b: Text)
    ensures Utf8(a + b) == Utf8(a) + Utf8(b)
  {
    hide Utf8Char;
    if a == [] {
      assert a + b == b && [] + Utf8(b) == Utf8(b);
    } else {
      assert (a + b)[0] == a[0] && (a + b)[1..] == a[1..] + b;
      Utf8Append(a[1..], b);
      Assoc(Utf8Char(a[0]), Utf8(a[1..]), Utf8(b));
    }
  }

  lemma {:induction false} Utf8Injective(a: Text, b: Text)
    requires Utf8(a) == Utf8(b)
    ensures a == b
  {
    hide Utf8Char;
    if a == [] {
      if b != [] { Utf8Nonempty(b); }
    } else if b == [] {
      Utf8Nonempty(a);
    } else {
      Utf8CharDelimits(a[0], b[0], Utf8(a[1..]), Utf8(b[1..]));
      Utf8Injective(a[1..], b[1..]);
      assert a == [a[0]] + a[1..] && b == [b[0]] + b[1..];
    }
  }

  lemma Utf8Nonempty(a: Text)
    requires a != []
    ensures Utf8(a) != []
  {
    assert |Utf8Char(a[0])| > 0;
  }

  predicate Ascii(t: Text) { forall i :: 0 <= i < |t| ==> t[i] as int < 0x80 }

  lemma {:induction false} Utf8Ascii(t: Text)
    requires Ascii(t)
    ensures |Utf8(t)| == |t| && forall i :: 0 <= i < |t| ==> Utf8(t)[i] == t[i] as int
  {
    if t != [] { Utf8Ascii(t[1..]); }
  }
}
