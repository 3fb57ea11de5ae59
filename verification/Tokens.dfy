/** HTML tokens as the publishing step rewrites them (internal/mockup/token.go). */
module Tokens {
  import opened Wrappers

  datatype Attr = Attr(key: string, val: string)

  datatype Tok = Start(name: string, attrs: seq<Attr>) | SelfClosing(name: string, attrs: seq<Attr>)
               | End(name: string) | Text(text: string) | Other | Gone

  /** What the tokenizer produces: `Gone` only stands for a token that was dropped. */
  type Token = t: Tok | !t.Gone? witness Other

  /** A token and whether it is left out of the output. */
  datatype Cell = Cell(tok: Token, dropped: bool)

  /** What a scan that skips dropped tokens sees. */
  function View(c: Cell): Tok { if c.dropped then Gone else c.tok }

  function Shown(t: Tok): seq<Tok> { if t.Gone? then [] else [t] }

  const SC_FOR: string := "sc-for"
  const SC_IF: string := "sc-if"
  const X_IMPORT: string := "x-import"

  const VOID: set<string> := {"area", "base", "br", "col", "embed", "hr", "img", "input", "link", "meta", "param",
                              "source", "track", "wbr"}

  const TABLE: set<string> := {"table", "thead", "tbody", "tfoot", "tr"}

  predicate IsDirective(name: string) { name == SC_FOR || name == SC_IF }

  predicate IsBlock(name: string) { IsDirective(name) || name == X_IMPORT }

  predicate OpensLevel(t: Tok) { t.Start? && t.name !in VOID }

  predicate IsElement(t: Tok) { t.Start? || t.SelfClosing? }

  /** The first attribute of a name is the one a parser keeps. */
  function Find(attrs: seq<Attr>, key: string): Option<string> {
    if attrs == [] then None else if attrs[0].key == key then Some(attrs[0].val) else Find(attrs[1..], key)
  }

  function Get(attrs: seq<Attr>, key: string): string {
    var v := Find(attrs, key);
    if v.Some? then v.value else ""
  }

  predicate Has(attrs: seq<Attr>, key: string) { Find(attrs, key).Some? }

  /** Of several attributes of one name the first is the value, and of none it is the empty text. */
  lemma {:induction false} GetIs(attrs: seq<Attr>, key: string)
    ensures Has(attrs, key) <==> exists a :: a in attrs && a.key == key
    ensures !Has(attrs, key) ==> Get(attrs, key) == ""
    ensures forall i :: 0 <= i < |attrs| && attrs[i].key == key && (forall j :: 0 <= j < i ==> attrs[j].key != key) ==>
      Get(attrs, key) == attrs[i].val
  {
    if attrs != [] {
      GetIs(attrs[1..], key);
      assert attrs == [attrs[0]] + attrs[1..];
      forall i | 0 < i < |attrs| && attrs[i].key == key && forall j :: 0 <= j < i ==> attrs[j].key != key
        ensures Get(attrs, key) == attrs[i].val
      {
        assert attrs[1..][i - 1] == attrs[i] && attrs[0].key != key;
        forall j | 0 <= j < i - 1 ensures attrs[1..][j].key != key {}
      }
    }
  }

  /** The element names that the rewriting knows: its blocks, HTML's void elements, and the parts of a table. */
  lemma NamesAre(name: string, attrs: seq<Attr>)
    ensures IsBlock(name) <==> name == "sc-for" || name == "sc-if" || name == "x-import"
    ensures IsDirective(name) <==> name == "sc-for" || name == "sc-if"
    ensures !OpensLevel(Start(name, attrs)) <==>
      name in {"area", "base", "br", "col", "embed", "hr", "img", "input", "link", "meta", "param", "source", "track", "wbr"}
    ensures name in TABLE <==> name in {"table", "thead", "tbody", "tfoot", "tr"}
  {}

  function Emit(cells: seq<Cell>): seq<Tok> {
    if cells == [] then []
    else Emit(cells[..|cells| - 1]) + if cells[|cells| - 1].dropped then [] else [cells[|cells| - 1].tok]
  }

  predicate Tokenized(toks: seq<Tok>) { forall i :: 0 <= i < |toks| ==> !toks[i].Gone? }

  function Fresh(toks: seq<Tok>): (r: seq<Cell>)
    requires Tokenized(toks)
    ensures |r| == |toks| && forall i :: 0 <= i < |toks| ==> r[i] == Cell(toks[i], false)
  {
    seq(|toks|, i requires 0 <= i < |toks| => Cell(toks[i], false))
  }

  lemma {:induction false} EmitAppend(a: seq<Cell>, b: seq<Cell>)
    ensures Emit(a + b) == Emit(a) + Emit(b)
  {
    if b == [] {
      assert a + b == a;
    } else {
      var n := |b| - 1;
      assert (a + b)[..|a| + n] == a + b[..n];
      EmitAppend(a, b[..n]);
    }
  }

  lemma {:induction false} EmitFresh(toks: seq<Tok>)
    requires Tokenized(toks)
    ensures Emit(Fresh(toks)) == toks
  {
    if toks != [] {
      var n := |toks| - 1;
      assert Fresh(toks)[..n] == Fresh(toks[..n]);
      EmitFresh(toks[..n]);
      assert toks == toks[..n] + [toks[n]];
    }
  }

  lemma EmitOne(c: Cell)
    ensures Emit([c]) == Shown(View(c))
  {
    assert [c][..0] == [];
  }

  /** `emit`: concatenate what was not dropped. */
  method EmitAll(a: array<Cell>) returns (out: seq<Tok>)
    ensures out == Emit(a[..])
  {
    out := [];
    for i := 0 to a.Length
      invariant out == Emit(a[..i])
    {
      assert a[..i + 1][..i] == a[..i];
      if !a[i].dropped { out := out + [a[i].tok]; }
    }
    assert a[..a.Length] == a[..];
  }
}
