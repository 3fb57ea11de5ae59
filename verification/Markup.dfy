/** Well-nested pages as trees, and lifting on the tree, which lifting on the tokens refines. */
module Markup {
  import opened Wrappers
  import opened Tokens
  import opened Lifting

  /** How an element is written: a start and an end tag, a self-closing tag, or a void start tag. */
  datatype Form = Paired | Slash | Bare

  datatype Node = Element(name: string, attrs: seq<Attr>, kids: seq<Node>, form: Form)
                | TextNode(text: string) | Comment

  predicate WellFormed(n: Node) {
    n.Element? ==>
      && (n.form.Bare? <==> n.form != Slash && n.name in VOID)
      && (!n.form.Paired? ==> n.kids == [])
      && AllWellFormed(n.kids)
  }

  predicate AllWellFormed(f: seq<Node>) {
    forall i :: 0 <= i < |f| ==> WellFormed(f[i])
  }

  function Tag(n: Node): Tok
    requires n.Element?
  {
    if n.form.Slash? then SelfClosing(n.name, n.attrs) else Start(n.name, n.attrs)
  }

  function Flat(n: Node): seq<Tok> {
    match n
    case TextNode(s) => [Text(s)]
    case Comment => [Other]
    case Element(name, _, kids, form) => if form.Paired? then [Tag(n)] + FlatAll(kids) + [End(name)] else [Tag(n)]
  }

  function FlatAll(f: seq<Node>): seq<Tok> {
    if f == [] then [] else Flat(f[0]) + FlatAll(f[1..])
  }

  // ---- lifting on the tree ----

  predicate Loose(n: Node) { n.TextNode? && !Blank(n.text) }

  /** The positions of the element children. */
  function Elements(f: seq<Node>): (r: seq<nat>)
    ensures forall j :: 0 <= j < |r| ==> r[j] < |f| && f[r[j]].Element?
  {
    if f == [] then []
    else
      var n := |f| - 1;
      Elements(f[..n]) + if f[n].Element? then [n] else []
  }

  /** The one child a block can be lifted onto. */
  predicate LiftsOnto(name: string, kids: seq<Node>, inTable: bool) {
    && (name == X_IMPORT ==> inTable)
    && |Elements(kids)| == 1 && (forall k :: k in kids ==> !Loose(k)) && !IsBlock(kids[Elements(kids)[0]].name)
  }

  function Given(n: Node, attrs: seq<Attr>): Node
    requires n.Element?
  {
    n.(attrs := n.attrs + attrs)
  }

  function LiftBlock(n: Node, kids: seq<Node>, inTable: bool): seq<Node>
    requires n.Element?
  {
    if LiftsOnto(n.name, kids, inTable)
    then
      var k := Elements(kids)[0];
      kids[k := Given(kids[k], LiftedAttrs(n.name, n.attrs))]
    else [n.(kids := kids)]
  }

  /** A lifted block gives way to its children: white space stays where it was, around the child. */
  function LiftNode(n: Node, inTable: bool): seq<Node> {
    if !n.Element? || !n.form.Paired? then [n]
    else
      var kids := LiftAll(n.kids, inTable || n.name in TABLE);
      if IsBlock(n.name) then LiftBlock(n, kids, inTable) else [n.(kids := kids)]
  }

  function LiftAll(f: seq<Node>, inTable: bool): seq<Node> {
    if f == [] then [] else LiftNode(f[0], inTable) + LiftAll(f[1..], inTable)
  }

  /** The table flag of each token of a tree. */
  function Flags(n: Node, inTable: bool): (r: seq<bool>)
    ensures |r| == |Flat(n)|
  {
    match n
    case TextNode(_) => [false]
    case Comment => [false]
    case Element(name, _, kids, form) =>
      if form.Paired? then [inTable] + FlagsAll(kids, inTable || name in TABLE) + [false] else [inTable]
  }

  function FlagsAll(f: seq<Node>, inTable: bool): (r: seq<bool>)
    ensures |r| == |FlatAll(f)|
  {
    if f == [] then [] else Flags(f[0], inTable) + FlagsAll(f[1..], inTable)
  }

  // ---- trees and forests ----

  lemma {:induction false} FlatAppend(f: seq<Node>, g: seq<Node>)
    ensures FlatAll(f + g) == FlatAll(f) + FlatAll(g)
  {
    hide Flat;
    if f == [] {
      assert f + g == g;
    } else {
      assert (f + g)[0] == f[0] && (f + g)[1..] == f[1..] + g;
      FlatAppend(f[1..], g);
    }
  }

  lemma FlatOne(n: Node)
    ensures FlatAll([n]) == Flat(n)
  {
    assert [n][1..] == [];
    assert Flat(n) + [] == Flat(n);
  }

  lemma FlatFirst(f: seq<Node>)
    requires f != []
    ensures FlatAll(f) == Flat(f[0]) + FlatAll(f[1..])
  {}

  lemma FlatPaired(n: Node)
    requires n.Element? && n.form.Paired?
    ensures Flat(n) == [Tag(n)] + FlatAll(n.kids) + [End(n.name)]
  {}

  // ---- the scans of the code, over a tree ----

  lemma {:induction false} MatchShift(a: seq<Tok>, b: seq<Tok>, i: nat, depth: int, name: string)
    requires i <= |b|
    ensures MatchFrom(a + b, |a| + i, depth, name) == match MatchFrom(b, i, depth, name) case None => None case Some(e) => Some(|a| + e)
    decreases |b| - i
  {
    if i < |b| {
      assert (a + b)[|a| + i] == b[i];
      MatchShift(a, b, i + 1, depth + 1, name);
      MatchShift(a, b, i + 1, depth - 1, name);
      MatchShift(a, b, i + 1, depth, name);
    }
  }

  /** Scanning past a whole tree leaves the depth as it was. */
  /** One turn of the scan. */
  lemma MatchAt(toks: seq<Tok>, i: nat, depth: int, name: string)
    requires i < |toks|
    ensures MatchFrom(toks, i, depth, name) ==
      if IsBlockStart(toks[i]) then MatchFrom(toks, i + 1, depth + 1, name)
      else if IsBlockEnd(toks[i]) then
        if depth == 1 then (if toks[i].name == name then Some(i) else None)
        else MatchFrom(toks, i + 1, depth - 1, name)
      else MatchFrom(toks, i + 1, depth, name)
  {}

  lemma FlatUnpaired(n: Node)
    requires WellFormed(n) && !(n.Element? && n.form.Paired?)
    ensures |Flat(n)| == 1 && !IsBlockStart(Flat(n)[0]) && !IsBlockEnd(Flat(n)[0])
  {}

  lemma {:induction false} MatchPast(n: Node, rest: seq<Tok>, depth: int, name: string)
    requires WellFormed(n) && depth >= 1
    ensures MatchFrom(Flat(n) + rest, 0, depth, name) == MatchFrom(Flat(n) + rest, |Flat(n)|, depth, name)
    decreases n, 0
  {
    hide MatchFrom, Flat, FlatAll;
    var all := Flat(n) + rest;
    if n.Element? && n.form.Paired? {
      var tag, kids, end := [Tag(n)], FlatAll(n.kids), [End(n.name)];
      FlatPaired(n);
      assert all == tag + (kids + (end + rest));
      var inner := if IsBlock(n.name) then depth + 1 else depth;
      assert all[0] == Tag(n);
      MatchAt(all, 0, depth, name);
      MatchShift(tag, kids + (end + rest), 0, inner, name);
      MatchPastAll(n.kids, end + rest, inner, name);
      MatchShift(tag, kids + (end + rest), |kids|, inner, name);
      assert all[1 + |kids|] == End(n.name);
      MatchAt(all, 1 + |kids|, inner, name);
      assert |Flat(n)| == |kids| + 2;
    } else {
      FlatUnpaired(n);
      assert all[0] == Flat(n)[0];
      MatchAt(all, 0, depth, name);
    }
  }

  lemma {:induction false} MatchPastAll(f: seq<Node>, rest: seq<Tok>, depth: int, name: string)
    requires AllWellFormed(f) && depth >= 1
    ensures MatchFrom(FlatAll(f) + rest, 0, depth, name) == MatchFrom(FlatAll(f) + rest, |FlatAll(f)|, depth, name)
    decreases f, 1
  {
    hide MatchFrom, Flat;
    if f == [] {
    } else {
      var first, more := Flat(f[0]), FlatAll(f[1..]);
      FlatFirst(f);
      assert FlatAll(f) + rest == first + (more + rest);
      MatchPast(f[0], more + rest, depth, name);
      MatchShift(first, more + rest, 0, depth, name);
      MatchPastAll(f[1..], rest, depth, name);
      MatchShift(first, more + rest, |more|, depth, name);
    }
  }

  /** A block's end tag is its own, whatever blocks it holds. */
  lemma BlockEndOfTree(n: Node, rest: seq<Tok>)
    requires WellFormed(n) && n.Element? && n.form.Paired? && IsBlock(n.name)
    ensures BlockEnd(Flat(n) + rest) == Some(|Flat(n)| - 1)
  {
    var tag, kids, end := [Tag(n)], FlatAll(n.kids), [End(n.name)];
    FlatPaired(n);
    var all := Flat(n) + rest;
    assert all == tag + (kids + (end + rest)) && all[0] == Tag(n);
    MatchShift(tag, kids + (end + rest), 0, 1, n.name);
    MatchPastAll(n.kids, end + rest, 1, n.name);
    MatchShift(tag, kids + (end + rest), |kids|, 1, n.name);
    assert all[1 + |kids|] == End(n.name) && |Flat(n)| == |kids| + 2;
  }

  function Shifted(s: seq<nat>, far: nat): (r: seq<nat>)
    ensures |r| == |s| && forall j :: 0 <= j < |s| ==> r[j] == far + s[j]
  {
    seq(|s|, j requires 0 <= j < |s| => far + s[j])
  }

  lemma {:induction false} TopShift(a: seq<Tok>, b: seq<Tok>, i: nat, depth: nat)
    requires i <= |b|
    ensures var top, all := TopFrom(b, i, depth), TopFrom(a + b, |a| + i, depth);
            all.0 == Shifted(top.0, |a|) && all.1 == top.1
    decreases |b| - i
  {
    hide Blank, TopFrom, Shifted, NextDepth, IsElement;
    if i < |b| {
      var t := b[i];
      var next := NextDepth(t, depth);
      assert (a + b)[|a| + i] == t;
      TopShift(a, b, i + 1, next);
      TopStep(b, i, depth);
      TopStep(a + b, |a| + i, depth);
      ShiftedCons(i, TopFrom(b, i + 1, next).0, |a|);
    } else {
      TopEnd(b, depth);
      TopEnd(a + b, depth);
      ShiftedNone(|a|);
    }
  }

  function NextDepth(t: Tok, depth: nat): nat {
    if t.End? then (if depth > 0 then depth - 1 else 0) else if OpensLevel(t) then depth + 1 else depth
  }

  lemma TopStep(toks: seq<Tok>, i: nat, depth: nat)
    requires i < |toks|
    ensures var here, rest := TopFrom(toks, i, depth), TopFrom(toks, i + 1, NextDepth(toks[i], depth));
            && here.0 == (if IsElement(toks[i]) && depth == 0 then [i] + rest.0 else rest.0)
            && here.1 == (rest.1 || (toks[i].Text? && depth == 0 && !Blank(toks[i].text)))
  {
    hide Blank;
  }

  lemma ShiftedNone(far: nat)
    ensures Shifted([], far) == []
  {}

  lemma ShiftedCons(i: nat, s: seq<nat>, far: nat)
    ensures Shifted([i] + s, far) == [far + i] + Shifted(s, far)
  {}

  /** Inside an element nothing is a top-level child, and the depth comes back to what it was. */
  lemma {:induction false} TopInside(f: seq<Node>, rest: seq<Tok>, depth: nat)
    requires AllWellFormed(f) && depth > 0
    ensures TopFrom(FlatAll(f) + rest, 0, depth) == TopFrom(FlatAll(f) + rest, |FlatAll(f)|, depth)
    decreases f, 1
  {
    hide TopFrom, Flat;
    if f != [] {
      var first, more := Flat(f[0]), FlatAll(f[1..]);
      FlatFirst(f);
      assert FlatAll(f) + rest == first + (more + rest);
      TopInsideOne(f[0], more + rest, depth);
      TopShift(first, more + rest, 0, depth);
      TopInside(f[1..], rest, depth);
      TopShift(first, more + rest, |more|, depth);
    }
  }

  lemma {:induction false} TopInsideOne(n: Node, rest: seq<Tok>, depth: nat)
    requires WellFormed(n) && depth > 0
    ensures TopFrom(Flat(n) + rest, 0, depth) == TopFrom(Flat(n) + rest, |Flat(n)|, depth)
    decreases n, 0
  {
    hide Blank;
    if n.Element? && n.form.Paired? {
      TopPaired(n, rest, depth);
    } else {
      assert (Flat(n) + rest)[0] == Flat(n)[0];
    }
  }

  lemma {:induction false} TopPaired(n: Node, rest: seq<Tok>, depth: nat)
    requires WellFormed(n) && n.Element? && n.form.Paired?
    ensures var all := Flat(n) + rest;
            TopFrom(all, 1, depth + 1) == TopFrom(all, |Flat(n)|, depth)
    decreases n, 0, 0
  {
    var tag, kids, end := [Tag(n)], FlatAll(n.kids), [End(n.name)];
    FlatPaired(n);
    var all := Flat(n) + rest;
    assert all == tag + (kids + (end + rest));
    TopShift(tag, kids + (end + rest), 0, depth + 1);
    TopInside(n.kids, end + rest, depth + 1);
    TopShift(tag, kids + (end + rest), |kids|, depth + 1);
    assert all[1 + |kids|] == End(n.name) && |Flat(n)| == |kids| + 2;
  }

  /** Where child `k` of a forest starts. */
  function Offset(f: seq<Node>, k: nat): nat
    requires k <= |f|
  {
    |FlatAll(f[..k])|
  }

  /** The scan of one whole child at the top level. */
  lemma TopOfOne(n: Node, rest: seq<Tok>)
    requires WellFormed(n)
    ensures var all := Flat(n) + rest;
            var here, after := TopFrom(all, 0, 0), TopFrom(all, |Flat(n)|, 0);
            && here.0 == (if n.Element? then [0] else []) + after.0
            && here.1 == (Loose(n) || after.1)
  {
    hide Blank;
    var all := Flat(n) + rest;
    if n.Element? && n.form.Paired? {
      FlatPaired(n);
      TopPaired(n, rest, 0);
      assert all[0] == Tag(n);
    } else {
      assert all[0] == Flat(n)[0];
    }
  }

  /** Offsets of the element children, from the front. */
  function Offsets(f: seq<Node>): seq<nat> {
    if f == [] then []
    else (if f[0].Element? then [0] else []) + Shifted(Offsets(f[1..]), |Flat(f[0])|)
  }

  /** `topLevelChildren` finds the element children of a tree, and its loose text. */
  lemma {:induction false} TopOfForest(f: seq<Node>)
    requires AllWellFormed(f)
    ensures TopFrom(FlatAll(f), 0, 0).0 == Offsets(f)
    ensures TopFrom(FlatAll(f), 0, 0).1 <==> exists k :: k in f && Loose(k)
  {
    hide TopFrom, Flat;
    if f == [] {
      assert FlatAll(f) == [];
      TopEnd([], 0);
    } else {
      var first, more := Flat(f[0]), FlatAll(f[1..]);
      TopOfForest(f[1..]);
      TopOfOne(f[0], more);
      TopShift(first, more, 0, 0);
      assert f == [f[0]] + f[1..];
    }
  }

  lemma {:induction false} OffsetsAre(f: seq<Node>)
    ensures Offsets(f) == MapOffsets(f, Elements(f))
    decreases |f|
  {
    hide Flat, FlatAll;
    if f != [] {
      var n := |f| - 1;
      OffsetsAre(f[..n]);
      OffsetsSnoc(f[..n], f[n]);
      assert f == f[..n] + [f[n]];
      var es := Elements(f[..n]);
      forall j | 0 <= j < |es| ensures Offset(f, es[j]) == Offset(f[..n], es[j]) {
        assert f[..n][..es[j]] == f[..es[j]];
      }
    }
  }

  function MapOffsets(f: seq<Node>, ks: seq<nat>): (r: seq<nat>)
    requires forall j :: 0 <= j < |ks| ==> ks[j] <= |f|
    ensures |r| == |ks| && forall j :: 0 <= j < |ks| ==> r[j] == Offset(f, ks[j])
  {
    seq(|ks|, j requires 0 <= j < |ks| => Offset(f, ks[j]))
  }

  lemma {:induction false} OffsetsSnoc(f: seq<Node>, n: Node)
    ensures Offsets(f + [n]) == Offsets(f) + if n.Element? then [|FlatAll(f)|] else []
  {
    hide Flat, Offsets, FlatAll;
    if f == [] {
      OffsetsCons(n, []);
      NoOffsets();
      assert [] + [n] == [n] + [];
    } else {
      var more := if n.Element? then [|FlatAll(f[1..])|] else [];
      assert f + [n] == [f[0]] + (f[1..] + [n]) && f == [f[0]] + f[1..];
      OffsetsSnoc(f[1..], n);
      OffsetsCons(f[0], f[1..] + [n]);
      OffsetsCons(f[0], f[1..]);
      ShiftedAppend(Offsets(f[1..]), more, |Flat(f[0])|);
      FlatFirst(f);
      var head := if f[0].Element? then [0] else [];
      Reassociate(head, Shifted(Offsets(f[1..]), |Flat(f[0])|), Shifted(more, |Flat(f[0])|));
      assert Shifted(more, |Flat(f[0])|) == if n.Element? then [|FlatAll(f)|] else [];
    }
  }

  lemma OffsetsCons(n: Node, rest: seq<Node>)
    ensures Offsets([n] + rest) == (if n.Element? then [0] else []) + Shifted(Offsets(rest), |Flat(n)|)
  {
    hide Flat;
    assert ([n] + rest)[1..] == rest;
  }

  lemma NoOffsets()
    ensures Offsets([]) == [] && FlatAll([]) == [] && forall far :: Shifted([], far) == []
  {}

  lemma ShiftedAppend(s: seq<nat>, t: seq<nat>, far: nat)
    ensures Shifted(s + t, far) == Shifted(s, far) + Shifted(t, far)
  {}

  lemma FlatSplit(f: seq<Node>, k: nat)
    requires k < |f|
    ensures FlatAll(f) == FlatAll(f[..k]) + (Flat(f[k]) + FlatAll(f[k + 1..]))
  {
    hide Flat;
    assert f == f[..k] + f[k..];
    FlatAppend(f[..k], f[k..]);
    FlatFirst(f[k..]);
    assert f[k..][1..] == f[k + 1..];
  }

  lemma TagIsFirst(n: Node)
    requires n.Element?
    ensures |Flat(n)| > 0 && Flat(n)[0] == Tag(n)
  {}

  /** The condition on tokens is the condition on the tree, and it points at the same child. */
  lemma CanLiftIs(name: string, kids: seq<Node>, inTable: bool)
    requires AllWellFormed(kids)
    ensures CanLift(name, FlatAll(kids), inTable) <==> LiftsOnto(name, kids, inTable)
    ensures LiftsOnto(name, kids, inTable) ==> TopFrom(FlatAll(kids), 0, 0).0[0] == Offset(kids, Elements(kids)[0])
  {
    hide TopFrom, Flat;
    TopOfForest(kids);
    OffsetsAre(kids);
    if |Elements(kids)| == 1 {
      var k := Elements(kids)[0];
      FlatSplit(kids, k);
      TagIsFirst(kids[k]);
      assert FlatAll(kids)[Offset(kids, k)] == Tag(kids[k]);
      assert Tag(kids[k]).name == kids[k].name;
    }
  }

  lemma GivenFlat(n: Node, attrs: seq<Attr>)
    requires n.Element?
    ensures Flat(Given(n, attrs)) == Flat(n)[0 := AddAttrs(Tag(n), attrs)]
  {
    var g := Given(n, attrs);
    assert Tag(g) == AddAttrs(Tag(n), attrs);
    if n.form.Paired? {
      FlatPaired(n);
      FlatPaired(g);
      assert Flat(n) == [Tag(n)] + (FlatAll(n.kids) + [End(n.name)]);
      assert Flat(g) == [Tag(g)] + (FlatAll(n.kids) + [End(n.name)]);
    }
  }

  lemma GivenInForest(f: seq<Node>, k: nat, attrs: seq<Attr>)
    requires k < |f| && f[k].Element?
    ensures Offset(f, k) < |FlatAll(f)| && FlatAll(f)[Offset(f, k)] == Tag(f[k])
    ensures FlatAll(f[k := Given(f[k], attrs)]) == FlatAll(f)[Offset(f, k) := AddAttrs(Tag(f[k]), attrs)]
  {
    hide Flat, FlatAll, Given, AddAttrs;
    var given := Given(f[k], attrs);
    var g := f[k := given];
    FlatSplit(f, k);
    FlatSplit(g, k);
    assert g[..k] == f[..k] && g[k + 1..] == f[k + 1..] && g[k] == given;
    TagIsFirst(f[k]);
    GivenFlat(f[k], attrs);
    UpdateInside(FlatAll(f[..k]), Flat(f[k]), FlatAll(f[k + 1..]), AddAttrs(Tag(f[k]), attrs));
  }

  lemma UpdateInside<T>(a: seq<T>, b: seq<T>, c: seq<T>, x: T)
    requires b != []
    ensures (a + (b + c))[|a|] == b[0] && (a + (b + c))[|a| := x] == a + (b[0 := x] + c)
  {}

  lemma OntoIs(n: Node, kids: seq<Node>, inTable: bool)
    requires n.Element? && n.form.Paired? && IsBlock(n.name) && AllWellFormed(kids)
    ensures Onto(Tag(n), FlatAll(kids), End(n.name), inTable) == FlatAll(LiftBlock(n, kids, inTable))
  {
    hide TopFrom, Flat, LiftsOnto, CanLift, LiftedAttrs;
    CanLiftIs(n.name, kids, inTable);
    if LiftsOnto(n.name, kids, inTable) {
      OneElement(n.name, kids, inTable);
      GivenInForest(kids, Elements(kids)[0], LiftedAttrs(n.name, n.attrs));
    } else {
      FlatOne(n.(kids := kids));
      FlatPaired(n.(kids := kids));
    }
  }

  lemma OneElement(name: string, kids: seq<Node>, inTable: bool)
    ensures LiftsOnto(name, kids, inTable) ==> |Elements(kids)| == 1 && kids[Elements(kids)[0]].Element?
  {}

  // ---- lifting the tokens of a tree ----

  lemma {:induction false} LiftKeepsForm(n: Node, inTable: bool)
    requires WellFormed(n)
    ensures AllWellFormed(LiftNode(n, inTable))
    decreases n, 0
  {
    hide LiftsOnto, LiftedAttrs;
    if n.Element? && n.form.Paired? {
      var kids := LiftAll(n.kids, inTable || n.name in TABLE);
      LiftKeepsForms(n.kids, inTable || n.name in TABLE);
      OneElement(n.name, kids, inTable);
      if IsBlock(n.name) && LiftsOnto(n.name, kids, inTable) {
        var k := Elements(kids)[0];
        assert WellFormed(kids[k]);
        assert WellFormed(Given(kids[k], LiftedAttrs(n.name, n.attrs)));
      }
    }
  }

  /** The lifted page is well nested. */
  lemma {:induction false} LiftKeepsForms(f: seq<Node>, inTable: bool)
    requires AllWellFormed(f)
    ensures AllWellFormed(LiftAll(f, inTable))
    decreases f, 1
  {
    if f != [] {
      LiftKeepsForm(f[0], inTable);
      LiftKeepsForms(f[1..], inTable);
    }
  }

  /** The tokens of a paired element and what follows, with their flags, cut up. */
  lemma CutPaired(n: Node, inTable: bool, rest: seq<Tok>, flags: seq<bool>)
    requires n.Element? && n.form.Paired? && |flags| == |rest|
    ensures var below := inTable || n.name in TABLE;
            var body, marks := FlatAll(n.kids), FlagsAll(n.kids, below);
            var all, allMarks := Flat(n) + rest, Flags(n, inTable) + flags;
            && |Flat(n)| == |body| + 2 && |allMarks| == |all| && |body| == |marks|
            && all[0] == Tag(n) && allMarks[0] == inTable
            && all[1..] == body + ([End(n.name)] + rest) && allMarks[1..] == marks + ([false] + flags)
            && all[1..|body| + 1] == body && allMarks[1..|body| + 1] == marks && all[|body| + 1] == End(n.name)
            && all[|body| + 2..] == rest && allMarks[|body| + 2..] == flags
  {
    hide Flat, FlatAll, Flags, FlagsAll, Tag;
    FlatPaired(n);
    FlagsPaired(n, inTable);
    var below := inTable || n.name in TABLE;
    Cut(Tag(n), FlatAll(n.kids), End(n.name), rest);
    Cut(inTable, FlagsAll(n.kids, below), false, flags);
  }

  lemma Cut<T>(first: T, body: seq<T>, last: T, rest: seq<T>)
    ensures var all := ([first] + body + [last]) + rest;
            && all[0] == first && all[1..] == body + ([last] + rest) && all[1..|body| + 1] == body
            && all[|body| + 1] == last && all[|body| + 2..] == rest
  {}

  lemma FlagsPaired(n: Node, inTable: bool)
    requires n.Element? && n.form.Paired?
    ensures Flags(n, inTable) == [inTable] + FlagsAll(n.kids, inTable || n.name in TABLE) + [false]
  {}

  lemma LiftBlockNode(n: Node, inTable: bool, rest: seq<Tok>, flags: seq<bool>)
    requires WellFormed(n) && |flags| == |rest| && n.Element? && n.form.Paired? && IsBlock(n.name)
    requires var below := inTable || n.name in TABLE;
             LiftTokens(FlatAll(n.kids), FlagsAll(n.kids, below)) == FlatAll(LiftAll(n.kids, below))
    ensures LiftTokens(Flat(n) + rest, Flags(n, inTable) + flags)
         == FlatAll(LiftNode(n, inTable)) + LiftTokens(rest, flags)
  {
    hide Flat, FlatAll, Flags, FlagsAll, LiftAll, BlockEnd, CanLift, LiftsOnto, LiftBlock, Onto;
    var below := inTable || n.name in TABLE;
    CutPaired(n, inTable, rest, flags);
    BlockEndOfTree(n, rest);
    LiftKeepsForms(n.kids, below);
    OntoIs(n, LiftAll(n.kids, below), inTable);
  }

  lemma LiftPlainNode(n: Node, inTable: bool, rest: seq<Tok>, flags: seq<bool>)
    requires WellFormed(n) && |flags| == |rest| && n.Element? && n.form.Paired? && !IsBlock(n.name)
    requires var below := inTable || n.name in TABLE;
             LiftTokens(FlatAll(n.kids) + ([End(n.name)] + rest), FlagsAll(n.kids, below) + ([false] + flags))
               == FlatAll(LiftAll(n.kids, below)) + LiftTokens([End(n.name)] + rest, [false] + flags)
    ensures LiftTokens(Flat(n) + rest, Flags(n, inTable) + flags)
         == FlatAll(LiftNode(n, inTable)) + LiftTokens(rest, flags)
  {
    hide Flat, FlatAll, Flags, FlagsAll, LiftAll;
    var below := inTable || n.name in TABLE;
    var lifted := n.(kids := LiftAll(n.kids, below));
    CutPaired(n, inTable, rest, flags);
    LiftUnblocked(Flat(n) + rest, Flags(n, inTable) + flags);
    LiftEnd(n.name, rest, flags);
    FlatOne(lifted);
    FlatPaired(lifted);
    assert Tag(lifted) == Tag(n);
    Regroup([Tag(n)], FlatAll(lifted.kids), [End(n.name)], LiftTokens(rest, flags));
  }

  lemma Regroup<T>(a: seq<T>, b: seq<T>, c: seq<T>, d: seq<T>)
    ensures a + (b + (c + d)) == (a + b + c) + d
  {}

  lemma LiftUnblocked(toks: seq<Tok>, flags: seq<bool>)
    requires |toks| == |flags| && toks != [] && !IsBlockStart(toks[0]) && !toks[0].Gone?
    ensures LiftTokens(toks, flags) == [toks[0]] + LiftTokens(toks[1..], flags[1..])
  {}

  lemma {:induction false} LiftTokensNode(n: Node, inTable: bool, rest: seq<Tok>, flags: seq<bool>)
    requires WellFormed(n) && |flags| == |rest|
    ensures LiftTokens(Flat(n) + rest, Flags(n, inTable) + flags)
         == FlatAll(LiftNode(n, inTable)) + LiftTokens(rest, flags)
    decreases n, 0
  {
    hide MatchFrom, CanLift, LiftsOnto, LiftBlock, Onto, LiftTokens, LiftAll, FlatAll, FlagsAll;
    if n.Element? && n.form.Paired? {
      var kids, below := n.kids, inTable || n.name in TABLE;
      if IsBlock(n.name) {
        LiftTokensForest(kids, below, [], []);
        LiftNone(FlatAll(kids), FlagsAll(kids, below), FlatAll(LiftAll(kids, below)));
        LiftBlockNode(n, inTable, rest, flags);
      } else {
        LiftTokensForest(kids, below, [End(n.name)] + rest, [false] + flags);
        LiftPlainNode(n, inTable, rest, flags);
      }
    } else {
      FlatOne(n);
      LiftSingle(Flat(n)[0], Flags(n, inTable)[0], rest, flags);
      assert Flat(n) == [Flat(n)[0]] && Flags(n, inTable) == [Flags(n, inTable)[0]];
    }
  }

  lemma LiftNone(body: seq<Tok>, marks: seq<bool>, out: seq<Tok>)
    ensures body + [] == body && marks + [] == marks && out + LiftTokens([], []) == out
  {}

  lemma LiftEnd(name: string, rest: seq<Tok>, flags: seq<bool>)
    requires |flags| == |rest|
    ensures LiftTokens([End(name)] + rest, [false] + flags) == [End(name)] + LiftTokens(rest, flags)
  {
    LiftSingle(End(name), false, rest, flags);
  }

  lemma LiftSingle(t: Tok, flag: bool, rest: seq<Tok>, flags: seq<bool>)
    requires !IsBlockStart(t) && !t.Gone? && |flags| == |rest|
    ensures LiftTokens([t] + rest, [flag] + flags) == [t] + LiftTokens(rest, flags)
  {
    assert ([t] + rest)[0] == t && ([t] + rest)[1..] == rest && ([flag] + flags)[1..] == flags;
  }

  /** Lifting the tokens of a well-nested page gives the tokens of the lifted tree. */
  lemma {:induction false} LiftTokensForest(f: seq<Node>, inTable: bool, rest: seq<Tok>, flags: seq<bool>)
    requires AllWellFormed(f) && |flags| == |rest|
    ensures LiftTokens(FlatAll(f) + rest, FlagsAll(f, inTable) + flags)
         == FlatAll(LiftAll(f, inTable)) + LiftTokens(rest, flags)
    decreases f, 1
  {
    hide LiftTokens, Flat, LiftNode, Flags;
    if f == [] {
      assert FlatAll(f) + rest == rest && FlagsAll(f, inTable) + flags == flags;
      assert [] + LiftTokens(rest, flags) == LiftTokens(rest, flags);
    } else {
      var more, moreFlags := FlatAll(f[1..]), FlagsAll(f[1..], inTable);
      FlatFirst(f);
      assert FlatAll(f) + rest == Flat(f[0]) + (more + rest);
      assert FlagsAll(f, inTable) + flags == Flags(f[0], inTable) + (moreFlags + flags);
      LiftTokensNode(f[0], inTable, more + rest, moreFlags + flags);
      LiftTokensForest(f[1..], inTable, rest, flags);
      FlatAppend(LiftNode(f[0], inTable), LiftAll(f[1..], inTable));
      Reassociate(FlatAll(LiftNode(f[0], inTable)), FlatAll(LiftAll(f[1..], inTable)), LiftTokens(rest, flags));
    }
  }

  // ---- table context ----

  lemma {:induction false} FlagsOfNode(n: Node, stack: seq<string>, rest: seq<Tok>)
    requires WellFormed(n)
    ensures TableFlags(Flat(n) + rest, stack) == Flags(n, AnyTable(stack)) + TableFlags(rest, stack)
    decreases n, 0
  {
    hide TableFlags, AnyTable, FlatAll, FlagsAll, NextStack;
    var all := Flat(n) + rest;
    if n.Element? && n.form.Paired? {
      var end, deeper := [End(n.name)], stack + [n.name];
      CutPaired(n, AnyTable(stack), rest, TableFlags(rest, stack));
      FlagsStep(all, stack);
      NextStackIs(stack, Tag(n));
      FlagsOfForest(n.kids, deeper, end + rest);
      AnyTableSnoc(stack, n.name);
      FlagsStep(end + rest, deeper);
      NextStackIs(deeper, End(n.name));
      PopIs(stack, n.name);
      assert (end + rest)[1..] == rest;
      FlagsPaired(n, AnyTable(stack));
      Regroup([AnyTable(stack)], FlagsAll(n.kids, AnyTable(deeper)), [false], TableFlags(rest, stack));
    } else {
      FlagsStep(all, stack);
      NextStackIs(stack, Flat(n)[0]);
      assert all[0] == Flat(n)[0] && all[1..] == rest;
    }
  }

  lemma FlagsStep(toks: seq<Tok>, stack: seq<string>)
    requires toks != []
    ensures TableFlags(toks, stack)
         == [IsElement(toks[0]) && AnyTable(stack)] + TableFlags(toks[1..], NextStack(stack, toks[0]))
  {}

  lemma PopIs(stack: seq<string>, name: string)
    ensures PopTo(stack + [name], name) == stack
  {
    assert (stack + [name])[..|stack|] == stack;
  }

  lemma AnyTableSnoc(stack: seq<string>, name: string)
    ensures AnyTable(stack + [name]) <==> AnyTable(stack) || name in TABLE
  {
    if name in TABLE { assert name in stack + [name]; }
    if AnyTable(stack) {
      var s :| s in stack && s in TABLE;
      assert s in stack + [name];
    }
  }

  /** On a well-nested page a token is in table context when some ancestor is a table element. */
  lemma {:induction false} FlagsOfForest(f: seq<Node>, stack: seq<string>, rest: seq<Tok>)
    requires AllWellFormed(f)
    ensures TableFlags(FlatAll(f) + rest, stack) == FlagsAll(f, AnyTable(stack)) + TableFlags(rest, stack)
    decreases f, 1
  {
    hide TableFlags, Flat, Flags, AnyTable;
    if f == [] {
      assert FlatAll(f) + rest == rest && [] + TableFlags(rest, stack) == TableFlags(rest, stack);
    } else {
      FlatFirst(f);
      assert FlatAll(f) + rest == Flat(f[0]) + (FlatAll(f[1..]) + rest);
      FlagsOfNode(f[0], stack, FlatAll(f[1..]) + rest);
      FlagsOfForest(f[1..], stack, rest);
      Reassociate(Flags(f[0], AnyTable(stack)), FlagsAll(f[1..], AnyTable(stack)), TableFlags(rest, stack));
    }
  }

  lemma {:induction false} FlatIsTokenized(n: Node)
    ensures Tokenized(Flat(n))
    decreases n, 0
  {
    if n.Element? && n.form.Paired? {
      FlatPaired(n);
      FlatAllIsTokenized(n.kids);
    }
  }

  lemma {:induction false} FlatAllIsTokenized(f: seq<Node>)
    ensures Tokenized(FlatAll(f))
    decreases f, 1
  {
    hide Flat;
    if f != [] {
      FlatIsTokenized(f[0]);
      FlatAllIsTokenized(f[1..]);
    }
  }

  lemma FreshToks(toks: seq<Tok>)
    requires Tokenized(toks)
    ensures Toks(Fresh(toks)) == toks && BlockTagsKept(Fresh(toks))
  {}

  // ---- no directive may be left in a table ----

  /** `NoDirectiveInTable` as a scan that keeps the stack. */
  predicate ClearFrom(toks: seq<Tok>, stack: seq<string>) {
    toks == [] ||
      (!(toks[0].Start? && IsDirective(toks[0].name) && AnyTable(stack)) && ClearFrom(toks[1..], NextStack(stack, toks[0])))
  }

  lemma {:induction false} ClearIs(toks: seq<Tok>, stack: seq<string>)
    ensures ClearFrom(toks, stack) <==>
      forall j :: 0 <= j < |toks| ==> !(toks[j].Start? && IsDirective(toks[j].name) && TableFlags(toks, stack)[j])
  {
    hide AnyTable, NextStack;
    if toks != [] {
      var next := NextStack(stack, toks[0]);
      ClearIs(toks[1..], next);
      FlagsStep(toks, stack);
      assert forall j :: 0 < j < |toks| ==> toks[j] == toks[1..][j - 1] && TableFlags(toks, stack)[j] == TableFlags(toks[1..], next)[j - 1];
      if ClearFrom(toks, stack) {
        forall j | 0 <= j < |toks| ensures !(toks[j].Start? && IsDirective(toks[j].name) && TableFlags(toks, stack)[j]) {
          if j > 0 { assert toks[j] == toks[1..][j - 1]; }
        }
      } else if !(toks[0].Start? && IsDirective(toks[0].name) && AnyTable(stack)) {
        var j :| 0 <= j < |toks| - 1 && toks[1..][j].Start? && IsDirective(toks[1..][j].name) && TableFlags(toks[1..], next)[j];
        assert toks[j + 1] == toks[1..][j];
      }
    }
  }

  /** Dropped tokens do not count: the scan decides as it would on what is emitted. */
  lemma {:induction false} ClearOfEmitted(cells: seq<Cell>, stack: seq<string>)
    ensures ClearFrom(Toks(cells), stack) <==> ClearFrom(Emit(cells), stack)
  {
    hide AnyTable, Emit, NextStack;
    if cells == [] {
      NothingEmitted();
    } else {
      var t := View(cells[0]);
      EmitAppend([cells[0]], cells[1..]);
      assert cells == [cells[0]] + cells[1..];
      EmitOne(cells[0]);
      NextStackIs(stack, t);
      assert Toks(cells)[1..] == Toks(cells[1..]);
      ClearOfEmitted(cells[1..], NextStack(stack, t));
      if t.Gone? {
        assert Emit(cells) == [] + Emit(cells[1..]) == Emit(cells[1..]);
      } else {
        assert Emit(cells) == [t] + Emit(cells[1..]) && Emit(cells)[1..] == Emit(cells[1..]);
      }
    }
  }

  lemma NothingEmitted()
    ensures Emit([]) == []
  {}

  /** No directive element below a table element; written `<x/>`, one is let through. */
  predicate Clear(n: Node, inTable: bool) {
    n.Element? ==>
      !(inTable && IsDirective(n.name) && !n.form.Slash?) && ClearAll(n.kids, inTable || n.name in TABLE)
  }

  predicate ClearAll(f: seq<Node>, inTable: bool) {
    f == [] || (Clear(f[0], inTable) && ClearAll(f[1..], inTable))
  }

  lemma {:induction false} ClearOfNode(n: Node, stack: seq<string>, rest: seq<Tok>)
    requires WellFormed(n)
    ensures ClearFrom(Flat(n) + rest, stack) <==> Clear(n, AnyTable(stack)) && ClearFrom(rest, stack)
    decreases n, 0
  {
    hide ClearFrom, AnyTable, FlatAll, ClearAll, NextStack;
    var all := Flat(n) + rest;
    if n.Element? && n.form.Paired? {
      var end, deeper := [End(n.name)], stack + [n.name];
      CutPaired(n, AnyTable(stack), rest, seq(|rest|, i => false));
      ClearStep(all, stack);
      NextStackIs(stack, Tag(n));
      ClearOfForest(n.kids, deeper, end + rest);
      AnyTableSnoc(stack, n.name);
      ClearStep(end + rest, deeper);
      NextStackIs(deeper, End(n.name));
      PopIs(stack, n.name);
      assert (end + rest)[0] == End(n.name) && (end + rest)[1..] == rest;
    } else {
      ClearStep(all, stack);
      NextStackIs(stack, Flat(n)[0]);
      assert all[0] == Flat(n)[0] && all[1..] == rest;
      if n.Element? { ClearOfNone(n.kids, AnyTable(stack) || n.name in TABLE); }
    }
  }

  lemma ClearOfNone(f: seq<Node>, inTable: bool)
    ensures f == [] ==> ClearAll(f, inTable)
  {}

  lemma ClearStep(toks: seq<Tok>, stack: seq<string>)
    requires toks != []
    ensures ClearFrom(toks, stack) <==>
      !(toks[0].Start? && IsDirective(toks[0].name) && AnyTable(stack)) && ClearFrom(toks[1..], NextStack(stack, toks[0]))
  {}

  /** On a well-nested page the check passes exactly when no directive element has a table ancestor. */
  lemma {:induction false} ClearOfForest(f: seq<Node>, stack: seq<string>, rest: seq<Tok>)
    requires AllWellFormed(f)
    ensures ClearFrom(FlatAll(f) + rest, stack) <==> ClearAll(f, AnyTable(stack)) && ClearFrom(rest, stack)
    decreases f, 1
  {
    hide ClearFrom, Flat, Clear, AnyTable;
    if f == [] {
      assert FlatAll(f) + rest == rest;
    } else {
      FlatFirst(f);
      assert FlatAll(f) + rest == Flat(f[0]) + (FlatAll(f[1..]) + rest);
      ClearOfNode(f[0], stack, FlatAll(f[1..]) + rest);
      ClearOfForest(f[1..], stack, rest);
    }
  }

  /**
   * Publishing a well-nested page: flag, lift in place, check, emit. What comes out is the lifted
   * tree, unless a directive is left in a table.
   */
  method LiftPage(a: array<Cell>, ghost page: seq<Node>) returns (lifted: nat, out: Option<seq<Tok>>)
    requires AllWellFormed(page) && Tokenized(FlatAll(page)) && a[..] == Fresh(FlatAll(page))
    modifies a
    ensures var tree := LiftAll(page, false);
            AllWellFormed(tree) && out == if ClearAll(tree, false) then Some(FlatAll(tree)) else None
    ensures lifted == LiftCount(FlatAll(page), FlagsAll(page, false))
  {
    hide ClearFrom, ClearAll, LiftTokens, LiftCount;
    ghost var toks, tree := FlatAll(page), LiftAll(page, false);
    FreshToks(toks);
    var flags := InTableContext(a);
    FlagsOfForest(page, [], []);
    assert toks + [] == toks && TableFlags([], []) == [] && FlagsAll(page, false) + [] == FlagsAll(page, false);
    assert !AnyTable([]);
    assert a[0..a.Length] == a[..] && flags[0..a.Length] == flags;
    lifted := LiftDirectives(a, 0, a.Length, flags);
    LiftTokensForest(page, false, [], []);
    LiftKeepsForms(page, false);
    NothingLeft();
    assert FlatAll(tree) + [] == FlatAll(tree);
    assert a[0..a.Length] == a[..];
    var ok := AssertNoDirectiveInTable(a);
    ClearIs(Toks(a[..]), []);
    ClearOfEmitted(a[..], []);
    ClearOfForest(tree, [], []);
    if !ok { return lifted, None; }
    var tokens := EmitAll(a);
    out := Some(tokens);
  }

  lemma NothingLeft()
    ensures LiftTokens([], []) == [] && ClearFrom([], [])
  {}
}
