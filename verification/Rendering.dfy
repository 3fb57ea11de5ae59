/**
 * What a page means (docs/design/mockups/harness/mockup-runtime.js), and that lifting keeps it.
 *
 * A block repeats or conditions what it wraps, or hands it to a component; the attribute form does
 * so to its own element. What a page means is taken up to ASCII white space, which between inline
 * content shows as one space and otherwise not at all; a no-break space is part of what it means.
 */
module Rendering {
  import opened Wrappers
  import opened Ordering
  import opened Tokens
  import opened Lifting
  import opened Markup

  datatype Val = List(items: seq<Val>) | Num(n: int) | Scalar(truthy: bool, text: string)

  type Scope = map<string, Val>

  datatype Dom = DomText(text: string) | DomElement(name: string, attrs: seq<Attr>, kids: seq<Dom>)

  /**
   * The parts of the runtime a page is rendered with: what a binding resolves to and which names it
   * reads, how text and attributes are interpolated, and what a component makes of its children.
   */
  datatype Runtime = Runtime(
    js: (string, Scope) -> Val, names: string -> set<string>, text: (string, Scope) -> string,
    paint: (seq<Attr>, Scope) -> seq<Attr>, mount: (string, map<string, Val>, seq<Dom>) -> seq<Dom>)

  /** Text of ASCII white space only. */
  predicate AsciiSpace(text: string) {
    forall i :: 0 <= i < |text| ==> text[i] == ' ' || text[i] == '\t' || text[i] == '\n' || text[i] == '\r' || text[i] as int == 0xC
  }

  predicate Visible(n: Node) { n.TextNode? && !AsciiSpace(n.text) }

  predicate Truthy(v: Val) {
    match v case List(_) => true case Num(n) => n != 0 case Scalar(t, _) => t
  }

  ghost predicate Agree(s: Scope, t: Scope, names: set<string>) {
    forall x :: x in names ==> (x in s <==> x in t) && (x in s ==> s[x] == t[x])
  }

  /** A binding resolves from the names it reads and nothing else. */
  ghost predicate Local(rt: Runtime) {
    forall raw: string, s: Scope, t: Scope :: Agree(s, t, rt.names(raw)) ==> rt.js(raw, s) == rt.js(raw, t)
  }

  // ---- reserved attributes ----

  const PROP: string := "data-sc-prop-"

  predicate IsProp(key: string) { |PROP| <= |key| && key[..|PROP|] == PROP }

  predicate Reserved(key: string) {
    key == "data-sc-for" || key == "data-sc-as" || key == "data-sc-if" || key == "data-sc-import" || IsProp(key)
  }

  predicate Hint(key: string) { |key| >= 5 && key[..5] == "hint-" }

  function Plain(attrs: seq<Attr>): seq<Attr> { Filter((a: Attr) => !Reserved(a.key), attrs) }

  function LoopName(attrs: seq<Attr>, key: string): string {
    if Get(attrs, key) == "" then "item" else Get(attrs, key)
  }

  function ElementProps(rt: Runtime, attrs: seq<Attr>, scope: Scope): map<string, Val> {
    map a | a in attrs && a.key != "component-from-global-scope" && a.key != "from" && !Hint(a.key)
      :: a.key := rt.js(Get(attrs, a.key), scope)
  }

  function AttributeProps(rt: Runtime, attrs: seq<Attr>, scope: Scope): map<string, Val> {
    map a | a in attrs && IsProp(a.key) && !Hint(a.key[|PROP|..])
      :: a.key[|PROP|..] := rt.js(Get(attrs, PROP + a.key[|PROP|..]), scope)
  }

  /** What an import hands to its component: every attribute but the two it reads itself and the hints. */
  lemma PropsAre(rt: Runtime, attrs: seq<Attr>, scope: Scope, key: string)
    ensures key in ElementProps(rt, attrs, scope) <==>
      Has(attrs, key) && key != "component-from-global-scope" && key != "from" && !("hint-" <= key)
    ensures key in ElementProps(rt, attrs, scope) ==> ElementProps(rt, attrs, scope)[key] == rt.js(Get(attrs, key), scope)
  {
    hide Get, Has;
    GetIs(attrs, key);
    assert Hint(key) <==> "hint-" <= key;
  }

  // ---- the renderer ----

  function Inner(scope: Scope, name: string, items: seq<Val>, i: nat): Scope
    requires i < |items|
  {
    scope[name := items[i]][name + "_index" := Num(i)]
  }

  function RenderAll(rt: Runtime, f: seq<Node>, scope: Scope): seq<Dom>
    decreases f, 4
  {
    if f == [] then [] else RenderNode(rt, f[0], scope) + RenderAll(rt, f[1..], scope)
  }

  /** The element form of a loop: the children again for each item. */
  function EachItem(rt: Runtime, kids: seq<Node>, items: seq<Val>, i: nat, name: string, scope: Scope): seq<Dom>
    requires i <= |items|
    decreases kids, 5, |items| - i
  {
    if i == |items| then []
    else RenderAll(rt, kids, Inner(scope, name, items, i)) + EachItem(rt, kids, items, i + 1, name, scope)
  }

  /** The attribute form: the element itself again for each item, conditioned inside the loop. */
  function EachSelf(rt: Runtime, n: Node, items: seq<Val>, i: nat, name: string, scope: Scope): seq<Dom>
    requires i <= |items| && n.Element?
    decreases n, 2, |items| - i
  {
    if i == |items| then []
    else
      var inner := Inner(scope, name, items, i);
      (if Has(n.attrs, "data-sc-if") && !Truthy(rt.js(Get(n.attrs, "data-sc-if"), inner)) then []
       else RenderElement(rt, n, inner))
      + EachSelf(rt, n, items, i + 1, name, scope)
  }

  function RenderNode(rt: Runtime, n: Node, scope: Scope): seq<Dom>
    decreases n, 3
  {
    match n
    case Comment => []
    case TextNode(s) => if AsciiSpace(s) then [] else [DomText(rt.text(s, scope))]
    case Element(name, attrs, kids, _) =>
      if name == "helmet" then []
      else if Has(attrs, "data-sc-for") then
        var items := rt.js(Get(attrs, "data-sc-for"), scope);
        if items.List? then EachSelf(rt, n, items.items, 0, LoopName(attrs, "data-sc-as"), scope) else []
      else if Has(attrs, "data-sc-if") then
        if Truthy(rt.js(Get(attrs, "data-sc-if"), scope)) then RenderElement(rt, n, scope) else []
      else if name == SC_FOR then
        var items := rt.js(Get(attrs, "list"), scope);
        if items.List? then EachItem(rt, kids, items.items, 0, LoopName(attrs, "as"), scope) else []
      else if name == SC_IF then
        if Truthy(rt.js(Get(attrs, "value"), scope)) then RenderAll(rt, kids, scope) else []
      else RenderElement(rt, n, scope)
  }

  function RenderElement(rt: Runtime, n: Node, scope: Scope): seq<Dom>
    requires n.Element?
    decreases n, 1
  {
    if n.name == X_IMPORT then
      rt.mount(Get(n.attrs, "component-from-global-scope"), ElementProps(rt, n.attrs, scope), RenderAll(rt, n.kids, scope))
    else if Has(n.attrs, "data-sc-import") then
      rt.mount(Get(n.attrs, "data-sc-import"), AttributeProps(rt, n.attrs, scope), RenderTag(rt, n, scope))
    else RenderTag(rt, n, scope)
  }

  function RenderTag(rt: Runtime, n: Node, scope: Scope): seq<Dom>
    requires n.Element?
    decreases n, 0
  {
    [DomElement(n.name, rt.paint(Plain(n.attrs), scope), RenderAll(rt, n.kids, scope))]
  }

  /** A condition shows its children unless it resolves to zero or to a scalar that is falsy; a list is always true. */
  lemma ConditionShows(rt: Runtime, value: string, kids: seq<Node>, scope: Scope)
    ensures var v := rt.js(value, scope);
      RenderNode(rt, Element("sc-if", [Attr("value", value)], kids, Paired), scope) ==
        if v == Num(0) || (v.Scalar? && !v.truthy) then [] else RenderAll(rt, kids, scope)
  {
    hide RenderAll, RenderElement;
    var attrs := [Attr("value", value)];
    GetIs(attrs, "value");
    GetIs(attrs, "data-sc-for");
    GetIs(attrs, "data-sc-if");
    assert attrs[0].key == "value";
  }

  // ---- when lifting is safe ----

  /** Nobody writes the attribute form: only lifting makes it. */
  predicate Authored(n: Node) {
    n.Element? ==> (forall a :: a in n.attrs ==> !Reserved(a.key)) && AllAuthored(n.kids)
  }

  predicate AllAuthored(f: seq<Node>) { forall i :: 0 <= i < |f| ==> Authored(f[i]) }

  /** A text that reads one of the two names a loop on `c` binds. */
  predicate Captures(names: string -> set<string>, c: Node, raw: string)
    requires c.Element?
  {
    var name := LoopName(c.attrs, "data-sc-as");
    name in names(raw) || name + "_index" in names(raw)
  }

  /**
   * When the attribute form of `d` on its only child `c` says what the element form around it did.
   *
   * A loop: on a child that has collected none. A condition: on a child with no condition, if it
   * reads no name the child's loop binds; on a child with one, if they are the same text, or the
   * loop ranges over the very text that is tested. An import: on a bare element.
   */
  predicate ExactOnto(names: string -> set<string>, d: Node, c: Node)
    requires d.Element? && c.Element?
  {
    if d.name == X_IMPORT then
      c.name != "helmet" && !Has(c.attrs, "data-sc-for") && !Has(c.attrs, "data-sc-if") && !Has(c.attrs, "data-sc-import")
    else if c.name == "helmet" then true
    else if d.name == SC_FOR then !Has(c.attrs, "data-sc-for")
    else
      var value := Get(d.attrs, "value");
      if !Has(c.attrs, "data-sc-for") then Has(c.attrs, "data-sc-if") ==> value == Get(c.attrs, "data-sc-if")
      else if !Has(c.attrs, "data-sc-if") then !Captures(names, c, value)
      else
        || value == Get(c.attrs, "data-sc-for")
        || (value == Get(c.attrs, "data-sc-if") && !Captures(names, c, value))
  }

  /** The white space that stays behind a lifted block has to be white space to a browser as well. */
  predicate Exact(names: string -> set<string>, d: Node, kids: seq<Node>)
    requires d.Element? && |Elements(kids)| == 1
  {
    (forall k :: k in kids ==> !Visible(k)) && ExactOnto(names, d, kids[Elements(kids)[0]])
  }

  predicate Safe(names: string -> set<string>, n: Node, inTable: bool)
    decreases n, 0
  {
    n.Element? && n.form.Paired? ==>
      var kids := LiftAll(n.kids, inTable || n.name in TABLE);
      && AllSafe(names, n.kids, inTable || n.name in TABLE)
      && (IsBlock(n.name) && LiftsOnto(n.name, kids, inTable) ==> Exact(names, n, kids))
  }

  predicate AllSafe(names: string -> set<string>, f: seq<Node>, inTable: bool)
    decreases f, 1
  {
    forall i :: 0 <= i < |f| ==> Safe(names, f[i], inTable)
  }

  // ---- attributes ----

  lemma {:induction false} FindAppend(a: seq<Attr>, b: seq<Attr>, key: string)
    ensures Find(a + b, key) == if Has(a, key) then Find(a, key) else Find(b, key)
  {
    if a == [] {
      assert a + b == b;
    } else {
      assert (a + b)[0] == a[0] && (a + b)[1..] == a[1..] + b;
      FindAppend(a[1..], b, key);
    }
  }

  lemma {:induction false} HasIsKey(attrs: seq<Attr>, key: string)
    ensures Has(attrs, key) <==> exists a :: a in attrs && a.key == key
  {
    if attrs != [] {
      HasIsKey(attrs[1..], key);
      assert attrs == [attrs[0]] + attrs[1..];
    }
  }

  lemma {:induction false} FilterOfAppend<T>(p: T -> bool, a: seq<T>, b: seq<T>)
    ensures Filter(p, a + b) == Filter(p, a) + Filter(p, b)
  {
    if b == [] {
      assert a + b == a;
    } else {
      var n := |b| - 1;
      assert (a + b)[..|a| + n] == a + b[..n];
      FilterOfAppend(p, a, b[..n]);
    }
  }

  /** Reserved attributes are not painted, so giving an element more of them paints it the same. */
  lemma PlainIgnores(a: seq<Attr>, b: seq<Attr>)
    requires forall x :: x in b ==> Reserved(x.key)
    ensures Plain(a + b) == Plain(a)
  {
    var p := (x: Attr) => !Reserved(x.key);
    FilterOfAppend(p, a, b);
    FilterNone(p, b);
    assert Plain(a) + [] == Plain(a);
  }

  lemma {:induction false} PropAttrsReserved(attrs: seq<Attr>)
    ensures forall x :: x in PropAttrs(attrs) ==> IsProp(x.key)
    ensures forall x :: x in PropAttrs(attrs) <==>
              exists a :: a in attrs && a.key != "component-from-global-scope" && a.key != "from"
                          && x == Attr(PROP + a.key, a.val)
  {
    if attrs != [] {
      PropAttrsReserved(attrs[1..]);
      assert attrs == [attrs[0]] + attrs[1..];
      assert (PROP + attrs[0].key)[..|PROP|] == PROP;
      var head := if attrs[0].key == "component-from-global-scope" || attrs[0].key == "from" then []
                  else [Attr(PROP + attrs[0].key, attrs[0].val)];
      assert PropAttrs(attrs) == head + PropAttrs(attrs[1..]);
    }
  }

  lemma {:induction false} FindProp(attrs: seq<Attr>, key: string)
    requires key != "component-from-global-scope" && key != "from"
    ensures Find(PropAttrs(attrs), PROP + key) == Find(attrs, key)
  {
    if attrs != [] {
      FindProp(attrs[1..], key);
      var rest := PropAttrs(attrs[1..]);
      if attrs[0].key == "component-from-global-scope" || attrs[0].key == "from" {
        assert PropAttrs(attrs) == [] + rest == rest;
      } else {
        var first := Attr(PROP + attrs[0].key, attrs[0].val);
        assert PropAttrs(attrs) == [first] + rest;
        assert ([first] + rest)[0] == first && ([first] + rest)[1..] == rest;
        assert (PROP + attrs[0].key)[|PROP|..] == attrs[0].key && (PROP + key)[|PROP|..] == key;
      }
    }
  }

  lemma LiftedAreReserved(name: string, attrs: seq<Attr>)
    ensures forall x :: x in LiftedAttrs(name, attrs) ==> Reserved(x.key)
  {
    PropAttrsReserved(attrs);
  }

  /** What lifting leaves on an element: a loop name only with a loop, and props only with an import. */
  predicate Tidy(attrs: seq<Attr>) {
    && (Has(attrs, "data-sc-as") ==> Has(attrs, "data-sc-for"))
    && ((exists a :: a in attrs && IsProp(a.key)) ==> Has(attrs, "data-sc-import"))
  }

  lemma AuthoredIsTidy(n: Node)
    requires n.Element? && Authored(n)
    ensures Tidy(n.attrs)
    ensures !Has(n.attrs, "data-sc-for") && !Has(n.attrs, "data-sc-if") && !Has(n.attrs, "data-sc-import") && !Has(n.attrs, "data-sc-as")
  {
    HasIsKey(n.attrs, "data-sc-for");
    HasIsKey(n.attrs, "data-sc-as");
    HasIsKey(n.attrs, "data-sc-if");
    HasIsKey(n.attrs, "data-sc-import");
  }

  lemma GivenIsTidy(name: string, d: seq<Attr>, c: seq<Attr>)
    requires Tidy(c)
    ensures Tidy(c + LiftedAttrs(name, d))
  {
    var given := c + LiftedAttrs(name, d);
    HasIsKey(c, "data-sc-for");
    HasIsKey(c, "data-sc-as");
    HasIsKey(c, "data-sc-import");
    HasIsKey(given, "data-sc-for");
    HasIsKey(given, "data-sc-as");
    HasIsKey(given, "data-sc-import");
    var lifted := LiftedAttrs(name, d);
    PropAttrsReserved(d);
    assert lifted[0] in given;
    assert forall a :: a in given <==> a in c || a in lifted;
  }

  lemma {:induction false} LiftedIsTidy(n: Node, inTable: bool)
    requires Authored(n)
    ensures forall k :: k in LiftNode(n, inTable) && k.Element? ==> Tidy(k.attrs)
    decreases n, 0
  {
    hide LiftsOnto, LiftedAttrs, Tidy, Reserved;
    if n.Element? {
      AuthoredIsTidy(n);
      if n.form.Paired? {
        var below := inTable || n.name in TABLE;
        var kids := LiftAll(n.kids, below);
        AllLiftedIsTidy(n.kids, below);
        OneElement(n.name, kids, inTable);
        if IsBlock(n.name) && LiftsOnto(n.name, kids, inTable) {
          var c := kids[Elements(kids)[0]];
          assert c in kids;
          GivenIsTidy(n.name, n.attrs, c.attrs);
        }
      }
    }
  }

  lemma {:induction false} AllLiftedIsTidy(f: seq<Node>, inTable: bool)
    requires AllAuthored(f)
    ensures forall k :: k in LiftAll(f, inTable) && k.Element? ==> Tidy(k.attrs)
    decreases f, 1
  {
    hide LiftNode, Tidy;
    if f != [] {
      LiftedIsTidy(f[0], inTable);
      AllLiftedIsTidy(f[1..], inTable);
    }
  }

  // ---- rendering depends only on what the children render to ----

  ghost predicate SameMeaning(rt: Runtime, f: seq<Node>, g: seq<Node>) {
    forall scope :: RenderAll(rt, f, scope) == RenderAll(rt, g, scope)
  }

  lemma {:induction false} EachItemSame(rt: Runtime, f: seq<Node>, g: seq<Node>, items: seq<Val>, i: nat, name: string, scope: Scope)
    requires SameMeaning(rt, f, g) && i <= |items|
    ensures EachItem(rt, f, items, i, name, scope) == EachItem(rt, g, items, i, name, scope)
    decreases |items| - i
  {
    hide RenderAll;
    if i < |items| { EachItemSame(rt, f, g, items, i + 1, name, scope); }
  }

  lemma SameTag(rt: Runtime, n: Node, m: Node, scope: Scope)
    requires n.Element? && m.Element? && n.name == m.name && Plain(n.attrs) == Plain(m.attrs)
    requires RenderAll(rt, n.kids, scope) == RenderAll(rt, m.kids, scope)
    ensures RenderTag(rt, n, scope) == RenderTag(rt, m, scope)
  {
    hide RenderAll, Plain;
  }

  /** Two elements that paint alike and mount the same import render alike. */
  lemma SameElement(rt: Runtime, n: Node, m: Node, scope: Scope)
    requires n.Element? && m.Element? && n.name == m.name && Plain(n.attrs) == Plain(m.attrs)
    requires RenderAll(rt, n.kids, scope) == RenderAll(rt, m.kids, scope)
    requires n.name == X_IMPORT ==> n.attrs == m.attrs
    requires Find(n.attrs, "data-sc-import") == Find(m.attrs, "data-sc-import")
    requires Has(n.attrs, "data-sc-import") ==> AttributeProps(rt, n.attrs, scope) == AttributeProps(rt, m.attrs, scope)
    ensures RenderElement(rt, n, scope) == RenderElement(rt, m, scope)
  {
    hide RenderAll, Plain, RenderTag, AttributeProps, ElementProps;
    SameTag(rt, n, m, scope);
  }

  /** A block or an element depends on its children only through what they render to. */
  lemma SameKids(rt: Runtime, n: Node, f: seq<Node>, g: seq<Node>, scope: Scope)
    requires n.Element? && Authored(n) && SameMeaning(rt, f, g)
    ensures RenderNode(rt, n.(kids := f), scope) == RenderNode(rt, n.(kids := g), scope)
  {
    hide RenderAll, EachItem, Authored, Reserved, RenderElement;
    AuthoredIsTidy(n);
    SameElement(rt, n.(kids := f), n.(kids := g), scope);
    var items := rt.js(Get(n.attrs, "list"), scope);
    if items.List? { EachItemSame(rt, f, g, items.items, 0, LoopName(n.attrs, "as"), scope); }
  }

  lemma RenderOne(rt: Runtime, n: Node, scope: Scope)
    ensures RenderAll(rt, [n], scope) == RenderNode(rt, n, scope)
  {
    assert [n][1..] == [];
    assert RenderNode(rt, n, scope) + [] == RenderNode(rt, n, scope);
  }

  lemma {:induction false} RenderAppend(rt: Runtime, f: seq<Node>, g: seq<Node>, scope: Scope)
    ensures RenderAll(rt, f + g, scope) == RenderAll(rt, f, scope) + RenderAll(rt, g, scope)
  {
    hide RenderNode;
    if f == [] {
      assert f + g == g;
    } else {
      assert (f + g)[0] == f[0] && (f + g)[1..] == f[1..] + g;
      RenderAppend(rt, f[1..], g, scope);
    }
  }

  /** White space and comments render to nothing, so an only child is all its siblings render. */
  lemma {:induction false} NothingElse(rt: Runtime, f: seq<Node>, scope: Scope)
    requires forall k :: k in f ==> !Visible(k) && !k.Element?
    ensures RenderAll(rt, f, scope) == []
  {
    if f != [] {
      assert f[0] in f;
      assert forall k :: k in f[1..] ==> k in f;
      NothingElse(rt, f[1..], scope);
    }
  }

  lemma {:induction false} ElementsAre(f: seq<Node>)
    ensures forall i :: 0 <= i < |f| && f[i].Element? ==> i in Elements(f)
  {
    if f != [] {
      var n := |f| - 1;
      ElementsAre(f[..n]);
      forall i | 0 <= i < |f| && f[i].Element? ensures i in Elements(f) {
        if i < n { assert f[..n][i] == f[i]; }
      }
    }
  }

  lemma OnlyChild(rt: Runtime, f: seq<Node>, scope: Scope)
    requires |Elements(f)| == 1 && forall k :: k in f ==> !Visible(k)
    ensures RenderAll(rt, f, scope) == RenderNode(rt, f[Elements(f)[0]], scope)
  {
    hide RenderNode, Visible, RenderAll, Elements;
    var k := Elements(f)[0];
    Around(f, k);
    assert f == f[..k] + ([f[k]] + f[k + 1..]);
    RenderAppend(rt, f[..k], [f[k]] + f[k + 1..], scope);
    RenderAppend(rt, [f[k]], f[k + 1..], scope);
    RenderOne(rt, f[k], scope);
    NothingElse(rt, f[..k], scope);
    NothingElse(rt, f[k + 1..], scope);
    assert [] + (RenderNode(rt, f[k], scope) + []) == RenderNode(rt, f[k], scope);
  }

  lemma Around(f: seq<Node>, k: nat)
    requires Elements(f) == [k] && forall x :: x in f ==> !Visible(x)
    ensures k < |f|
    ensures forall x :: x in f[..k] ==> !Visible(x) && !x.Element?
    ensures forall x :: x in f[k + 1..] ==> !Visible(x) && !x.Element?
  {
    hide Elements, Visible;
    ElementsAre(f);
    assert Elements(f)[0] == k;
    forall x | x in f[..k] ensures !Visible(x) && !x.Element? {
      var i :| 0 <= i < k && f[..k][i] == x;
      assert f[i] == x && x in f;
    }
    forall x | x in f[k + 1..] ensures !Visible(x) && !x.Element? {
      var i :| 0 <= i < |f[k + 1..]| && f[k + 1..][i] == x;
      assert f[k + 1 + i] == x && x in f;
    }
  }

  // ---- one lift ----

  lemma FindGiven(c: seq<Attr>, name: string, d: seq<Attr>, key: string)
    ensures Find(c + LiftedAttrs(name, d), key)
         == if Has(c, key) then Find(c, key) else Find(LiftedAttrs(name, d), key)
  {
    FindAppend(c, LiftedAttrs(name, d), key);
  }

  /** A lifted loop or condition leaves the element it is on as it was. */
  lemma DirectiveElement(rt: Runtime, name: string, d: seq<Attr>, c: Node, scope: Scope)
    requires c.Element? && IsDirective(name) && c.name != X_IMPORT
    ensures RenderElement(rt, Given(c, LiftedAttrs(name, d)), scope) == RenderElement(rt, c, scope)
  {
    var lifted := LiftedAttrs(name, d);
    var given := Given(c, lifted);
    LiftedAreReserved(name, d);
    PlainIgnores(c.attrs, lifted);
    FindAppend(c.attrs, lifted, "data-sc-import");
    HasIsKey(lifted, "data-sc-import");
    SameProps(rt, c.attrs, lifted, scope);
    SameElement(rt, given, c, scope);
  }

  lemma SameProps(rt: Runtime, c: seq<Attr>, more: seq<Attr>, scope: Scope)
    requires forall a :: a in more ==> !IsProp(a.key)
    ensures AttributeProps(rt, c + more, scope) == AttributeProps(rt, c, scope)
  {
    hide AttributeProps, Find, Hint;
    var mine, theirs := AttributeProps(rt, c + more, scope), AttributeProps(rt, c, scope);
    AttributePropsAre(rt, c + more, scope);
    AttributePropsAre(rt, c, scope);
    assert forall a :: a in c + more <==> a in c || a in more;
    forall k | k in theirs ensures mine[k] == theirs[k] {
      var a :| a in c && IsProp(a.key) && !Hint(a.key[|PROP|..]) && a.key[|PROP|..] == k;
      PropKey(a.key);
      HasIsKey(c, a.key);
      FindAppend(c, more, a.key);
    }
    assert mine == theirs;
  }

  lemma PropKey(key: string)
    requires IsProp(key)
    ensures PROP + key[|PROP|..] == key
  {}

  /** The element form of a block around one child, and that child with the attributes instead. */
  ghost predicate LiftAgrees(rt: Runtime, d: Node, c: Node, scope: Scope)
    requires d.Element? && c.Element?
  {
    RenderNode(rt, Given(c, LiftedAttrs(d.name, d.attrs)), scope) == RenderNode(rt, d.(kids := [c]), scope)
  }

  /** What a child that collected no loop renders to. */
  lemma NoLoop(rt: Runtime, c: Node, scope: Scope)
    requires c.Element? && !IsBlock(c.name) && !Has(c.attrs, "data-sc-for")
    ensures RenderNode(rt, c, scope) ==
      if c.name == "helmet" then []
      else if Has(c.attrs, "data-sc-if") && !Truthy(rt.js(Get(c.attrs, "data-sc-if"), scope)) then []
      else RenderElement(rt, c, scope)
  {
    hide RenderElement;
  }

  lemma {:induction false} LoopItems(rt: Runtime, d: Node, c: Node, items: seq<Val>, i: nat, name: string, scope: Scope)
    requires d.Element? && d.name == SC_FOR && c.Element? && !IsBlock(c.name) && !Has(c.attrs, "data-sc-for") && i <= |items|
    ensures EachItem(rt, [c], items, i, name, scope)
         == if c.name == "helmet" then [] else EachSelf(rt, Given(c, LiftedAttrs(d.name, d.attrs)), items, i, name, scope)
    decreases |items| - i
  {
    hide RenderAll, RenderNode, RenderElement, LiftedAttrs, Find, Inner, Plain;
    if i < |items| {
      var inner := Inner(scope, name, items, i);
      RenderOne(rt, c, inner);
      NoLoop(rt, c, inner);
      DirectiveElement(rt, d.name, d.attrs, c, inner);
      SameCondition(c.attrs, d.attrs);
      LoopItems(rt, d, c, items, i + 1, name, scope);
    }
  }

  /** A lifted loop brings no condition of its own. */
  lemma SameCondition(c: seq<Attr>, d: seq<Attr>)
    ensures Find(c + LiftedAttrs(SC_FOR, d), "data-sc-if") == Find(c, "data-sc-if")
  {
    FindGiven(c, SC_FOR, d, "data-sc-if");
    HasIsKey(LiftedAttrs(SC_FOR, d), "data-sc-if");
  }

  lemma {:induction false} HelmetItems(rt: Runtime, c: Node, items: seq<Val>, i: nat, name: string, scope: Scope)
    requires c.Element? && c.name == "helmet" && i <= |items|
    ensures EachItem(rt, [c], items, i, name, scope) == []
    decreases |items| - i
  {
    if i < |items| {
      RenderOne(rt, c, Inner(scope, name, items, i));
      HelmetItems(rt, c, items, i + 1, name, scope);
    }
  }

  lemma HelmetAgrees(rt: Runtime, d: Node, c: Node, scope: Scope)
    requires d.Element? && IsDirective(d.name) && Authored(d) && c.Element? && c.name == "helmet"
    ensures LiftAgrees(rt, d, c, scope)
  {
    hide RenderAll, EachItem, Authored;
    AuthoredIsTidy(d);
    RenderOne(rt, c, scope);
    var items := rt.js(Get(d.attrs, "list"), scope);
    if items.List? { HelmetItems(rt, c, items.items, 0, LoopName(d.attrs, "as"), scope); }
  }

  lemma LiftFor(rt: Runtime, d: Node, c: Node, scope: Scope)
    requires d.Element? && d.name == SC_FOR && Authored(d) && c.Element? && !IsBlock(c.name)
    requires Tidy(c.attrs) && !Has(c.attrs, "data-sc-for")
    ensures LiftAgrees(rt, d, c, scope)
  {
    hide RenderAll, EachItem, EachSelf, RenderElement, Authored;
    AuthoredIsTidy(d);
    FindGiven(c.attrs, d.name, d.attrs, "data-sc-for");
    FindGiven(c.attrs, d.name, d.attrs, "data-sc-as");
    var lifted := LiftedAttrs(d.name, d.attrs);
    assert Get(lifted, "data-sc-for") == Get(d.attrs, "list");
    assert lifted[1..][0].key == "data-sc-as";
    var items := rt.js(Get(d.attrs, "list"), scope);
    if items.List? { LoopItems(rt, d, c, items.items, 0, LoopName(d.attrs, "as"), scope); }
  }

  /** What a child carries once a condition is lifted onto it. */
  lemma GivenIf(d: Node, c: Node)
    requires d.Element? && d.name == SC_IF && c.Element?
    ensures var given := Given(c, LiftedAttrs(d.name, d.attrs));
            && Find(given.attrs, "data-sc-for") == Find(c.attrs, "data-sc-for")
            && Find(given.attrs, "data-sc-as") == Find(c.attrs, "data-sc-as")
            && Find(given.attrs, "data-sc-import") == Find(c.attrs, "data-sc-import")
            && Find(given.attrs, "data-sc-if")
                 == if Has(c.attrs, "data-sc-if") then Find(c.attrs, "data-sc-if") else Some(Get(d.attrs, "value"))
  {
    var more := LiftedAttrs(d.name, d.attrs);
    assert more[1..] == [];
    FindGiven(c.attrs, d.name, d.attrs, "data-sc-for");
    FindGiven(c.attrs, d.name, d.attrs, "data-sc-as");
    FindGiven(c.attrs, d.name, d.attrs, "data-sc-import");
    FindGiven(c.attrs, d.name, d.attrs, "data-sc-if");
  }

  lemma InnerAgrees(scope: Scope, name: string, items: seq<Val>, i: nat, names: set<string>)
    requires i < |items| && name !in names && name + "_index" !in names
    ensures Agree(Inner(scope, name, items, i), scope, names)
  {}

  /** A condition inside a loop that does not read the loop's names is the condition outside it. */
  lemma {:induction false} ConditionItems(rt: Runtime, d: Node, c: Node, items: seq<Val>, i: nat, name: string, scope: Scope)
    requires d.Element? && d.name == SC_IF && c.Element? && !IsBlock(c.name) && i <= |items|
    requires Has(c.attrs, "data-sc-if") ==> Get(d.attrs, "value") == Get(c.attrs, "data-sc-if")
    requires Local(rt) && name !in rt.names(Get(d.attrs, "value")) && name + "_index" !in rt.names(Get(d.attrs, "value"))
    ensures EachSelf(rt, Given(c, LiftedAttrs(d.name, d.attrs)), items, i, name, scope)
         == if Truthy(rt.js(Get(d.attrs, "value"), scope)) then EachSelf(rt, c, items, i, name, scope) else []
    decreases |items| - i
  {
    hide RenderElement, Local, Agree, Inner, Find, LiftedAttrs;
    if i < |items| {
      var inner := Inner(scope, name, items, i);
      GivenIf(d, c);
      InnerAgrees(scope, name, items, i, rt.names(Get(d.attrs, "value")));
      DirectiveElement(rt, d.name, d.attrs, c, inner);
      SameOutside(rt, Get(d.attrs, "value"), inner, scope);
      ConditionItems(rt, d, c, items, i + 1, name, scope);
    }
  }

  lemma SameOutside(rt: Runtime, raw: string, s: Scope, t: Scope)
    requires Local(rt) && Agree(s, t, rt.names(raw))
    ensures rt.js(raw, s) == rt.js(raw, t)
  {}

  /** A second condition on a loop that has one is never read. */
  lemma {:induction false} SecondConditionItems(rt: Runtime, d: Node, c: Node, items: seq<Val>, i: nat, name: string, scope: Scope)
    requires d.Element? && d.name == SC_IF && c.Element? && !IsBlock(c.name) && Has(c.attrs, "data-sc-if") && i <= |items|
    ensures EachSelf(rt, Given(c, LiftedAttrs(d.name, d.attrs)), items, i, name, scope) == EachSelf(rt, c, items, i, name, scope)
    decreases |items| - i
  {
    hide RenderElement;
    if i < |items| {
      FindGiven(c.attrs, d.name, d.attrs, "data-sc-if");
      DirectiveElement(rt, d.name, d.attrs, c, Inner(scope, name, items, i));
      SecondConditionItems(rt, d, c, items, i + 1, name, scope);
    }
  }

  lemma LiftIf(rt: Runtime, d: Node, c: Node, scope: Scope)
    requires d.Element? && d.name == SC_IF && Authored(d) && c.Element? && !IsBlock(c.name) && Local(rt)
    requires c.name != "helmet" && ExactOnto(rt.names, d, c)
    ensures LiftAgrees(rt, d, c, scope)
  {
    hide RenderAll, EachItem, EachSelf, RenderElement, Authored, Local;
    AuthoredIsTidy(d);
    RenderOne(rt, c, scope);
    FindGiven(c.attrs, d.name, d.attrs, "data-sc-for");
    FindGiven(c.attrs, d.name, d.attrs, "data-sc-as");
    FindGiven(c.attrs, d.name, d.attrs, "data-sc-if");
    DirectiveElement(rt, d.name, d.attrs, c, scope);
    if Has(c.attrs, "data-sc-for") {
      var items := rt.js(Get(c.attrs, "data-sc-for"), scope);
      if items.List? {
        if Has(c.attrs, "data-sc-if") && Get(d.attrs, "value") == Get(c.attrs, "data-sc-for") {
          SecondConditionItems(rt, d, c, items.items, 0, LoopName(c.attrs, "data-sc-as"), scope);
        } else {
          ConditionItems(rt, d, c, items.items, 0, LoopName(c.attrs, "data-sc-as"), scope);
        }
      }
    }
  }

  lemma ImportIsNoProp()
    ensures !IsProp("data-sc-import")
  {
    assert "data-sc-import"[..|PROP|][8] == 'i' && PROP[8] == 'p';
  }

  /** The attributes of a lifted import, on an element that had none of them. */
  function Imported(c: seq<Attr>, d: seq<Attr>): seq<Attr> { c + LiftedAttrs(X_IMPORT, d) }

  lemma ImportedKeys(c: seq<Attr>, d: seq<Attr>)
    requires Tidy(c) && !Has(c, "data-sc-import")
    ensures forall a :: a in Imported(c, d) && IsProp(a.key) <==> a in PropAttrs(d)
  {
    var lifted := LiftedAttrs(X_IMPORT, d);
    PropAttrsReserved(d);
    ImportIsNoProp();
    assert lifted == [lifted[0]] + PropAttrs(d);
    forall a: Attr ensures a in Imported(c, d) && IsProp(a.key) <==> a in PropAttrs(d) {
      assert a in Imported(c, d) <==> a in c || a == lifted[0] || a in PropAttrs(d);
    }
  }

  lemma ImportedValue(c: seq<Attr>, d: seq<Attr>, key: string)
    requires Tidy(c) && !Has(c, "data-sc-import") && key != "component-from-global-scope" && key != "from"
    ensures Get(Imported(c, d), PROP + key) == Get(d, key)
  {
    var lifted := LiftedAttrs(X_IMPORT, d);
    ImportIsNoProp();
    assert (PROP + key)[..|PROP|] == PROP;
    FindProp(d, key);
    FindAppend(c, lifted, PROP + key);
    HasIsKey(c, PROP + key);
    assert lifted[1..] == PropAttrs(d) && IsProp(PROP + key);
  }

  predicate IsElementProp(a: Attr) { a.key != "component-from-global-scope" && a.key != "from" && !Hint(a.key) }

  lemma ElementPropsAre(rt: Runtime, d: seq<Attr>, scope: Scope)
    ensures forall k :: k in ElementProps(rt, d, scope) <==> exists a :: a in d && IsElementProp(a) && a.key == k
    ensures forall k :: k in ElementProps(rt, d, scope) ==> ElementProps(rt, d, scope)[k] == rt.js(Get(d, k), scope)
  {
    hide Get, Hint;
  }

  lemma AttributePropsAre(rt: Runtime, given: seq<Attr>, scope: Scope)
    ensures forall k :: k in AttributeProps(rt, given, scope) <==>
              exists a :: a in given && IsProp(a.key) && !Hint(a.key[|PROP|..]) && a.key[|PROP|..] == k
    ensures forall k :: k in AttributeProps(rt, given, scope) ==>
              AttributeProps(rt, given, scope)[k] == rt.js(Get(given, PROP + k), scope)
  {
    hide Get, Hint;
  }

  lemma ImportedProp(c: seq<Attr>, d: seq<Attr>, k: string)
    requires Tidy(c) && !Has(c, "data-sc-import")
    ensures (exists a :: a in Imported(c, d) && IsProp(a.key) && !Hint(a.key[|PROP|..]) && a.key[|PROP|..] == k)
       <==> exists a :: a in d && IsElementProp(a) && a.key == k
  {
    hide Tidy, LiftedAttrs, Imported, PropAttrs, Hint, Find;
    ImportedKeys(c, d);
    PropAttrsReserved(d);
    if a :| a in Imported(c, d) && IsProp(a.key) && !Hint(a.key[|PROP|..]) && a.key[|PROP|..] == k {
      var b :| b in d && b.key != "component-from-global-scope" && b.key != "from" && a == Attr(PROP + b.key, b.val);
      assert a.key[|PROP|..] == b.key;
    }
    if b :| b in d && IsElementProp(b) && b.key == k {
      var a := Attr(PROP + b.key, b.val);
      assert a in PropAttrs(d) && a.key[|PROP|..] == k;
    }
  }

  lemma ImportProps(rt: Runtime, d: Node, c: Node, scope: Scope)
    requires d.Element? && c.Element? && Tidy(c.attrs) && !Has(c.attrs, "data-sc-import")
    ensures AttributeProps(rt, Imported(c.attrs, d.attrs), scope) == ElementProps(rt, d.attrs, scope)
  {
    hide Tidy, LiftedAttrs, Imported, IsProp, PropAttrs, Hint, Find, AttributeProps, ElementProps;
    var given := Imported(c.attrs, d.attrs);
    var mine, theirs := AttributeProps(rt, given, scope), ElementProps(rt, d.attrs, scope);
    AttributePropsAre(rt, given, scope);
    ElementPropsAre(rt, d.attrs, scope);
    forall k ensures k in mine <==> k in theirs { ImportedProp(c.attrs, d.attrs, k); }
    forall k | k in theirs ensures mine[k] == theirs[k] { ImportedValue(c.attrs, d.attrs, k); }
    assert mine == theirs;
  }

  lemma LiftImport(rt: Runtime, d: Node, c: Node, scope: Scope)
    requires d.Element? && d.name == X_IMPORT && Authored(d) && c.Element? && !IsBlock(c.name)
    requires Tidy(c.attrs) && ExactOnto(rt.names, d, c)
    ensures LiftAgrees(rt, d, c, scope)
  {
    hide RenderAll, Authored, AttributeProps, ElementProps, RenderTag, PropAttrs, RenderElement;
    AuthoredIsTidy(d);
    var lifted := LiftedAttrs(d.name, d.attrs);
    var given := Given(c, lifted);
    NoDirective(c.attrs, d.attrs);
    FindGiven(c.attrs, d.name, d.attrs, "data-sc-import");
    ImportProps(rt, d, c, scope);
    LiftedAreReserved(d.name, d.attrs);
    PlainIgnores(c.attrs, lifted);
    SameTag(rt, given, c, scope);
    RenderOne(rt, c, scope);
    BareElement(rt, c, scope);
    MountedElement(rt, given, scope);
    MountedBlock(rt, d.(kids := [c]), scope);
  }

  lemma BareElement(rt: Runtime, c: Node, scope: Scope)
    requires c.Element? && c.name != X_IMPORT && !Has(c.attrs, "data-sc-import")
    ensures RenderElement(rt, c, scope) == RenderTag(rt, c, scope)
  {}

  lemma MountedElement(rt: Runtime, c: Node, scope: Scope)
    requires c.Element? && c.name != X_IMPORT && Has(c.attrs, "data-sc-import")
    ensures RenderElement(rt, c, scope)
         == rt.mount(Get(c.attrs, "data-sc-import"), AttributeProps(rt, c.attrs, scope), RenderTag(rt, c, scope))
  {}

  lemma MountedBlock(rt: Runtime, d: Node, scope: Scope)
    requires d.Element? && d.name == X_IMPORT
    ensures RenderElement(rt, d, scope)
         == rt.mount(Get(d.attrs, "component-from-global-scope"), ElementProps(rt, d.attrs, scope), RenderAll(rt, d.kids, scope))
  {}

  lemma NoDirective(c: seq<Attr>, d: seq<Attr>)
    requires !Has(c, "data-sc-for") && !Has(c, "data-sc-if")
    ensures var given := c + LiftedAttrs(X_IMPORT, d); !Has(given, "data-sc-for") && !Has(given, "data-sc-if")
  {
    FindGiven(c, X_IMPORT, d, "data-sc-for");
    FindGiven(c, X_IMPORT, d, "data-sc-if");
    PropAttrsReserved(d);
    HasIsKey(PropAttrs(d), "data-sc-for");
    HasIsKey(PropAttrs(d), "data-sc-if");
    var lifted := LiftedAttrs(X_IMPORT, d);
    assert lifted[1..] == PropAttrs(d);
  }

  lemma OntoAgrees(rt: Runtime, d: Node, c: Node, scope: Scope)
    requires d.Element? && IsBlock(d.name) && Authored(d) && c.Element? && !IsBlock(c.name)
    requires Tidy(c.attrs) && ExactOnto(rt.names, d, c) && Local(rt)
    ensures LiftAgrees(rt, d, c, scope)
  {
    hide LiftAgrees, Local, Tidy, Authored;
    if IsDirective(d.name) && c.name == "helmet" { HelmetAgrees(rt, d, c, scope); }
    else if d.name == SC_FOR { LiftFor(rt, d, c, scope); }
    else if d.name == SC_IF { LiftIf(rt, d, c, scope); }
    else { LiftImport(rt, d, c, scope); }
  }

  // ---- the page ----

  lemma {:induction false} LiftNodeRenders(rt: Runtime, n: Node, inTable: bool, scope: Scope)
    requires Local(rt) && Authored(n) && Safe(rt.names, n, inTable)
    ensures RenderAll(rt, LiftNode(n, inTable), scope) == RenderNode(rt, n, scope)
    decreases n, 0
  {
    hide RenderAll, RenderNode, Local, LiftsOnto, Exact, LiftedAttrs, Tidy;
    if !n.Element? || !n.form.Paired? {
      RenderOne(rt, n, scope);
    } else {
      var below := inTable || n.name in TABLE;
      var kids := LiftAll(n.kids, below);
      forall s ensures RenderAll(rt, n.kids, s) == RenderAll(rt, kids, s) { LiftAllRenders(rt, n.kids, below, s); }
      SameKids(rt, n, n.kids, kids, scope);
      assert n.(kids := n.kids) == n;
      OneElement(n.name, kids, inTable);
      if IsBlock(n.name) && LiftsOnto(n.name, kids, inTable) {
        AllLiftedIsTidy(n.kids, below);
        LiftedBlockRenders(rt, n, kids, inTable, scope);
      } else {
        RenderOne(rt, n.(kids := kids), scope);
      }
    }
  }

  lemma LiftedBlockRenders(rt: Runtime, n: Node, kids: seq<Node>, inTable: bool, scope: Scope)
    requires n.Element? && IsBlock(n.name) && Authored(n) && Local(rt) && SameMeaning(rt, n.kids, kids)
    requires LiftsOnto(n.name, kids, inTable) && Exact(rt.names, n, kids)
    requires forall k :: k in kids && k.Element? ==> Tidy(k.attrs)
    ensures RenderAll(rt, Markup.LiftBlock(n, kids, inTable), scope) == RenderNode(rt, n, scope)
  {
    hide RenderAll, RenderNode, Local, ExactOnto, LiftedAttrs, Tidy, Visible, Loose, Authored;
    var k := Elements(kids)[0];
    var c := kids[k];
    var given := Given(c, LiftedAttrs(n.name, n.attrs));
    var lifted := kids[k := given];
    assert c in kids;
    GivenAt(kids, k, given);
    OnlyChild(rt, lifted, scope);
    forall s ensures RenderAll(rt, n.kids, s) == RenderAll(rt, [c], s) {
      OnlyChild(rt, kids, s);
      RenderOne(rt, c, s);
    }
    SameKids(rt, n, n.kids, [c], scope);
    assert n.(kids := n.kids) == n;
    OntoAgrees(rt, n, c, scope);
  }

  lemma GivenAt(kids: seq<Node>, k: nat, given: Node)
    requires Elements(kids) == [k] && given.Element? && (forall x :: x in kids ==> !Visible(x))
    ensures k < |kids| && Elements(kids[k := given]) == [k] && forall x :: x in kids[k := given] ==> !Visible(x)
  {
    assert Elements(kids)[0] == k;
    SameElements(kids, kids[k := given]);
  }

  lemma {:induction false} SameElements(f: seq<Node>, g: seq<Node>)
    requires |f| == |g| && forall i :: 0 <= i < |f| ==> (f[i].Element? <==> g[i].Element?)
    ensures Elements(f) == Elements(g)
  {
    if f != [] { SameElements(f[..|f| - 1], g[..|g| - 1]); }
  }

  /**
   * A lifted page means what the page meant, in every scope and under every runtime, as long as each
   * of its lifts does so by itself. That condition is exact for every block: see LiftLimits.
   */
  lemma {:induction false} LiftAllRenders(rt: Runtime, f: seq<Node>, inTable: bool, scope: Scope)
    requires Local(rt) && AllAuthored(f) && AllSafe(rt.names, f, inTable)
    ensures RenderAll(rt, f, scope) == RenderAll(rt, LiftAll(f, inTable), scope)
    decreases f, 1
  {
    hide RenderNode, Local, LiftNode, Authored, Safe;
    if f != [] {
      LiftNodeRenders(rt, f[0], inTable, scope);
      LiftAllRenders(rt, f[1..], inTable, scope);
      RenderAppend(rt, LiftNode(f[0], inTable), LiftAll(f[1..], inTable), scope);
    }
  }
}
