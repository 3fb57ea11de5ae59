/**
 * When lifting a block changes what it renders: exactly when the condition of Rendering fails. For
 * every lift that fails it there is a runtime, with the same names in its texts, that tells the two
 * forms apart by counting what they render.
 */
module LiftLimits {
  import opened Wrappers
  import opened Blanks
  import opened Tokens
  import opened Lifting
  import opened Markup
  import opened Rendering

  const NO: Val := Scalar(false, "")

  /** A list of two; like any list it is true as a condition. */
  const TWO: Val := List([NO, NO])

  type Resolver = (string, Scope) -> Val

  /** A runtime whose components render their children and one thing more. */
  function Probe(names: string -> set<string>, js: Resolver): Runtime {
    Runtime(js, names, (raw: string, s: Scope) => raw, (attrs: seq<Attr>, s: Scope) => attrs,
            (name: string, props: map<string, Val>, kids: seq<Dom>) => kids + [DomText("")])
  }

  /** One whose components render nothing. */
  function Silent(names: string -> set<string>, js: Resolver): Runtime {
    Probe(names, js).(mount := (name: string, props: map<string, Val>, kids: seq<Dom>) => [])
  }

  function Always(v: Val): Resolver { (raw: string, s: Scope) => v }

  /** Where a text resolves to something false: everywhere, or by whether a name is bound. */
  datatype Where = Everywhere | Within(name: string) | Outside(name: string)

  predicate Holds(at: Where, s: Scope) {
    match at case Everywhere => true case Within(x) => x in s case Outside(x) => x !in s
  }

  /** One text is false there, and everything else is a list of two. */
  function Deny(value: string, at: Where): Resolver {
    (raw: string, s: Scope) => if raw == value && Holds(at, s) then NO else TWO
  }

  lemma DenyIs(value: string, at: Where, raw: string, s: Scope)
    ensures Deny(value, at)(raw, s) == if raw == value && Holds(at, s) then NO else TWO
  {}

  lemma DenyIsLocal(names: string -> set<string>, value: string, at: Where)
    requires at.Everywhere? || at.name in names(value)
    ensures Local(Probe(names, Deny(value, at)))
  {}

  // ---- counting ----

  function Weight(attrs: seq<Attr>): nat { if Has(attrs, "data-sc-import") then 2 else 1 }

  lemma ElementCount(names: string -> set<string>, js: Resolver, c: Node, scope: Scope)
    requires c.Element? && c.name != X_IMPORT
    ensures |RenderElement(Probe(names, js), c, scope)| == Weight(c.attrs)
  {
    hide RenderAll, Plain, AttributeProps;
  }

  /** The condition a child carries, if any, is true. */
  predicate Passes(js: Resolver, attrs: seq<Attr>, scope: Scope) {
    Has(attrs, "data-sc-if") ==> Truthy(js(Get(attrs, "data-sc-if"), scope))
  }

  lemma PassesIs(js: Resolver, attrs: seq<Attr>, scope: Scope)
    ensures Passes(js, attrs, scope) <==> (Has(attrs, "data-sc-if") ==> Truthy(js(Get(attrs, "data-sc-if"), scope)))
  {}

  lemma {:induction false} SelfCount(names: string -> set<string>, js: Resolver, c: Node, items: seq<Val>, i: nat, name: string, scope: Scope, shown: bool)
    requires c.Element? && c.name != X_IMPORT && i <= |items|
    requires forall j :: i <= j < |items| ==> Passes(js, c.attrs, Inner(scope, name, items, j)) == shown
    ensures |EachSelf(Probe(names, js), c, items, i, name, scope)| == if shown then (|items| - i) * Weight(c.attrs) else 0
    decreases |items| - i
  {
    hide RenderElement, Inner;
    if i < |items| {
      ElementCount(names, js, c, Inner(scope, name, items, i));
      SelfCount(names, js, c, items, i + 1, name, scope, shown);
    }
  }

  /** An element with a loop over a list of two. */
  lemma LoopCount(names: string -> set<string>, js: Resolver, c: Node, scope: Scope, shown: bool)
    requires c.Element? && !IsBlock(c.name) && c.name != "helmet" && Has(c.attrs, "data-sc-for")
    requires js(Get(c.attrs, "data-sc-for"), scope) == TWO
    requires forall s: Scope :: (forall x :: x in Bound(c.attrs) ==> x in s) ==> Passes(js, c.attrs, s) == shown
    ensures |RenderNode(Probe(names, js), c, scope)| == if shown then 2 * Weight(c.attrs) else 0
  {
    hide RenderElement, EachSelf, Passes;
    var name := LoopName(c.attrs, "data-sc-as");
    SelfCount(names, js, c, TWO.items, 0, name, scope, shown);
  }

  /** The two names a loop binds. */
  function Bound(attrs: seq<Attr>): set<string> {
    {LoopName(attrs, "data-sc-as"), LoopName(attrs, "data-sc-as") + "_index"}
  }

  /** An element without a loop. */
  lemma PlainCount(names: string -> set<string>, js: Resolver, c: Node, scope: Scope)
    requires c.Element? && !IsBlock(c.name) && c.name != "helmet" && !Has(c.attrs, "data-sc-for")
    ensures |RenderNode(Probe(names, js), c, scope)| == if Passes(js, c.attrs, scope) then Weight(c.attrs) else 0
  {
    hide RenderElement;
    ElementCount(names, js, c, scope);
  }

  /** Where everything is a list of two. */
  lemma TwoCount(names: string -> set<string>, c: Node, scope: Scope)
    requires c.Element? && !IsBlock(c.name) && c.name != "helmet"
    ensures |RenderNode(Probe(names, Always(TWO)), c, scope)|
         == (if Has(c.attrs, "data-sc-for") then 2 else 1) * Weight(c.attrs)
  {
    hide RenderNode;
    if Has(c.attrs, "data-sc-for") {
      LoopCount(names, Always(TWO), c, scope, true);
    } else {
      PlainCount(names, Always(TWO), c, scope);
    }
  }

  lemma {:induction false} ItemCount(rt: Runtime, kids: seq<Node>, items: seq<Val>, i: nat, name: string, scope: Scope, n: nat)
    requires i <= |items| && forall s :: |RenderAll(rt, kids, s)| == n
    ensures |EachItem(rt, kids, items, i, name, scope)| == (|items| - i) * n
    decreases |items| - i
  {
    hide RenderAll;
    if i < |items| { ItemCount(rt, kids, items, i + 1, name, scope, n); }
  }

  // ---- the element form around one child ----

  lemma AroundIf(rt: Runtime, d: Node, kids: seq<Node>, scope: Scope)
    requires d.Element? && d.name == SC_IF && Authored(d)
    ensures RenderNode(rt, d.(kids := kids), scope)
         == if Truthy(rt.js(Get(d.attrs, "value"), scope)) then RenderAll(rt, kids, scope) else []
  {
    hide RenderAll, Authored;
    AuthoredIsTidy(d);
  }

  lemma AroundFor(rt: Runtime, d: Node, kids: seq<Node>, scope: Scope)
    requires d.Element? && d.name == SC_FOR && Authored(d)
    ensures var items := rt.js(Get(d.attrs, "list"), scope);
            RenderNode(rt, d.(kids := kids), scope)
              == if items.List? then EachItem(rt, kids, items.items, 0, LoopName(d.attrs, "as"), scope) else []
  {
    hide EachItem, Authored;
    AuthoredIsTidy(d);
  }

  lemma AroundImport(rt: Runtime, d: Node, kids: seq<Node>, scope: Scope)
    requires d.Element? && d.name == X_IMPORT && Authored(d)
    ensures RenderNode(rt, d.(kids := kids), scope)
         == rt.mount(Get(d.attrs, "component-from-global-scope"), ElementProps(rt, d.attrs, scope), RenderAll(rt, kids, scope))
  {
    hide RenderAll, Authored, ElementProps, RenderElement;
    AuthoredIsTidy(d);
    MountedBlock(rt, d.(kids := kids), scope);
  }

  // ---- what the child carries afterwards ----

  lemma GivenFor(d: Node, c: Node)
    requires d.Element? && d.name == SC_FOR && c.Element? && Has(c.attrs, "data-sc-for")
    ensures var given := Given(c, LiftedAttrs(d.name, d.attrs));
            && Has(given.attrs, "data-sc-for") && Weight(given.attrs) == Weight(c.attrs)
  {
    FindGiven(c.attrs, d.name, d.attrs, "data-sc-for");
    FindGiven(c.attrs, d.name, d.attrs, "data-sc-import");
    HasIsKey(LiftedAttrs(d.name, d.attrs), "data-sc-import");
  }

  lemma GivenImport(d: Node, c: Node)
    requires d.Element? && d.name == X_IMPORT && c.Element?
    ensures var given := Given(c, LiftedAttrs(d.name, d.attrs));
            && Find(given.attrs, "data-sc-for") == Find(c.attrs, "data-sc-for")
            && Find(given.attrs, "data-sc-if") == Find(c.attrs, "data-sc-if")
            && Weight(given.attrs) == 2
  {
    hide PropAttrs;
    FindGiven(c.attrs, X_IMPORT, d.attrs, "data-sc-for");
    FindGiven(c.attrs, X_IMPORT, d.attrs, "data-sc-if");
    FindGiven(c.attrs, X_IMPORT, d.attrs, "data-sc-import");
    var lifted := LiftedAttrs(X_IMPORT, d.attrs);
    PropAttrsReserved(d.attrs);
    assert lifted[0].key == "data-sc-import" && lifted[1..] == PropAttrs(d.attrs);
    NoPropIs(d.attrs, "data-sc-for", 'f');
    NoPropIs(d.attrs, "data-sc-if", 'i');
  }

  lemma NoPropIs(attrs: seq<Attr>, key: string, letter: char)
    requires |key| > 8 && key[8] == letter && letter != 'p'
    ensures !Has(PropAttrs(attrs), key)
  {
    hide PropAttrs;
    PropAttrsReserved(attrs);
    HasIsKey(PropAttrs(attrs), key);
    assert PROP[8] == 'p' && (|PROP| <= |key| ==> key[..|PROP|][8] == letter);
  }

  // ---- a lift that is not exact is told apart ----

  lemma LoopOntoLoop(names: string -> set<string>, d: Node, c: Node)
    requires d.Element? && d.name == SC_FOR && Authored(d) && c.Element? && !IsBlock(c.name) && c.name != "helmet"
    requires Has(c.attrs, "data-sc-for")
    ensures !LiftAgrees(Probe(names, Always(TWO)), d, c, map[])
  {
    hide RenderNode, RenderAll, EachItem, Authored, LiftedAttrs;
    var rt := Probe(names, Always(TWO));
    GivenFor(d, c);
    TwoCount(names, Given(c, LiftedAttrs(d.name, d.attrs)), map[]);
    forall s ensures |RenderAll(rt, [c], s)| == 2 * Weight(c.attrs) {
      RenderOne(rt, c, s);
      TwoCount(names, c, s);
    }
    AroundFor(rt, d, [c], map[]);
    ItemCount(rt, [c], TWO.items, 0, LoopName(d.attrs, "as"), map[], 2 * Weight(c.attrs));
  }

  /** Two conditions of different texts: the outer one is never read. */
  lemma SecondCondition(names: string -> set<string>, d: Node, c: Node)
    requires d.Element? && d.name == SC_IF && Authored(d) && c.Element? && !IsBlock(c.name) && c.name != "helmet"
    requires Has(c.attrs, "data-sc-if") && Get(d.attrs, "value") != Get(c.attrs, "data-sc-if")
    requires Has(c.attrs, "data-sc-for") ==> Get(d.attrs, "value") != Get(c.attrs, "data-sc-for")
    ensures !LiftAgrees(Probe(names, Deny(Get(d.attrs, "value"), Everywhere)), d, c, map[])
  {
    hide RenderNode, RenderAll, Authored, LiftedAttrs, Deny, Passes;
    var value := Get(d.attrs, "value");
    var js := Deny(value, Everywhere);
    var given := Given(c, LiftedAttrs(d.name, d.attrs));
    AroundIf(Probe(names, js), d, [c], map[]);
    DenyIs(value, Everywhere, value, map[]);
    GivenIf(d, c);
    forall s: Scope ensures Passes(js, given.attrs, s) {
      PassesIs(js, given.attrs, s);
      DenyIs(value, Everywhere, Get(c.attrs, "data-sc-if"), s);
    }
    if Has(c.attrs, "data-sc-for") {
      DenyIs(value, Everywhere, Get(c.attrs, "data-sc-for"), map[]);
      LoopCount(names, js, given, map[], true);
    } else {
      PlainCount(names, js, given, map[]);
    }
  }

  /** A condition that reads a name the loop binds: true outside, false inside. */
  lemma CapturedCondition(names: string -> set<string>, d: Node, c: Node, x: string)
    requires d.Element? && d.name == SC_IF && Authored(d) && c.Element? && !IsBlock(c.name) && c.name != "helmet"
    requires Has(c.attrs, "data-sc-for") && !Has(c.attrs, "data-sc-if") && x in Bound(c.attrs)
    ensures !LiftAgrees(Probe(names, Deny(Get(d.attrs, "value"), Within(x))), d, c, map[])
  {
    hide RenderNode, RenderAll, Authored, LiftedAttrs, Deny, Passes, Bound;
    var value := Get(d.attrs, "value");
    var js := Deny(value, Within(x));
    AroundIf(Probe(names, js), d, [c], map[]);
    RenderOne(Probe(names, js), c, map[]);
    DenyIs(value, Within(x), value, map[]);
    DenyIs(value, Within(x), Get(c.attrs, "data-sc-for"), map[]);
    forall s: Scope ensures Passes(js, c.attrs, s) { PassesIs(js, c.attrs, s); }
    LoopCount(names, js, c, map[], true);
    GivenIf(d, c);
    var given := Given(c, LiftedAttrs(d.name, d.attrs));
    SameBound(given.attrs, c.attrs);
    DeniedWithin(given.attrs, value, x);
    LoopCount(names, js, given, map[], false);
  }

  lemma SameBound(a: seq<Attr>, b: seq<Attr>)
    requires Find(a, "data-sc-as") == Find(b, "data-sc-as")
    ensures Bound(a) == Bound(b)
  {
    hide Find;
  }

  lemma DeniedWithin(attrs: seq<Attr>, value: string, x: string)
    requires Find(attrs, "data-sc-if") == Some(value) && x in Bound(attrs)
    ensures forall s: Scope :: (forall y :: y in Bound(attrs) ==> y in s) ==> !Passes(Deny(value, Within(x)), attrs, s)
  {
    hide Find, Bound, Deny;
    forall s: Scope | forall y :: y in Bound(attrs) ==> y in s ensures !Passes(Deny(value, Within(x)), attrs, s) {
      assert x in s;
      DeniedThere(value, Within(x), s);
    }
  }

  lemma DeniedThere(value: string, at: Where, s: Scope)
    requires Holds(at, s)
    ensures Deny(value, at)(value, s) == NO
  {}

  /** The same condition twice, which reads a name the loop binds: false outside, true inside. */
  lemma CapturedTwice(names: string -> set<string>, d: Node, c: Node, x: string)
    requires d.Element? && d.name == SC_IF && Authored(d) && c.Element? && !IsBlock(c.name) && c.name != "helmet"
    requires Has(c.attrs, "data-sc-for") && Has(c.attrs, "data-sc-if") && x in Bound(c.attrs)
    requires Get(d.attrs, "value") == Get(c.attrs, "data-sc-if") && Get(d.attrs, "value") != Get(c.attrs, "data-sc-for")
    ensures !LiftAgrees(Probe(names, Deny(Get(d.attrs, "value"), Outside(x))), d, c, map[])
  {
    hide RenderNode, RenderAll, Authored, LiftedAttrs, Deny, Passes, Bound;
    var value := Get(d.attrs, "value");
    var js := Deny(value, Outside(x));
    AroundIf(Probe(names, js), d, [c], map[]);
    DenyIs(value, Outside(x), value, map[]);
    DenyIs(value, Outside(x), Get(c.attrs, "data-sc-for"), map[]);
    GivenIf(d, c);
    var given := Given(c, LiftedAttrs(d.name, d.attrs));
    SameBound(given.attrs, c.attrs);
    forall s: Scope | forall y :: y in Bound(given.attrs) ==> y in s ensures Passes(js, given.attrs, s) {
      PassesIs(js, given.attrs, s);
      assert x in s;
      DenyIs(value, Outside(x), value, s);
    }
    LoopCount(names, js, given, map[], true);
  }

  /** An import mounts its component once; lifted, once for each item, or not at all, or not outermost. */
  lemma ImportOntoMore(names: string -> set<string>, d: Node, c: Node) returns (v: Val)
    requires d.Element? && d.name == X_IMPORT && Authored(d) && c.Element? && !IsBlock(c.name)
    requires c.name == "helmet" || Has(c.attrs, "data-sc-for") || Has(c.attrs, "data-sc-if") || Has(c.attrs, "data-sc-import")
    ensures !LiftAgrees(Probe(names, Always(v)), d, c, map[])
  {
    hide RenderNode, RenderAll, Authored, LiftedAttrs, ElementProps;
    v := if c.name != "helmet" && !Has(c.attrs, "data-sc-for") && Has(c.attrs, "data-sc-if") then NO else TWO;
    var rt := Probe(names, Always(v));
    var given := Given(c, LiftedAttrs(d.name, d.attrs));
    AroundImport(rt, d, [c], map[]);
    RenderOne(rt, c, map[]);
    GivenImport(d, c);
    if c.name == "helmet" {
      HelmetNode(rt, c, map[]);
      HelmetNode(rt, given, map[]);
    } else if v == NO {
      PlainCount(names, Always(NO), c, map[]);
      PlainCount(names, Always(NO), given, map[]);
    } else {
      TwoCount(names, c, map[]);
      TwoCount(names, given, map[]);
    }
  }

  lemma HelmetNode(rt: Runtime, c: Node, scope: Scope)
    requires c.Element? && c.name == "helmet"
    ensures RenderNode(rt, c, scope) == []
  {}

  lemma OntoDiffers(names: string -> set<string>, d: Node, c: Node) returns (rt: Runtime)
    requires d.Element? && IsBlock(d.name) && Authored(d) && c.Element? && !IsBlock(c.name) && !ExactOnto(names, d, c)
    ensures Local(rt) && rt.names == names && !LiftAgrees(rt, d, c, map[])
  {
    hide LiftAgrees, Authored, Find, LoopName;
    var value := Get(d.attrs, "value");
    if d.name == SC_FOR {
      rt := Probe(names, Always(TWO));
      LoopOntoLoop(names, d, c);
    } else if d.name == X_IMPORT {
      var v := ImportOntoMore(names, d, c);
      rt := Probe(names, Always(v));
    } else if Has(c.attrs, "data-sc-if") && value != Get(c.attrs, "data-sc-if") {
      rt := Probe(names, Deny(value, Everywhere));
      DenyIsLocal(names, value, Everywhere);
      SecondCondition(names, d, c);
    } else {
      var x :| x in Bound(c.attrs) && x in names(value);
      if Has(c.attrs, "data-sc-if") {
        rt := Probe(names, Deny(value, Outside(x)));
        DenyIsLocal(names, value, Outside(x));
        CapturedTwice(names, d, c, x);
      } else {
        rt := Probe(names, Deny(value, Within(x)));
        DenyIsLocal(names, value, Within(x));
        CapturedCondition(names, d, c, x);
      }
    }
  }

  // ---- a text that stays behind ----

  lemma {:induction false} TextShows(rt: Runtime, f: seq<Node>, scope: Scope)
    requires exists k :: k in f && Visible(k)
    ensures |RenderAll(rt, f, scope)| > 0
  {
    hide RenderNode, Visible;
    if Visible(f[0]) {
      VisibleNode(rt, f[0], scope);
    } else {
      var k :| k in f && Visible(k);
      assert k in f[1..];
      TextShows(rt, f[1..], scope);
    }
  }

  lemma VisibleNode(rt: Runtime, n: Node, scope: Scope)
    requires Visible(n)
    ensures |RenderNode(rt, n, scope)| == 1
  {}

  /** Nothing is rendered where the list is no list, the condition false and the component silent. */
  lemma NothingAround(names: string -> set<string>, n: Node, kids: seq<Node>)
    requires n.Element? && IsBlock(n.name) && Authored(n)
    ensures RenderNode(Silent(names, Always(NO)), n.(kids := kids), map[]) == []
  {
    hide RenderNode, RenderAll, EachItem, Authored, ElementProps;
    var rt := Silent(names, Always(NO));
    if n.name == SC_FOR { AroundFor(rt, n, kids, map[]); }
    else if n.name == SC_IF { AroundIf(rt, n, kids, map[]); }
    else { AroundImport(rt, n, kids, map[]); }
  }

  // ---- exactly when ----

  lemma BlockDiffers(names: string -> set<string>, n: Node, kids: seq<Node>, inTable: bool) returns (rt: Runtime)
    requires n.Element? && IsBlock(n.name) && Authored(n) && LiftsOnto(n.name, kids, inTable) && !Exact(names, n, kids)
    ensures Local(rt) && rt.names == names
    ensures RenderAll(rt, Markup.LiftBlock(n, kids, inTable), map[]) != RenderNode(rt, n.(kids := kids), map[])
  {
    hide RenderAll, RenderNode, Local, LiftedAttrs, Visible, Loose, ExactOnto, Authored;
    var k := Elements(kids)[0];
    var c := kids[k];
    var given := Given(c, LiftedAttrs(n.name, n.attrs));
    var lifted := kids[k := given];
    if x :| x in kids && Visible(x) {
      rt := Silent(names, Always(NO));
      AlwaysIsLocal(names, NO);
      var i :| 0 <= i < |kids| && kids[i] == x;
      TextIsNoElement(x);
      assert lifted[i] == x && x in lifted;
      TextShows(rt, lifted, map[]);
      NothingAround(names, n, kids);
    } else {
      rt := OntoDiffers(names, n, c);
      GivenAt(kids, k, given);
      OnlyChild(rt, lifted, map[]);
      forall s ensures RenderAll(rt, kids, s) == RenderAll(rt, [c], s) {
        OnlyChild(rt, kids, s);
        RenderOne(rt, c, s);
      }
      SameKids(rt, n, kids, [c], map[]);
    }
  }

  lemma TextIsNoElement(n: Node)
    requires Visible(n)
    ensures !n.Element?
  {}

  lemma AlwaysIsLocal(names: string -> set<string>, v: Val)
    ensures Local(Silent(names, Always(v)))
  {}

  /** Lifted or not, the same is rendered: by every runtime whose texts read these names, in every scope. */
  ghost predicate MeansTheSame(names: string -> set<string>, n: Node, inTable: bool) {
    forall rt: Runtime, scope: Scope :: Local(rt) && rt.names == names ==>
      RenderAll(rt, LiftNode(n, inTable), scope) == RenderNode(rt, n, scope)
  }

  /** A block whose inner blocks lift safely means the same lifted if and only if its own lift is safe. */
  lemma LiftIff(names: string -> set<string>, n: Node, inTable: bool)
    requires n.Element? && n.form.Paired? && IsBlock(n.name) && Authored(n)
    requires AllSafe(names, n.kids, inTable || n.name in TABLE)
    ensures MeansTheSame(names, n, inTable) <==> Safe(names, n, inTable)
  {
    hide RenderAll, RenderNode, Local, Exact, LiftsOnto, Markup.LiftBlock;
    if Safe(names, n, inTable) {
      forall rt: Runtime, scope: Scope | Local(rt) && rt.names == names
        ensures RenderAll(rt, LiftNode(n, inTable), scope) == RenderNode(rt, n, scope)
      {
        LiftNodeRenders(rt, n, inTable, scope);
      }
    } else {
      var below := inTable || n.name in TABLE;
      var kids := LiftAll(n.kids, below);
      var rt := BlockDiffers(names, n, kids, inTable);
      forall s ensures RenderAll(rt, n.kids, s) == RenderAll(rt, kids, s) { LiftAllRenders(rt, n.kids, below, s); }
      SameKids(rt, n, n.kids, kids, map[]);
      assert n.(kids := n.kids) == n;
      assert RenderAll(rt, LiftNode(n, inTable), map[]) != RenderNode(rt, n, map[]);
    }
  }

  /** The same of one block on one child, whatever the child has collected. */
  lemma OntoIff(names: string -> set<string>, d: Node, c: Node)
    requires d.Element? && IsBlock(d.name) && Authored(d) && c.Element? && !IsBlock(c.name) && Tidy(c.attrs)
    ensures (forall rt: Runtime, scope: Scope :: Local(rt) && rt.names == names ==> LiftAgrees(rt, d, c, scope))
       <==> ExactOnto(names, d, c)
  {
    hide LiftAgrees, Local, ExactOnto, Authored, Tidy;
    if ExactOnto(names, d, c) {
      forall rt: Runtime, scope: Scope | Local(rt) && rt.names == names ensures LiftAgrees(rt, d, c, scope) {
        OntoAgrees(rt, d, c, scope);
      }
    } else {
      var rt := OntoDiffers(names, d, c);
    }
  }

  // ---- two nested blocks, and the text beside a child ----

  lemma OnlyKid(name: string, kid: Node, inTable: bool)
    requires kid.Element? && !IsBlock(kid.name) && (name == X_IMPORT ==> inTable)
    ensures LiftsOnto(name, [kid], inTable) && Elements([kid]) == [0]
  {
    assert [kid][..0] == [];
  }

  lemma LiftsToOne(n: Node, kid: Node, row: Node, inTable: bool)
    requires n.Element? && n.form.Paired? && IsBlock(n.name) && n.kids == [kid] && (n.name == X_IMPORT ==> inTable)
    requires row.Element? && !IsBlock(row.name) && LiftNode(kid, inTable) == [row]
    ensures LiftAll(n.kids, inTable || n.name in TABLE) == [row] && LiftsOnto(n.name, [row], inTable) && Elements([row]) == [0]
    ensures LiftNode(n, inTable) == [Given(row, LiftedAttrs(n.name, n.attrs))]
  {
    hide LiftedAttrs;
    assert [kid][1..] == [];
    OnlyKid(n.name, row, inTable);
    assert LiftAll([kid], inTable) == [row] + [] == [row];
    var given := Given(row, LiftedAttrs(n.name, n.attrs));
    assert [row][0 := given] == [given];
  }

  /** An element without children that is no block. */
  predicate Leaf(n: Node) { n.Element? && n.kids == [] && !IsBlock(n.name) && n.name != "helmet" }

  lemma LeafStays(names: string -> set<string>, n: Node, inTable: bool)
    requires Leaf(n)
    ensures LiftNode(n, inTable) == [n] && Safe(names, n, inTable)
  {}

  /** Which of two nested blocks around one bare element can both be lifted onto it. */
  predicate Nests(names: string -> set<string>, outer: Node, inner: Node)
    requires outer.Element? && inner.Element?
  {
    if outer.name == X_IMPORT then false
    else if outer.name == SC_FOR then inner.name != SC_FOR
    else if inner.name == SC_FOR then
      var name := LoopName(inner.attrs, "as");
      name !in names(Get(outer.attrs, "value")) && name + "_index" !in names(Get(outer.attrs, "value"))
    else inner.name == SC_IF ==> Get(outer.attrs, "value") == Get(inner.attrs, "value")
  }

  lemma BareCarries(inner: Node, row: Node)
    requires inner.Element? && IsBlock(inner.name) && row.Element? && Authored(row)
    ensures var c := Given(row, LiftedAttrs(inner.name, inner.attrs)).attrs;
            && (Has(c, "data-sc-for") <==> inner.name == SC_FOR)
            && (Has(c, "data-sc-import") <==> inner.name == X_IMPORT)
            && Find(c, "data-sc-if") == (if inner.name == SC_IF then Some(Get(inner.attrs, "value")) else None)
            && (inner.name == SC_FOR ==> LoopName(c, "data-sc-as") == LoopName(inner.attrs, "as"))
  {
    hide PropAttrs, Authored;
    AuthoredIsTidy(row);
    var more := LiftedAttrs(inner.name, inner.attrs);
    FindGiven(row.attrs, inner.name, inner.attrs, "data-sc-for");
    FindGiven(row.attrs, inner.name, inner.attrs, "data-sc-as");
    FindGiven(row.attrs, inner.name, inner.attrs, "data-sc-if");
    FindGiven(row.attrs, inner.name, inner.attrs, "data-sc-import");
    if inner.name == X_IMPORT {
      PropAttrsReserved(inner.attrs);
      assert more[0].key == "data-sc-import" && more[1..] == PropAttrs(inner.attrs);
      NoPropIs(inner.attrs, "data-sc-for", 'f');
      NoPropIs(inner.attrs, "data-sc-if", 'i');
    } else if inner.name == SC_FOR {
      assert more[1..][0].key == "data-sc-as";
      HasIsKey(more, "data-sc-if");
      HasIsKey(more, "data-sc-import");
    } else {
      assert more[1..] == [];
    }
  }

  /** Two nested blocks around a bare element: lifting both keeps the meaning in exactly these cases. */
  lemma NestedIff(names: string -> set<string>, outer: Node, inner: Node, row: Node, inTable: bool)
    requires outer.Element? && outer.form.Paired? && IsBlock(outer.name) && outer.kids == [inner] && Authored(outer)
    requires inner.Element? && inner.form.Paired? && IsBlock(inner.name) && inner.kids == [row]
    requires Leaf(row) && (outer.name == X_IMPORT || inner.name == X_IMPORT ==> inTable)
    ensures MeansTheSame(names, outer, inTable) <==> Nests(names, outer, inner)
  {
    hide MeansTheSame, LiftNode, LiftAll, LiftsOnto, Find, LoopName, LiftedAttrs, Elements;
    assert !(outer.name in TABLE) && !(inner.name in TABLE);
    assert Authored(outer.kids[0]);
    assert AllAuthored(inner.kids) && Authored(inner.kids[0]);
    LeafStays(names, row, inTable);
    LiftsToOne(inner, row, row, inTable);
    NoDirectiveOn(row);
    assert Safe(names, inner, inTable);
    LiftsToOne(outer, inner, Given(row, LiftedAttrs(inner.name, inner.attrs)), inTable);
    BareCarries(inner, row);
    LiftIff(names, outer, inTable);
  }

  lemma NoDirectiveOn(row: Node)
    requires row.Element? && Authored(row)
    ensures !Has(row.attrs, "data-sc-for") && !Has(row.attrs, "data-sc-if") && !Has(row.attrs, "data-sc-import")
  {
    AuthoredIsTidy(row);
  }

  /** A blank text beside the only child: it may stay behind exactly when it is ASCII white space. */
  lemma BesideIff(names: string -> set<string>, d: Node, text: string, row: Node, inTable: bool)
    requires d.Element? && d.form.Paired? && IsBlock(d.name) && d.kids == [TextNode(text), row] && Authored(d)
    requires Leaf(row) && Blank(text) && (d.name == X_IMPORT ==> inTable)
    ensures MeansTheSame(names, d, inTable) <==> AsciiSpace(text)
  {
    hide MeansTheSame, Blank, AsciiSpace, Find, LiftedAttrs;
    assert !(d.name in TABLE);
    assert Authored(d.kids[1]);
    LeafStays(names, row, inTable);
    BesideLifts(d, text, row, inTable);
    NoDirectiveOn(row);
    LiftIff(names, d, inTable);
    assert AllSafe(names, d.kids, inTable) && ExactOnto(names, d, row);
    assert TextNode(text) in d.kids && (Visible(TextNode(text)) <==> !AsciiSpace(text));
    assert forall k :: k in d.kids ==> k == TextNode(text) || k == row;
    assert Exact(names, d, d.kids) <==> AsciiSpace(text);
  }

  lemma BesideLifts(d: Node, text: string, row: Node, inTable: bool)
    requires d.Element? && IsBlock(d.name) && d.kids == [TextNode(text), row] && Leaf(row) && Blank(text)
    requires d.name == X_IMPORT ==> inTable
    ensures LiftAll(d.kids, inTable) == d.kids && LiftsOnto(d.name, d.kids, inTable) && Elements(d.kids) == [1]
  {
    hide Blank, LiftAll, Elements;
    LeafLifts(row, inTable);
    TextThenLeaf(text, row, inTable);
  }

  lemma LeafLifts(row: Node, inTable: bool)
    requires Leaf(row)
    ensures LiftAll([row], inTable) == [row]
  {
    assert LiftNode(row, inTable) == [row];
    assert [row][1..] == [] && [row] + [] == [row];
  }

  lemma TextThenLeaf(text: string, row: Node, inTable: bool)
    requires row.Element? && LiftAll([row], inTable) == [row]
    ensures LiftAll([TextNode(text), row], inTable) == [TextNode(text), row] && Elements([TextNode(text), row]) == [1]
  {
    var kids := [TextNode(text), row];
    assert kids[1..] == [row] && kids[..1] == [TextNode(text)] && kids[..1][..0] == [];
    assert LiftAll(kids, inTable) == [TextNode(text)] + [row];
    assert Elements([TextNode(text)]) == [];
  }

  /** A no-break space is white space to Go and not to HTML. */
  lemma NoBreakSpace()
    ensures Blank("\U{A0}") && !AsciiSpace("\U{A0}")
  {
    var text := "\U{A0}";
    assert |text| == 1 && text[0] as int == 0xA0 && text[1..] == "";
    assert IsSpace(text[0]) && TrimLeft(text) == TrimLeft(text[1..]) == "";
  }

  // ---- of a whole page the condition is sufficient only ----

  function If(value: string, kids: seq<Node>): Node { Element(SC_IF, [Attr("value", value)], kids, Paired) }

  /** A condition on a text and a row, below the same condition. */
  function Masked(value: string, row: Node): Node { If(value, [row, If(value, [TextNode("\U{A0}"), row])]) }

  lemma IfAttrs(value: string, kids: seq<Node>)
    requires AllAuthored(kids)
    ensures Authored(If(value, kids)) && Get(If(value, kids).attrs, "value") == value
    ensures LiftedAttrs(SC_IF, If(value, kids).attrs) == [Attr("data-sc-if", value)]
  {
    assert !IsProp("value");
  }

  lemma TextAndRowAuthored(row: Node)
    requires Authored(row)
    ensures AllAuthored([TextNode("\U{A0}"), row])
  {}

  lemma MaskedLifts(value: string, row: Node)
    requires Leaf(row) && Authored(row)
    ensures LiftNode(Masked(value, row), false)
         == [If(value, [row, TextNode("\U{A0}"), Given(row, [Attr("data-sc-if", value)])])]
  {
    hide Blank, LiftedAttrs, Authored;
    var text := TextNode("\U{A0}");
    var inner, given := If(value, [text, row]), Given(row, [Attr("data-sc-if", value)]);
    NoBreakSpace();
    BesideLifts(inner, "\U{A0}", row, false);
    TextAndRowAuthored(row);
    IfAttrs(value, inner.kids);
    assert inner.kids[1 := given] == [text, given];
    assert LiftNode(inner, false) == [text, given];
    var kids := [row, inner];
    assert kids[1..] == [inner] && [inner][1..] == [];
    assert LiftAll([inner], false) == [text, given] + [] == [text, given];
    assert LiftAll(kids, false) == [row] + [text, given] == [row, text, given];
    TwoElements(row, text, given);
  }

  lemma TwoElements(a: Node, b: Node, c: Node)
    requires a.Element? && !b.Element? && c.Element?
    ensures |Elements([a, b, c])| == 2
  {
    assert [a, b, c][..2] == [a, b] && [a, b][..1] == [a] && [a][..0] == [];
    assert Elements([a]) == [0];
    assert Elements([a, b]) == [0];
  }

  lemma TextAndRow(rt: Runtime, text: Node, row: Node, scope: Scope)
    ensures RenderAll(rt, [text, row], scope) == RenderNode(rt, text, scope) + RenderNode(rt, row, scope)
  {
    hide RenderNode;
    assert [text, row][1..] == [row];
    RenderOne(rt, row, scope);
  }

  /** An unsafe lift that nobody can see: whenever its text stays behind, it was to be shown anyway. */
  lemma MaskedLift(names: string -> set<string>, value: string, row: Node)
    requires Leaf(row) && Authored(row)
    ensures !Safe(names, Masked(value, row), false) && MeansTheSame(names, Masked(value, row), false)
  {
    hide LiftNode, RenderNode, RenderAll, RenderElement, Authored, LiftedAttrs, Safe, Find;
    var text := TextNode("\U{A0}");
    var inner, given := If(value, [text, row]), Given(row, [Attr("data-sc-if", value)]);
    TextAndRowAuthored(row);
    IfAttrs(value, [text, row]);
    IfAttrs(value, [row, inner]);
    MaskedIsUnsafe(names, value, row);
    MaskedLifts(value, row);
    GivenIf(inner, row);
    NoDirectiveOn(row);
    forall rt: Runtime, scope: Scope | Local(rt) && rt.names == names
      ensures RenderAll(rt, LiftNode(Masked(value, row), false), scope) == RenderNode(rt, Masked(value, row), scope)
    {
      RenderOne(rt, If(value, [row, text, given]), scope);
      AroundIf(rt, Masked(value, row), [row, inner], scope);
      AroundIf(rt, Masked(value, row), [row, text, given], scope);
      AroundIf(rt, inner, [text, row], scope);
      TextAndRow(rt, row, inner, scope);
      TextAndRow(rt, text, row, scope);
      TextAndRow(rt, text, given, scope);
      assert [row, text, given][1..] == [text, given];
      RenderAppend(rt, [row], [text, given], scope);
      assert [row] + [text, given] == [row, text, given];
      RenderOne(rt, row, scope);
      NoLoop(rt, row, scope);
      NoLoop(rt, given, scope);
      DirectiveElement(rt, SC_IF, inner.attrs, row, scope);
    }
  }

  lemma MaskedIsUnsafe(names: string -> set<string>, value: string, row: Node)
    requires Leaf(row) && Authored(row)
    ensures !Safe(names, Masked(value, row), false)
  {
    hide Blank, Authored, LiftedAttrs;
    var text := TextNode("\U{A0}");
    var inner := If(value, [text, row]);
    NoBreakSpace();
    BesideLifts(inner, "\U{A0}", row, false);
    assert text in inner.kids && Visible(text);
    assert !Safe(names, inner, false);
    assert Masked(value, row).kids[1] == inner;
  }
}
