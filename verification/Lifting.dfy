/**
 * Lifting a block onto its only child (internal/mockup/publish.go), in place on a token list. A
 * block is <sc-for>, <sc-if> or <x-import>; lifting drops its two tags and gives the child
 * attributes that say the same.
 */
module Lifting {
  import opened Wrappers
  import opened Ordering
  import opened Tokens
  import opened Blanks

  // ---- what the code computes, on the tokens themselves ----

  predicate IsBlockStart(t: Tok) { t.Start? && IsBlock(t.name) }

  predicate IsBlockEnd(t: Tok) { t.End? && IsBlock(t.name) }

  /** Where a scan at `i` with `depth` blocks open finds the end of the block named `name`. */
  function MatchFrom(toks: seq<Tok>, i: nat, depth: int, name: string): (r: Option<nat>)
    requires i <= |toks|
    ensures r.Some? ==> i <= r.value < |toks|
    decreases |toks| - i
  {
    if i == |toks| then None
    else if IsBlockStart(toks[i]) then MatchFrom(toks, i + 1, depth + 1, name)
    else if IsBlockEnd(toks[i]) then
      if depth == 1 then (if toks[i].name == name then Some(i) else None)
      else MatchFrom(toks, i + 1, depth - 1, name)
    else MatchFrom(toks, i + 1, depth, name)
  }

  /** The end of the block that opens the tokens, if it has one of its own name. */
  function BlockEnd(toks: seq<Tok>): (r: Option<nat>)
    ensures r.Some? ==> 0 < r.value < |toks|
  {
    if toks != [] && IsBlockStart(toks[0]) then MatchFrom(toks, 1, 1, toks[0].name) else None
  }

  predicate Blank(text: string) { TrimSpace(text) == "" }

  /** An end tag closes a level, if one is open. */
  function Shallower(depth: nat): nat { if depth == 0 then 0 else depth - 1 }

  /** The element children of a stretch of tokens and whether loose text sits between them. */
  function TopFrom(toks: seq<Tok>, i: nat, depth: nat): (r: (seq<nat>, bool))
    requires i <= |toks|
    ensures forall j :: 0 <= j < |r.0| ==> i <= r.0[j] < |toks| && IsElement(toks[r.0[j]])
    decreases |toks| - i
  {
    if i == |toks| then ([], false)
    else
      var t := toks[i];
      match t
      case Text(s) =>
        var rest := TopFrom(toks, i + 1, depth);
        (rest.0, rest.1 || (depth == 0 && !Blank(s)))
      case Other => TopFrom(toks, i + 1, depth)
      case Gone => TopFrom(toks, i + 1, depth)
      case End(_) => TopFrom(toks, i + 1, Shallower(depth))
      case _ =>
        var rest := TopFrom(toks, i + 1, if OpensLevel(t) then depth + 1 else depth);
        (if depth == 0 then [i] + rest.0 else rest.0, rest.1)
  }

  function AddAttrs(t: Tok, attrs: seq<Attr>): (r: Token)
    requires IsElement(t)
    ensures IsElement(r) && r.name == t.name && r.attrs == t.attrs + attrs
  {
    if t.Start? then Start(t.name, t.attrs + attrs) else SelfClosing(t.name, t.attrs + attrs)
  }

  /** What an <x-import> becomes: its component, then one attribute per prop, in source order. */
  function PropAttrs(attrs: seq<Attr>): seq<Attr> {
    if attrs == [] then []
    else
      (if attrs[0].key == "component-from-global-scope" || attrs[0].key == "from" then []
       else [Attr("data-sc-prop-" + attrs[0].key, attrs[0].val)]) + PropAttrs(attrs[1..])
  }

  function LiftedAttrs(name: string, attrs: seq<Attr>): seq<Attr> {
    if name == SC_FOR then
      [Attr("data-sc-for", Get(attrs, "list")), Attr("data-sc-as", if Get(attrs, "as") == "" then "item" else Get(attrs, "as"))]
    else if name == SC_IF then [Attr("data-sc-if", Get(attrs, "value"))]
    else [Attr("data-sc-import", Get(attrs, "component-from-global-scope"))] + PropAttrs(attrs)
  }

  /** One element child, no loose text, and the child not itself a block; an import only in a table. */
  predicate CanLift(name: string, body: seq<Tok>, inTable: bool) {
    var top := TopFrom(body, 0, 0);
    && (name == X_IMPORT ==> inTable)
    && |top.0| == 1 && !top.1 && !IsBlock(body[top.0[0]].name)
  }

  function Onto(d: Tok, body: seq<Tok>, close: Tok, inTable: bool): seq<Tok>
    requires IsBlockStart(d)
  {
    if CanLift(d.name, body, inTable)
    then
      var k := TopFrom(body, 0, 0).0[0];
      body[k := AddAttrs(body[k], LiftedAttrs(d.name, d.attrs))]
    else [d] + body + [close]
  }

  lemma OntoCases(d: Tok, body: seq<Tok>, close: Tok, inTable: bool)
    requires IsBlockStart(d)
    ensures Onto(d, body, close, inTable) ==
      if CanLift(d.name, body, inTable)
      then body[TopFrom(body, 0, 0).0[0] := AddAttrs(body[TopFrom(body, 0, 0).0[0]], LiftedAttrs(d.name, d.attrs))]
      else [d] + body + [close]
  {
    hide TopFrom, LiftedAttrs, AddAttrs;
  }

  function LiftTokens(toks: seq<Tok>, inTable: seq<bool>): seq<Tok>
    requires |toks| == |inTable|
    decreases |toks|
  {
    if toks == [] then []
    else match BlockEnd(toks)
      case None => Shown(toks[0]) + LiftTokens(toks[1..], inTable[1..])
      case Some(e) =>
        Onto(toks[0], LiftTokens(toks[1..e], inTable[1..e]), toks[e], inTable[0])
        + LiftTokens(toks[e + 1..], inTable[e + 1..])
  }

  /** How many blocks are lifted. */
  function LiftCount(toks: seq<Tok>, inTable: seq<bool>): nat
    requires |toks| == |inTable|
    decreases |toks|
  {
    if toks == [] then 0
    else match BlockEnd(toks)
      case None => LiftCount(toks[1..], inTable[1..])
      case Some(e) =>
        LiftCount(toks[1..e], inTable[1..e])
        + (if CanLift(toks[0].name, LiftTokens(toks[1..e], inTable[1..e]), inTable[0]) then 1 else 0)
        + LiftCount(toks[e + 1..], inTable[e + 1..])
  }

  // ---- what the count counts ----

  function BlocksIn(toks: seq<Tok>): nat {
    if toks == [] then 0 else (if IsBlockStart(toks[0]) then 1 else 0) + BlocksIn(toks[1..])
  }

  lemma {:induction false} BlocksInAppend(a: seq<Tok>, b: seq<Tok>)
    ensures BlocksIn(a + b) == BlocksIn(a) + BlocksIn(b)
  {
    if a == [] {
      assert a + b == b;
    } else {
      BlocksInAppend(a[1..], b);
      assert (a + b)[0] == a[0] && (a + b)[1..] == a[1..] + b;
    }
  }

  lemma OneBlock(t: Tok)
    ensures BlocksIn([t]) == if IsBlockStart(t) then 1 else 0
  {
    assert [t][1..] == [];
  }

  lemma SameBlocks(body: seq<Tok>, k: nat, attrs: seq<Attr>)
    requires k < |body| && IsElement(body[k])
    ensures BlocksIn(body[k := AddAttrs(body[k], attrs)]) == BlocksIn(body)
  {
    var now := body[k := AddAttrs(body[k], attrs)];
    assert body == body[..k] + ([body[k]] + body[k + 1..]) && now == body[..k] + ([now[k]] + body[k + 1..]);
    BlocksInAppend(body[..k], [body[k]] + body[k + 1..]);
    BlocksInAppend(body[..k], [now[k]] + body[k + 1..]);
    BlocksInAppend([body[k]], body[k + 1..]);
    BlocksInAppend([now[k]], body[k + 1..]);
    OneBlock(body[k]);
    OneBlock(now[k]);
  }

  /** A lifted block is one block fewer, and a block that stays is none. */
  lemma OntoBlocks(d: Tok, body: seq<Tok>, close: Tok, inTable: bool)
    requires IsBlockStart(d) && close.End?
    ensures BlocksIn(Onto(d, body, close, inTable)) == BlocksIn(body) + if CanLift(d.name, body, inTable) then 0 else 1
  {
    hide TopFrom, LiftedAttrs, AddAttrs, BlocksIn;
    if CanLift(d.name, body, inTable) {
      SameBlocks(body, TopFrom(body, 0, 0).0[0], LiftedAttrs(d.name, d.attrs));
    } else {
      assert [d] + body + [close] == [d] + (body + [close]);
      BlocksInAppend([d], body + [close]);
      BlocksInAppend(body, [close]);
      OneBlock(d);
      OneBlock(close);
    }
  }

  lemma {:induction false} EndIsEnd(toks: seq<Tok>, i: nat, depth: int, name: string)
    requires i <= |toks|
    ensures var r := MatchFrom(toks, i, depth, name); r.Some? ==> toks[r.value].End?
    decreases |toks| - i
  {
    if i < |toks| {
      EndIsEnd(toks, i + 1, depth + 1, name);
      EndIsEnd(toks, i + 1, depth - 1, name);
      EndIsEnd(toks, i + 1, depth, name);
    }
  }

  lemma EndIsNoBlock(t: Tok)
    ensures t.End? ==> !IsBlockStart(t)
  {}

  /** The count of lifts is the number of blocks that are gone. */
  lemma {:induction false} CountIsBlocksGone(toks: seq<Tok>, inTable: seq<bool>)
    requires |toks| == |inTable|
    ensures LiftCount(toks, inTable) == BlocksIn(toks) - BlocksIn(LiftTokens(toks, inTable))
    decreases |toks|
  {
    hide Onto, CanLift, BlocksIn, MatchFrom;
    if toks == [] {
    } else {
      match BlockEnd(toks) {
        case None =>
          CountIsBlocksGone(toks[1..], inTable[1..]);
          BlocksInAppend(Shown(toks[0]), LiftTokens(toks[1..], inTable[1..]));
          FirstBlock(toks);
        case Some(e) =>
          var inner, rest := LiftTokens(toks[1..e], inTable[1..e]), LiftTokens(toks[e + 1..], inTable[e + 1..]);
          CountIsBlocksGone(toks[1..e], inTable[1..e]);
          CountIsBlocksGone(toks[e + 1..], inTable[e + 1..]);
          EndIsEnd(toks, 1, 1, toks[0].name);
          OntoBlocks(toks[0], inner, toks[e], inTable[0]);
          BlocksInAppend(Onto(toks[0], inner, toks[e], inTable[0]), rest);
          BlockParts(toks, e);
      }
    }
  }

  lemma FirstBlock(toks: seq<Tok>)
    requires toks != []
    ensures BlocksIn(toks) == BlocksIn(Shown(toks[0])) + BlocksIn(toks[1..])
  {
    if !toks[0].Gone? { OneBlock(toks[0]); }
  }

  lemma BlockParts(toks: seq<Tok>, e: nat)
    requires 0 < e < |toks| && IsBlockStart(toks[0]) && toks[e].End?
    ensures BlocksIn(toks) == 1 + BlocksIn(toks[1..e]) + BlocksIn(toks[e + 1..])
  {
    hide BlocksIn, IsBlockStart;
    assert toks == [toks[0]] + (toks[1..e] + ([toks[e]] + toks[e + 1..]));
    EndIsNoBlock(toks[e]);
    BlocksInAppend([toks[0]], toks[1..e] + ([toks[e]] + toks[e + 1..]));
    BlocksInAppend(toks[1..e], [toks[e]] + toks[e + 1..]);
    BlocksInAppend([toks[e]], toks[e + 1..]);
    OneBlock(toks[0]);
    OneBlock(toks[e]);
  }

  // ---- table context ----

  function PopTo(stack: seq<string>, name: string): seq<string> {
    if name !in stack then stack
    else if stack[|stack| - 1] == name then stack[..|stack| - 1]
    else PopTo(stack[..|stack| - 1], name)
  }

  predicate AnyTable(stack: seq<string>) { exists s :: s in stack && s in TABLE }

  function NextStack(stack: seq<string>, t: Tok): seq<string> {
    if t.End? then PopTo(stack, t.name) else if OpensLevel(t) then stack + [t.name] else stack
  }

  function TableFlags(toks: seq<Tok>, stack: seq<string>): (r: seq<bool>)
    ensures |r| == |toks|
  {
    if toks == [] then []
    else [IsElement(toks[0]) && AnyTable(stack)] + TableFlags(toks[1..], NextStack(stack, toks[0]))
  }

  // ---- the code ----

  /** `inTableContext` pops to the nearest open element of the name, if there is one. */
  method Pop(stack: seq<string>, name: string) returns (r: seq<string>)
    ensures r == PopTo(stack, name)
  {
    var j := |stack|;
    assert stack[..j] == stack;
    while j > 0
      invariant 0 <= j <= |stack| && name !in stack[j..]
      invariant name in stack ==> PopTo(stack, name) == PopTo(stack[..j], name) && name in stack[..j]
    {
      assert stack[..j][..j - 1] == stack[..j - 1];
      assert stack[..j] == stack[..j - 1] + [stack[j - 1]] && stack[j - 1..] == [stack[j - 1]] + stack[j..];
      if stack[j - 1] == name { return stack[..j - 1]; }
      j := j - 1;
    }
    return stack;
  }

  method InTableContext(a: array<Cell>) returns (out: seq<bool>)
    ensures out == TableFlags(Toks(a[..]), [])
  {
    hide Emit, TableFlags, AnyTable, PopTo, NextStack;
    ghost var toks := Toks(a[..]);
    out := [];
    var stack: seq<string> := [];
    assert toks[0..] == toks && [] + TableFlags(toks, []) == TableFlags(toks, []);
    for i := 0 to a.Length
      invariant |out| == i && out + TableFlags(toks[i..], stack) == TableFlags(toks, [])
    {
      var t := View(a[i]);
      FlagsNext(toks, i, stack);
      var inTable := false;
      if IsElement(t) { inTable := UnderTable(stack); }
      ghost var rest := TableFlags(toks[i + 1..], NextStack(stack, t));
      assert out + ([inTable] + rest) == (out + [inTable]) + rest;
      out := out + [inTable];
      NextStackIs(stack, t);
      if t.End? {
        stack := Pop(stack, t.name);
      } else if OpensLevel(t) {
        stack := stack + [t.name];
      }
    }
    FlagsEnd(toks, stack);
    assert out + [] == out;
  }

  method UnderTable(stack: seq<string>) returns (inTable: bool)
    ensures inTable <==> AnyTable(stack)
  {
    for j := 0 to |stack|
      invariant forall s :: s in stack[..j] ==> s !in TABLE
    {
      assert stack[..j + 1] == stack[..j] + [stack[j]];
      if stack[j] in TABLE { return true; }
    }
    assert stack[..|stack|] == stack;
    return false;
  }

  lemma FlagsNext(toks: seq<Tok>, i: nat, stack: seq<string>)
    requires i < |toks|
    ensures TableFlags(toks[i..], stack)
         == [IsElement(toks[i]) && AnyTable(stack)] + TableFlags(toks[i + 1..], NextStack(stack, toks[i]))
  {
    assert toks[i..][0] == toks[i] && toks[i..][1..] == toks[i + 1..];
  }

  lemma FlagsEnd(toks: seq<Tok>, stack: seq<string>)
    ensures TableFlags(toks[|toks|..], stack) == []
  {}

  lemma NextStackIs(stack: seq<string>, t: Tok)
    ensures NextStack(stack, t) == if t.End? then PopTo(stack, t.name) else if OpensLevel(t) then stack + [t.name] else stack
  {}

  ghost function Toks(cells: seq<Cell>): (r: seq<Tok>)
    ensures |r| == |cells| && forall i :: 0 <= i < |cells| ==> r[i] == View(cells[i])
  {
    seq(|cells|, i requires 0 <= i < |cells| => View(cells[i]))
  }

  /** Nothing drops a block's tag before its block is lifted. */
  ghost predicate BlockTagsKept(cells: seq<Cell>) {
    forall i :: 0 <= i < |cells| && cells[i].dropped ==> !IsBlockStart(cells[i].tok) && !IsBlockEnd(cells[i].tok)
  }

  /** `matchBlock`: the index of the end tag closing the block at `start`, or -1. */
  method MatchBlock(a: array<Cell>, start: nat, hi: nat) returns (end: int)
    requires start < hi <= a.Length && IsBlockStart(a[start].tok) && BlockTagsKept(a[start..hi])
    ensures end >= 0 ==> start < end < hi && IsBlockEnd(a[end].tok) && !a[end].dropped
    ensures BlockEnd(Toks(a[start..hi])) == if end < 0 then None else Some(end - start)
  {
    ghost var toks := Toks(a[start..hi]);
    assert forall k :: 0 <= k < hi - start ==> a[start..hi][k] == a[start + k] && toks[k] == View(a[start + k]);
    var depth := 0;
    for i := start to hi
      invariant i == start ==> depth == 0
      invariant i > start ==> BlockEnd(toks) == MatchFrom(toks, i - start, depth, a[start].tok.name)
      invariant i > start ==> depth >= 1
    {
      var t := a[i].tok;
      if IsBlockStart(t) {
        depth := depth + 1;
      } else if IsBlockEnd(t) {
        depth := depth - 1;
        if depth == 0 { return if t.name != a[start].tok.name then -1 else i; }
      }
    }
    return -1;
  }

  /** The emitted position of array index `k` in `[lo, ...)`. */
  ghost function Rank(cells: seq<Cell>, lo: nat, k: nat): nat
    requires lo <= k <= |cells|
  {
    |Emit(cells[lo..k])|
  }

  ghost predicate Ranked(cells: seq<Cell>, lo: nat, kids: seq<nat>, ranks: seq<nat>) {
    && |kids| == |ranks|
    && forall j :: 0 <= j < |kids| ==> lo <= kids[j] < |cells| && !cells[kids[j]].dropped && Rank(cells, lo, kids[j]) == ranks[j]
  }

  lemma RankNext(cells: seq<Cell>, lo: nat, i: nat, hi: nat)
    requires lo <= i < hi <= |cells|
    ensures Rank(cells, lo, i + 1) == Rank(cells, lo, i) + |Shown(View(cells[i]))|
    ensures !cells[i].dropped ==> Rank(cells, lo, i) < |Emit(cells[lo..hi])| && Emit(cells[lo..hi])[Rank(cells, lo, i)] == cells[i].tok
    ensures Rank(cells, lo, hi) == |Emit(cells[lo..hi])| && Rank(cells, lo, i) <= Rank(cells, lo, hi)
  {
    assert cells[lo..i + 1] == cells[lo..i] + [cells[i]];
    assert cells[lo..hi] == cells[lo..i] + ([cells[i]] + cells[i + 1..hi]);
    EmitAppend(cells[lo..i], [cells[i]]);
    EmitAppend(cells[lo..i], [cells[i]] + cells[i + 1..hi]);
    EmitAppend([cells[i]], cells[i + 1..hi]);
    EmitOne(cells[i]);
  }

  /** `topLevelChildren`, skipping what was dropped. */
  method TopLevelChildren(a: array<Cell>, lo: nat, hi: nat) returns (kids: seq<nat>, text: bool)
    requires lo <= hi <= a.Length
    ensures var top := TopFrom(Emit(a[lo..hi]), 0, 0);
            Ranked(a[..], lo, kids, top.0) && text == top.1
    ensures forall k :: k in kids ==> lo <= k < hi
  {
    hide Emit, TopFrom, Blank;
    ghost var cells := a[..];
    assert cells[lo..hi] == a[lo..hi];
    ghost var toks := Emit(a[lo..hi]);
    ghost var top := TopFrom(toks, 0, 0);
    kids, text := [], false;
    var depth: nat := 0;
    ghost var ranks: seq<nat> := [];
    RankZero(cells, lo);
    assert [] + top.0 == top.0;
    for i := lo to hi
      invariant Rank(cells, lo, i) <= |toks| && Ranked(cells, lo, kids, ranks)
      invariant forall k :: k in kids ==> lo <= k < hi
      invariant top.0 == ranks + TopFrom(toks, Rank(cells, lo, i), depth).0
      invariant top.1 == (text || TopFrom(toks, Rank(cells, lo, i), depth).1)
    {
      RankNext(cells, lo, i, hi);
      if !a[i].dropped {
        var t := a[i].tok;
        TopNext(toks, Rank(cells, lo, i), depth, ranks);
        match t {
          case Text(s) => if depth == 0 && !Blank(s) { text := true; }
          case End(_) => if depth > 0 { depth := depth - 1; }
          case Other =>
          case Start(_, _) =>
            if depth == 0 { kids, ranks := kids + [i], ranks + [Rank(cells, lo, i)]; }
            if OpensLevel(t) { depth := depth + 1; }
          case SelfClosing(_, _) =>
            if depth == 0 { kids, ranks := kids + [i], ranks + [Rank(cells, lo, i)]; }
        }
      }
    }
    RankWhole(cells, lo, hi);
    TopEnd(toks, depth);
    assert ranks + [] == ranks;
  }

  /** One turn of the scan on the specification's side. */
  lemma TopNext(toks: seq<Tok>, i: nat, depth: nat, ranks: seq<nat>)
    requires i < |toks|
    ensures var t := toks[i];
            var next := if t.End? then (if depth > 0 then depth - 1 else 0)
                        else if OpensLevel(t) then depth + 1 else depth;
            var here, rest := TopFrom(toks, i, depth), TopFrom(toks, i + 1, next);
            && (if IsElement(t) && depth == 0 then ranks + here.0 == (ranks + [i]) + rest.0 else here.0 == rest.0)
            && here.1 == (rest.1 || (t.Text? && depth == 0 && !Blank(t.text)))
  {
    hide Blank;
  }

  lemma TopEnd(toks: seq<Tok>, depth: nat)
    ensures TopFrom(toks, |toks|, depth) == ([], false)
  {}

  lemma RankZero(cells: seq<Cell>, lo: nat)
    requires lo <= |cells|
    ensures Rank(cells, lo, lo) == 0
  {
    assert cells[lo..lo] == [];
  }

  lemma RankWhole(cells: seq<Cell>, lo: nat, hi: nat)
    requires lo <= hi <= |cells|
    ensures Rank(cells, lo, hi) == |Emit(cells[lo..hi])|
  {}

  /** Giving a kept token attributes changes it where it is emitted, and nothing else. */
  lemma EmitUpdate(cells: seq<Cell>, lo: nat, hi: nat, k: nat, t: Token)
    requires lo <= k < hi <= |cells| && !cells[k].dropped
    ensures Rank(cells, lo, k) < |Emit(cells[lo..hi])|
    ensures Emit(cells[k := Cell(t, false)][lo..hi]) == Emit(cells[lo..hi])[Rank(cells, lo, k) := t]
  {
    hide Emit, Rank;
    var after := cells[k := Cell(t, false)];
    var left, right := cells[lo..k], cells[k + 1..hi];
    assert cells[lo..hi] == left + ([cells[k]] + right) && after[lo..hi] == left + ([after[k]] + right);
    EmitAround(left, cells[k], right);
    EmitAround(left, after[k], right);
    RankWhole(cells, lo, k);
    ReplaceMiddle(Emit(left), cells[k].tok, t, Emit(right));
  }

  lemma EmitAround(left: seq<Cell>, c: Cell, right: seq<Cell>)
    requires !c.dropped
    ensures Emit(left + ([c] + right)) == Emit(left) + ([c.tok] + Emit(right))
  {
    hide Emit;
    EmitAppend(left, [c] + right);
    EmitAppend([c], right);
    EmitOne(c);
  }

  lemma ReplaceMiddle<T>(a: seq<T>, x: T, y: T, b: seq<T>)
    ensures |a| < |a + ([x] + b)| && a + ([y] + b) == (a + ([x] + b))[|a| := y]
  {}

  /** A block's two tags around what its body emits. */
  lemma EmitBlock(cells: seq<Cell>, start: nat, end: nat)
    requires start < end < |cells|
    ensures Emit(cells[start..end + 1]) == Emit([cells[start]]) + Emit(cells[start + 1..end]) + Emit([cells[end]])
  {
    assert cells[start..end + 1] == [cells[start]] + cells[start + 1..end] + [cells[end]];
    EmitAppend([cells[start]] + cells[start + 1..end], [cells[end]]);
    EmitAppend([cells[start]], cells[start + 1..end]);
  }

  /** Dropping both tags and replacing one token between them: what is emitted. */
  lemma EmitLifted(was: seq<Cell>, now: seq<Cell>, start: nat, end: nat, k: nat, t: Token)
    requires start < k < end < |was| == |now| && !was[k].dropped
    requires now[start].dropped && now[end].dropped && now[start + 1..end] == was[k := Cell(t, false)][start + 1..end]
    ensures Rank(was, start + 1, k) < |Emit(was[start + 1..end])|
    ensures Emit(now[start..end + 1]) == Emit(was[start + 1..end])[Rank(was, start + 1, k) := t]
  {
    hide Emit, Rank;
    EmitUpdate(was, start + 1, end, k, t);
    EmitBlock(now, start, end);
    EmitOne(now[start]);
    EmitOne(now[end]);
    var body := Emit(now[start + 1..end]);
    assert [] + body + [] == body;
  }

  /** A block that stays is emitted whole. */
  lemma EmitKept(was: seq<Cell>, start: nat, end: nat)
    requires start < end < |was| && !was[start].dropped && !was[end].dropped
    ensures Emit(was[start..end + 1]) == [was[start].tok] + Emit(was[start + 1..end]) + [was[end].tok]
  {
    hide Emit;
    EmitBlock(was, start, end);
    EmitOne(was[start]);
    EmitOne(was[end]);
  }

  /** `liftOnto`. */
  method LiftOnto(a: array<Cell>, start: nat, end: nat, inTable: bool) returns (ok: bool)
    requires start < end < a.Length && IsBlockStart(a[start].tok) && !a[start].dropped && !a[end].dropped
    modifies a
    ensures a[..start] == old(a[..start]) && a[end + 1..] == old(a[end + 1..])
    ensures var body := old(Emit(a[start + 1..end]));
            && ok == CanLift(old(a[start].tok.name), body, inTable)
            && Emit(a[start..end + 1]) == Onto(old(a[start].tok), body, old(a[end].tok), inTable)
  {
    hide Emit, TopFrom, LiftedAttrs, AddAttrs, Blank, Onto, Rank, Toks;
    ghost var was := a[..];
    OntoCases(a[start].tok, Emit(a[start + 1..end]), a[end].tok, inTable);
    assert was[start..end + 1] == a[start..end + 1] && was[start + 1..end] == a[start + 1..end];
    EmitKept(was, start, end);
    var d := a[start].tok;
    if d.name == X_IMPORT && !inTable { return false; }
    var kids, text := TopLevelChildren(a, start + 1, end);
    if |kids| != 1 || text { return false; }
    var k := kids[0];
    assert k in kids;
    RankNext(was, start + 1, k, end);
    if IsBlock(a[k].tok.name) { return false; }
    var t := AddAttrs(a[k].tok, LiftedAttrs(d.name, d.attrs));
    a[k] := Cell(t, false);
    a[start] := Cell(d, true);
    a[end] := Cell(a[end].tok, true);
    ghost var now := a[..];
    assert now[start + 1..end] == was[k := Cell(t, false)][start + 1..end];
    EmitLifted(was, now, start, end, k, t);
    assert now[start..end + 1] == a[start..end + 1];
    assert a[..start] == was[..start] && a[end + 1..] == was[end + 1..];
    return true;
  }

  /** `liftDirectives` on `[lo, hi)`: innermost first, and past each block once it is done. */
  method LiftDirectives(a: array<Cell>, lo: nat, hi: nat, inTable: seq<bool>) returns (lifted: nat)
    requires lo <= hi <= a.Length == |inTable|
    requires BlockTagsKept(a[lo..hi])
    modifies a
    ensures a[..lo] == old(a[..lo]) && a[hi..] == old(a[hi..])
    ensures Emit(a[lo..hi]) == LiftTokens(old(Toks(a[lo..hi])), inTable[lo..hi])
    ensures lifted == LiftCount(old(Toks(a[lo..hi])), inTable[lo..hi])
    decreases hi - lo
  {
    hide Progress, Emit, LiftTokens, LiftCount, BlockEnd, Onto, CanLift, Toks, BlockTagsKept;
    ghost var was := a[..];
    assert was[lo..hi] == a[lo..hi];
    lifted := 0;
    var i := lo;
    LiftStart(was, inTable, lo, hi);
    while i < hi
      invariant lo <= i <= hi && Progress(was, a[..], inTable, lo, hi, i, lifted)
    {
      ghost var before := a[..];
      SameFrom(before, was, inTable, lo, hi, i, lifted);
      KeptWithin(was, lo, hi, i, hi);
      assert before[i..hi] == a[i..hi];
      var end := -1;
      if IsBlockStart(a[i].tok) { end := MatchBlock(a, i, hi); }
      if end < 0 {
        SkipToken(was, before, inTable, lo, hi, i, lifted);
        i := i + 1;
      } else {
        SameBlock(was, before, i, end);
        KeptWithin(was, lo, hi, i + 1, end);
        KeptAt(was, lo, hi, i);
        assert before[i..end + 1] == a[i..end + 1] && before[i + 1..end] == a[i + 1..end];
        assert a[..i] == before[..i] && a[end + 1..] == before[end + 1..];
        var here := LiftBlock(a, i, end, inTable);
        assert a[..][i..end + 1] == a[i..end + 1] && a[..][..i] == a[..i] && a[..][end + 1..] == a[end + 1..];
        PastBlock(was, before, a[..], inTable, lo, hi, i, end, lifted, here);
        lifted := lifted + here;
        i := end + 1;
      }
    }
    LiftEnds(was, a[..], inTable, lo, hi, lifted);
    assert a[..][lo..hi] == a[lo..hi] && a[..][..lo] == a[..lo] && a[..][hi..] == a[hi..];
    assert was[..lo] == old(a[..lo]) && was[hi..] == old(a[hi..]);
  }

  /** How far the loop is: what it emitted so far and what the rest will add make the whole. */
  ghost predicate Progress(was: seq<Cell>, now: seq<Cell>, inTable: seq<bool>, lo: nat, hi: nat, i: nat, lifted: nat) {
    && lo <= i <= hi <= |was| == |now| == |inTable| && now[..lo] == was[..lo] && now[i..] == was[i..]
    && var toks, flags := Toks(was[lo..hi]), inTable[lo..hi];
       && Emit(now[lo..i]) + LiftTokens(toks[i - lo..], flags[i - lo..]) == LiftTokens(toks, flags)
       && lifted + LiftCount(toks[i - lo..], flags[i - lo..]) == LiftCount(toks, flags)
  }

  lemma KeptWithin(cells: seq<Cell>, lo: nat, hi: nat, c: nat, d: nat)
    requires lo <= c <= d <= hi <= |cells| && BlockTagsKept(cells[lo..hi])
    ensures BlockTagsKept(cells[c..d])
  {
    forall i | 0 <= i < d - c && cells[c..d][i].dropped
      ensures !IsBlockStart(cells[c..d][i].tok) && !IsBlockEnd(cells[c..d][i].tok)
    {
      assert cells[c..d][i] == cells[lo..hi][c - lo + i];
    }
  }

  lemma KeptAt(cells: seq<Cell>, lo: nat, hi: nat, i: nat)
    requires lo <= i < hi <= |cells| && BlockTagsKept(cells[lo..hi])
    ensures IsBlockStart(cells[i].tok) ==> !cells[i].dropped
  {
    assert cells[i] == cells[lo..hi][i - lo];
  }

  lemma LiftStart(was: seq<Cell>, inTable: seq<bool>, lo: nat, hi: nat)
    requires lo <= hi <= |was| == |inTable|
    ensures Progress(was, was, inTable, lo, hi, lo, 0)
  {
    hide LiftTokens, LiftCount;
    var toks, flags := Toks(was[lo..hi]), inTable[lo..hi];
    assert toks[0..] == toks && flags[0..] == flags && was[lo..lo] == [];
    assert [] + LiftTokens(toks, flags) == LiftTokens(toks, flags);
  }

  lemma LiftEnds(was: seq<Cell>, now: seq<Cell>, inTable: seq<bool>, lo: nat, hi: nat, lifted: nat)
    requires Progress(was, now, inTable, lo, hi, hi, lifted)
    ensures now[..lo] == was[..lo] && now[hi..] == was[hi..]
    ensures Emit(now[lo..hi]) == LiftTokens(Toks(was[lo..hi]), inTable[lo..hi])
    ensures lifted == LiftCount(Toks(was[lo..hi]), inTable[lo..hi])
  {
    hide Emit;
    var toks, flags := Toks(was[lo..hi]), inTable[lo..hi];
    assert toks[hi - lo..] == [] && flags[hi - lo..] == [];
    assert Emit(now[lo..hi]) + [] == Emit(now[lo..hi]);
  }

  lemma SameFrom(now: seq<Cell>, was: seq<Cell>, inTable: seq<bool>, lo: nat, hi: nat, i: nat, lifted: nat)
    requires Progress(was, now, inTable, lo, hi, i, lifted) && i < hi
    ensures |now| == |was| == |inTable| && hi <= |was|
    ensures now[i] == was[i] && now[i..hi] == was[i..hi] && now[i..] == was[i..]
    ensures forall k :: i <= k < hi ==> now[k] == was[k]
  {
    hide Emit, LiftTokens, LiftCount;
    assert forall k :: i <= k < |was| ==> now[k] == now[i..][k - i] && was[k] == was[i..][k - i];
  }

  lemma SkipToken(was: seq<Cell>, now: seq<Cell>, inTable: seq<bool>, lo: nat, hi: nat, i: nat, lifted: nat)
    requires Progress(was, now, inTable, lo, hi, i, lifted) && i < hi && BlockTagsKept(was[lo..hi])
    requires IsBlockStart(was[i].tok) ==> BlockEnd(Toks(was[i..hi])).None?
    ensures Progress(was, now, inTable, lo, hi, i + 1, lifted)
  {
    hide Emit, LiftTokens, LiftCount, BlockEnd, Toks;
    SameFrom(now, was, inTable, lo, hi, i, lifted);
    KeptAt(was, lo, hi, i);
    LiftUnfolds(was, lo, hi, i, Toks(was[lo..hi]), inTable[lo..hi], None);
    EmitNext(now, lo, i);
    Reassociate(Emit(now[lo..i]), Shown(View(now[i])), LiftTokens(Toks(was[lo..hi])[i + 1 - lo..], inTable[lo..hi][i + 1 - lo..]));
    assert now[i + 1..] == now[i..][1..] && was[i + 1..] == was[i..][1..];
  }

  lemma PastBlock(was: seq<Cell>, before: seq<Cell>, now: seq<Cell>, inTable: seq<bool>, lo: nat, hi: nat, i: nat, end: nat,
                  lifted: nat, here: nat)
    requires Progress(was, before, inTable, lo, hi, i, lifted) && i < end < hi && |now| == |was|
    requires IsBlockStart(was[i].tok) && !was[i].dropped && !was[end].dropped && BlockEnd(Toks(was[i..hi])) == Some(end - i)
    requires now[..i] == before[..i] && now[end + 1..] == before[end + 1..]
    requires var body := LiftTokens(Toks(was[i + 1..end]), inTable[i + 1..end]);
             && Emit(now[i..end + 1]) == Onto(was[i].tok, body, was[end].tok, inTable[i])
             && here == LiftCount(Toks(was[i + 1..end]), inTable[i + 1..end])
                        + if CanLift(was[i].tok.name, body, inTable[i]) then 1 else 0
    ensures Progress(was, now, inTable, lo, hi, end + 1, lifted + here)
  {
    hide Emit, LiftTokens, LiftCount, BlockEnd, Toks, Onto, CanLift;
    var toks, flags := Toks(was[lo..hi]), inTable[lo..hi];
    LiftUnfolds(was, lo, hi, i, toks, flags, Some(end - i));
    SliceOfSlice(inTable, lo, hi, i + 1 - lo, end - lo);
    assert flags[i - lo] == inTable[i];
    EmitJoin(now, before, lo, i, end);
    Reassociate(Emit(before[lo..i]), Emit(now[i..end + 1]), LiftTokens(toks[end + 1 - lo..], flags[end + 1 - lo..]));
    AfterBlock(was, now, before, lo, i, end);
  }

  /** One block: its own blocks first, then itself. */
  method LiftBlock(a: array<Cell>, start: nat, end: nat, inTable: seq<bool>) returns (lifted: nat)
    requires start < end < a.Length == |inTable| && IsBlockStart(a[start].tok)
    requires !a[start].dropped && !a[end].dropped && BlockTagsKept(a[start + 1..end])
    modifies a
    ensures a[..start] == old(a[..start]) && a[end + 1..] == old(a[end + 1..])
    ensures var body := LiftTokens(old(Toks(a[start + 1..end])), inTable[start + 1..end]);
            && Emit(a[start..end + 1]) == Onto(old(a[start].tok), body, old(a[end].tok), inTable[start])
            && lifted == LiftCount(old(Toks(a[start + 1..end])), inTable[start + 1..end])
                         + if CanLift(old(a[start].tok.name), body, inTable[start]) then 1 else 0
    decreases end - start
  {
    hide Emit, LiftTokens, LiftCount, Onto, CanLift, Toks, BlockTagsKept;
    ghost var was := a[..];
    lifted := LiftDirectives(a, start + 1, end, inTable);
    ghost var now := a[..];
    SameEnds(was, now, start, end);
    assert a[..start] == now[..start] && a[end + 1..] == now[end + 1..];
    var ok := LiftOnto(a, start, end, inTable[start]);
    if ok { lifted := lifted + 1; }
  }

  lemma SameEnds(was: seq<Cell>, now: seq<Cell>, start: nat, end: nat)
    requires start < end < |was| == |now| && now[..start + 1] == was[..start + 1] && now[end..] == was[end..]
    ensures now[start] == was[start] && now[end] == was[end] && now[..start] == was[..start] && now[end + 1..] == was[end + 1..]
  {
    assert now[start] == now[..start + 1][start] && was[start] == was[..start + 1][start];
    assert now[end] == now[end..][0] && was[end] == was[end..][0];
    assert now[..start] == now[..start + 1][..start] && was[..start] == was[..start + 1][..start];
    assert now[end + 1..] == now[end..][1..] && was[end + 1..] == was[end..][1..];
  }

  lemma SameBlock(was: seq<Cell>, before: seq<Cell>, i: nat, end: nat)
    requires i < end < |was| == |before| && before[i..] == was[i..]
    ensures before[i] == was[i] && before[end] == was[end] && before[i + 1..end] == was[i + 1..end]
  {
    assert before[i] == before[i..][0] && was[i] == was[i..][0];
    assert before[end] == before[i..][end - i] && was[end] == was[i..][end - i];
    SuffixSlice(before, i, 1, end - i);
    SuffixSlice(was, i, 1, end - i);
  }

  lemma SuffixSlice<T>(s: seq<T>, i: nat, c: nat, d: nat)
    requires i <= |s| && c <= d <= |s| - i
    ensures s[i..][c..d] == s[i + c..i + d]
  {
    assert forall k :: 0 <= k < |s| - i ==> s[i..][k] == s[i + k];
  }

  lemma AfterBlock(was: seq<Cell>, now: seq<Cell>, before: seq<Cell>, lo: nat, i: nat, end: nat)
    requires lo <= i < end < |was| == |now| == |before| && before[i..] == was[i..] && before[..lo] == was[..lo]
    requires now[..i] == before[..i] && now[end + 1..] == before[end + 1..]
    ensures now[..lo] == was[..lo] && now[end + 1..] == was[end + 1..]
  {
    assert now[..lo] == now[..i][..lo] && before[..lo] == before[..i][..lo];
    assert before[end + 1..] == before[i..][end + 1 - i..] && was[end + 1..] == was[i..][end + 1 - i..];
  }

  lemma Reassociate<T>(a: seq<T>, b: seq<T>, c: seq<T>)
    ensures a + (b + c) == (a + b) + c
  {}

  lemma SliceOfSlice<T>(s: seq<T>, lo: nat, hi: nat, c: nat, d: nat)
    requires lo <= hi <= |s| && c <= d <= hi - lo
    ensures s[lo..hi][c..d] == s[lo + c..lo + d]
  {
    assert forall k :: 0 <= k < hi - lo ==> s[lo..hi][k] == s[lo + k];
  }

  lemma ToksSlice(cells: seq<Cell>, a: nat, b: nat, c: nat, d: nat)
    requires a <= b <= |cells| && c <= d <= b - a
    ensures Toks(cells[a..b])[c..d] == Toks(cells[a + c..a + d])
  {
    assert forall k :: 0 <= k < b - a ==> cells[a..b][k] == cells[a + k];
  }

  /** One turn of the loop on the specification's side. */
  lemma LiftUnfolds(was: seq<Cell>, lo: nat, hi: nat, i: nat, toks: seq<Tok>, flags: seq<bool>, e: Option<nat>)
    requires lo <= i < hi <= |was| && toks == Toks(was[lo..hi]) && |flags| == |toks|
    requires e == if IsBlockStart(was[i].tok) then BlockEnd(Toks(was[i..hi])) else None
    requires IsBlockStart(was[i].tok) ==> !was[i].dropped
    ensures var j := i - lo;
            && toks[j] == View(was[i])
            && (e.None? ==> LiftTokens(toks[j..], flags[j..]) == Shown(toks[j]) + LiftTokens(toks[j + 1..], flags[j + 1..])
                            && LiftCount(toks[j..], flags[j..]) == LiftCount(toks[j + 1..], flags[j + 1..]))
            && (e.Some? ==>
                  var end := j + e.value;
                  && end < |toks| && Toks(was[i + 1..i + e.value]) == toks[j + 1..end] && toks[end] == View(was[i + e.value])
                  && IsBlockStart(toks[j])
                  && LiftTokens(toks[j..], flags[j..])
                     == Onto(toks[j], LiftTokens(toks[j + 1..end], flags[j + 1..end]), toks[end], flags[j])
                        + LiftTokens(toks[end + 1..], flags[end + 1..])
                  && LiftCount(toks[j..], flags[j..])
                     == LiftCount(toks[j + 1..end], flags[j + 1..end])
                        + (if CanLift(toks[j].name, LiftTokens(toks[j + 1..end], flags[j + 1..end]), flags[j]) then 1 else 0)
                        + LiftCount(toks[end + 1..], flags[end + 1..]))
  {
    hide LiftTokens, LiftCount, Onto, CanLift, BlockEnd, Toks;
    var j := i - lo;
    ToksSlice(was, lo, hi, j, hi - lo);
    assert toks[j..hi - lo] == toks[j..];
    TokAt(was, lo, hi, j);
    BlockEndIs(toks[j..]);
    UnfoldAt(toks, flags, j);
    if e.Some? {
      var end := j + e.value;
      TokAt(was, lo, hi, end);
      ToksSlice(was, lo, hi, j + 1, end);
    }
  }

  lemma TokAt(cells: seq<Cell>, a: nat, b: nat, c: nat)
    requires a <= b <= |cells| && c < b - a
    ensures Toks(cells[a..b])[c] == View(cells[a + c])
  {}

  lemma BlockEndIs(toks: seq<Tok>)
    requires toks != []
    ensures !IsBlockStart(toks[0]) ==> BlockEnd(toks).None?
    ensures BlockEnd(toks).Some? ==> 0 < BlockEnd(toks).value < |toks| && IsBlockStart(toks[0])
  {}

  lemma UnfoldAt(toks: seq<Tok>, flags: seq<bool>, j: nat)
    requires j < |toks| == |flags|
    ensures var e := BlockEnd(toks[j..]);
            && (e.None? ==> LiftTokens(toks[j..], flags[j..]) == Shown(toks[j]) + LiftTokens(toks[j + 1..], flags[j + 1..])
                            && LiftCount(toks[j..], flags[j..]) == LiftCount(toks[j + 1..], flags[j + 1..]))
            && (e.Some? ==>
                  var end := j + e.value;
                  && end < |toks| && IsBlockStart(toks[j])
                  && LiftTokens(toks[j..], flags[j..])
                     == Onto(toks[j], LiftTokens(toks[j + 1..end], flags[j + 1..end]), toks[end], flags[j])
                        + LiftTokens(toks[end + 1..], flags[end + 1..])
                  && LiftCount(toks[j..], flags[j..])
                     == LiftCount(toks[j + 1..end], flags[j + 1..end])
                        + (if CanLift(toks[j].name, LiftTokens(toks[j + 1..end], flags[j + 1..end]), flags[j]) then 1 else 0)
                        + LiftCount(toks[end + 1..], flags[end + 1..]))
  {
    hide Onto, CanLift, BlockEnd, IsBlockStart, Shown, LiftTokens, LiftCount;
    var rest, marks := toks[j..], flags[j..];
    BlockEndIs(rest);
    assert rest[1..] == toks[j + 1..] && marks[1..] == flags[j + 1..] && rest[0] == toks[j] && marks[0] == flags[j];
    if BlockEnd(rest).Some? {
      var e := BlockEnd(rest).value;
      assert rest[1..e] == toks[j + 1..j + e] && marks[1..e] == flags[j + 1..j + e];
      assert rest[e + 1..] == toks[j + e + 1..] && marks[e + 1..] == flags[j + e + 1..];
      UnfoldBlock(rest, marks, e);
    } else {
      UnfoldToken(rest, marks);
    }
  }

  lemma UnfoldToken(toks: seq<Tok>, flags: seq<bool>)
    requires toks != [] && |toks| == |flags| && BlockEnd(toks).None?
    ensures LiftTokens(toks, flags) == Shown(toks[0]) + LiftTokens(toks[1..], flags[1..])
    ensures LiftCount(toks, flags) == LiftCount(toks[1..], flags[1..])
  {
    hide BlockEnd, Shown;
  }

  lemma UnfoldBlock(toks: seq<Tok>, flags: seq<bool>, e: nat)
    requires toks != [] && |toks| == |flags| && BlockEnd(toks) == Some(e) && IsBlockStart(toks[0]) && 0 < e < |toks|
    ensures LiftTokens(toks, flags)
         == Onto(toks[0], LiftTokens(toks[1..e], flags[1..e]), toks[e], flags[0]) + LiftTokens(toks[e + 1..], flags[e + 1..])
    ensures LiftCount(toks, flags)
         == LiftCount(toks[1..e], flags[1..e])
            + (if CanLift(toks[0].name, LiftTokens(toks[1..e], flags[1..e]), flags[0]) then 1 else 0)
            + LiftCount(toks[e + 1..], flags[e + 1..])
  {
    hide BlockEnd, Onto, CanLift;
  }

  lemma EmitNext(cells: seq<Cell>, lo: nat, i: nat)
    requires lo <= i < |cells|
    ensures Emit(cells[lo..i + 1]) == Emit(cells[lo..i]) + Shown(View(cells[i]))
  {
    assert cells[lo..i + 1] == cells[lo..i] + [cells[i]];
    EmitAppend(cells[lo..i], [cells[i]]);
    EmitOne(cells[i]);
  }

  lemma EmitJoin(now: seq<Cell>, before: seq<Cell>, lo: nat, i: nat, end: nat)
    requires lo <= i < end < |now| == |before| && now[..i] == before[..i]
    ensures Emit(now[lo..end + 1]) == Emit(before[lo..i]) + Emit(now[i..end + 1])
  {
    assert now[lo..i] == now[..i][lo..] && before[lo..i] == before[..i][lo..];
    assert now[lo..end + 1] == now[lo..i] + now[i..end + 1];
    EmitAppend(now[lo..i], now[i..end + 1]);
  }

  /** `assertNoDirectiveInTable`: no directive that is still there may open inside a table. */
  method AssertNoDirectiveInTable(a: array<Cell>) returns (ok: bool)
    ensures ok <==> NoDirectiveInTable(Toks(a[..]))
  {
    var flags := InTableContext(a);
    for i := 0 to a.Length
      invariant forall j :: 0 <= j < i ==> !(View(a[j]).Start? && IsDirective(View(a[j]).name) && flags[j])
    {
      var t := View(a[i]);
      if t.Start? && IsDirective(t.name) && flags[i] {
        assert Toks(a[..])[i] == t;
        return false;
      }
    }
    return true;
  }

  ghost predicate NoDirectiveInTable(toks: seq<Tok>) {
    forall j :: 0 <= j < |toks| ==> !(toks[j].Start? && IsDirective(toks[j].name) && TableFlags(toks, [])[j])
  }
}
