/** Which batches the commit-time rules let through, and what they say of the others. */
module Acceptance {
  import opened Wrappers
  import opened Int64
  import opened Ordering
  import opened Rows
  import opened Queries
  import opened Proposals
  import opened Invariants

  // ---- one declared rule ----

  /** A move of the batch that a rule of scope `only` looks at; the empty scope is every kind. */
  ghost predicate Looked(p: BatchProposal, only: string, m: Move) {
    m in ProposalMoves(p.entries) && (only == "" || m.key.kind == only)
  }

  ghost predicate Touched(p: BatchProposal, only: string) {
    only == "" || exists e :: e in p.entries && e.kind == only
  }

  /** The moves of the kind cancel, and no running total leaves 64 bits. */
  ghost predicate Cancels(p: BatchProposal, kind: string) {
    var xs := KindAmounts(ProposalMoves(p.entries), kind);
    PrefixesFit(xs) && Sum(xs) == 0
  }

  ghost predicate IsSystem(db: Db, account: string) { account in db.accounts && db.accounts[account] == System }

  /** What a floor asks of one account and kind: nothing of a system account, and otherwise a deduction stops there. */
  ghost predicate MayMove(db: Db, pool: string, head: int, k: SnapKey, delta: int, floor: int) {
    var balance := Balance(db.entries, pool, k, head);
    IsSystem(db, k.account)
    || (InRange(balance) && InRange(balance + delta) && (delta < 0 ==> balance + delta >= floor))
  }

  ghost predicate KeepsFloor(db: Db, pool: string, head: int, p: BatchProposal, only: string, floor: int) {
    var ms := ProposalMoves(p.entries);
    forall m :: Looked(p, only, m) ==> PrefixesFit(Amounts(ms, m.key)) && MayMove(db, pool, head, m.key, Net(ms, m.key), floor)
  }

  /** What each declared rule accepts; the kinds nothing checks accept no batch. */
  ghost predicate Accepts(db: Db, pool: string, head: int, p: BatchProposal, inv: Invariant) {
    Touched(p, inv.balanceKind) &&
    match inv.kind
    case SumZero => forall m :: Looked(p, inv.balanceKind, m) ==> Cancels(p, m.key.kind)
    case LargestRemainderSumsToDebit => forall m :: Looked(p, inv.balanceKind, m) ==> Cancels(p, m.key.kind)
    case NonNegative => inv.floor.Some? && KeepsFloor(db, pool, head, p, inv.balanceKind, inv.floor.value)
    case _ => false
  }

  lemma KeyIs(db: Db, pool: string, head: int, floor: int, k: SnapKey, delta: int)
    ensures KeyVerdict(db, pool, head, floor, k, delta).None? <==> MayMove(db, pool, head, k, delta, floor)
    ensures KeyVerdict(db, pool, head, floor, k, delta).Some? ==>
      KeyVerdict(db, pool, head, floor, k, delta).value ==
        if InRange(Balance(db.entries, pool, k, head)) then Violation(Declared(NonNegative)) else StoreFailure
  {}

  lemma {:induction false} KeysAre(db: Db, pool: string, head: int, floor: int, ms: seq<Move>, keys: seq<SnapKey>)
    ensures KeysVerdict(db, pool, head, floor, ms, keys).None? <==>
      forall k :: k in keys ==> MayMove(db, pool, head, k, Net(ms, k), floor)
    ensures var v := KeysVerdict(db, pool, head, floor, ms, keys);
      v.Some? ==> v.value == Violation(Declared(NonNegative))
                  || (v.value == StoreFailure && exists k :: k in keys && Unreadable(db, pool, head, k))
  {
    hide KeyVerdict, MayMove, Net, Balance;
    if keys != [] {
      assert keys == [keys[0]] + keys[1..];
      KeyIs(db, pool, head, floor, keys[0], Net(ms, keys[0]));
      KeysAre(db, pool, head, floor, ms, keys[1..]);
      assert keys[0] in keys && forall k :: k in keys[1..] ==> k in keys;
      if KeyVerdict(db, pool, head, floor, keys[0], Net(ms, keys[0])) == Some(StoreFailure) {
        assert Unreadable(db, pool, head, keys[0]);
      }
    }
  }

  /** A balance that is out of range: reading it fails. */
  ghost predicate Unreadable(db: Db, pool: string, head: int, k: SnapKey) { !InRange(Balance(db.entries, pool, k, head)) }

  lemma FloorIs(db: Db, pool: string, head: int, p: BatchProposal, inv: Invariant)
    requires inv.kind == NonNegative
    ensures var v := FloorVerdict(db, pool, head, ProposalMoves(p.entries), inv);
      && (v.None? <==> inv.floor.Some? && KeepsFloor(db, pool, head, p, inv.balanceKind, inv.floor.value))
      && (v.Some? ==> v.value == Violation(Declared(NonNegative))
                      || (v.value == StoreFailure && exists m :: Looked(p, inv.balanceKind, m) && Unreadable(db, pool, head, m.key)))
  {
    hide KeysVerdict, KeySeq, MayMove, Net, Unreadable, PrefixesFit, Group;
    if inv.floor.Some? {
      var ms := ProposalMoves(p.entries);
      var keys := ScopeKeys(ms, inv.balanceKind);
      KeySeqMembers(keys);
      KeysAre(db, pool, head, inv.floor.value, ms, KeySeq(keys));
      forall k ensures k in keys <==> exists m :: Looked(p, inv.balanceKind, m) && m.key == k {}
    }
  }

  /** A declared rule lets a batch through exactly when it accepts it, and otherwise it is what is named. */
  lemma DeclaredIs(db: Db, pool: string, head: int, p: BatchProposal, inv: Invariant)
    ensures var v := DeclaredVerdict(db, pool, head, p, inv);
      && (v.None? <==> Accepts(db, pool, head, p, inv))
      && (v.Some? ==> v.value == Violation(Declared(inv.kind))
                      || (v.value == StoreFailure && inv.kind == NonNegative
                          && exists m :: Looked(p, inv.balanceKind, m) && Unreadable(db, pool, head, m.key)))
  {
    hide FloorVerdict, KeepsFloor, PrefixesFit, Group, Sum, Unreadable;
    if inv.kind == NonNegative { FloorIs(db, pool, head, p, inv); }
    var ms := ProposalMoves(p.entries);
    forall m ensures Looked(p, inv.balanceKind, m) <==> m in ms && InScope(m.key.kind, inv.balanceKind) {}
  }

  // ---- all the rules ----

  /** The rules no strategy may waive, in the order in which a broken one is reported. */
  const UNIVERSAL: seq<Rule> :=
    [BatchNonEmpty, AmountsNonZero, NoAmountOverflow, SeqMonotonic, ReversalLinkage, EntriesReferenceLiveAccounts]

  /** A reversal, and only a reversal, names a batch, and that batch is in the pool. */
  ghost predicate Linked(db: Db, pool: string, p: BatchProposal) {
    && (p.kind == "reversal" <==> p.reverses.Some?)
    && (p.reverses.Some? ==> exists b :: b in db.batches && b.head.id == p.reverses.value && b.head.pool == pool)
  }

  ghost predicate Holds(db: Db, pool: string, seqNo: int, head: int, p: BatchProposal, rule: Rule) {
    match rule
    case BatchNonEmpty => |p.entries| > 0
    case AmountsNonZero => forall e :: e in p.entries ==> e.amount != 0
    case NoAmountOverflow => PrefixesFit(AllAmounts(ProposalMoves(p.entries)))
    case SeqMonotonic => seqNo == head + 1
    case ReversalLinkage => Linked(db, pool, p)
    case EntriesReferenceLiveAccounts => forall e :: e in p.entries ==> e.account in db.accounts
    case Declared(_) => true
  }

  function IdOf(b: BatchRow): string { b.head.id }

  lemma {:induction false} FindIs(bs: seq<BatchRow>, id: string)
    ensures FindBatch(bs, id).Some? <==> exists b :: b in bs && b.head.id == id
    ensures FindBatch(bs, id).Some? ==> FindBatch(bs, id).value in bs && FindBatch(bs, id).value.head.id == id
  {
    if bs != [] {
      var n := |bs| - 1;
      assert bs == bs[..n] + [bs[n]];
      FindIs(bs[..n], id);
    }
  }

  lemma LinkageIs(db: Db, pool: string, p: BatchProposal)
    requires DistinctBy(IdOf, db.batches)
    ensures LinkageVerdict(db, pool, p) == if Linked(db, pool, p) then None else Some(Violation(ReversalLinkage))
  {
    if p.reverses.Some? {
      FindIs(db.batches, p.reverses.value);
      if b :| b in db.batches && b.head.id == p.reverses.value && b.head.pool == pool {
        var found := FindBatch(db.batches, p.reverses.value).value;
        var i :| 0 <= i < |db.batches| && db.batches[i] == b;
        var j :| 0 <= j < |db.batches| && db.batches[j] == found;
        assert IdOf(db.batches[i]) == IdOf(db.batches[j]);
      }
    }
  }

  ghost predicate FirstBroken(db: Db, pool: string, seqNo: int, head: int, p: BatchProposal, i: nat) {
    && i < |UNIVERSAL| && !Holds(db, pool, seqNo, head, p, UNIVERSAL[i])
    && forall j :: 0 <= j < i ==> Holds(db, pool, seqNo, head, p, UNIVERSAL[j])
  }

  lemma UniversalIs(db: Db, pool: string, seqNo: int, head: int, p: BatchProposal)
    requires DistinctBy(IdOf, db.batches)
    ensures var v := UniversalVerdict(db, pool, seqNo, head, p);
      && (v.None? <==> forall rule :: rule in UNIVERSAL ==> Holds(db, pool, seqNo, head, p, rule))
      && forall i: nat :: FirstBroken(db, pool, seqNo, head, p, i) ==> v == Some(Violation(UNIVERSAL[i]))
  {
    hide LinkageVerdict, Linked, PrefixesFit;
    LinkageIs(db, pool, p);
    EachUniversal(db, pool, seqNo, head, p);
    var v := UniversalVerdict(db, pool, seqNo, head, p);
    forall i: nat | FirstBroken(db, pool, seqNo, head, p, i) ensures v == Some(Violation(UNIVERSAL[i])) {
      BrokenAt(db, pool, seqNo, head, p, i);
    }
  }

  lemma EachUniversal(db: Db, pool: string, seqNo: int, head: int, p: BatchProposal)
    ensures (forall rule :: rule in UNIVERSAL ==> Holds(db, pool, seqNo, head, p, rule)) <==>
      && Holds(db, pool, seqNo, head, p, BatchNonEmpty) && Holds(db, pool, seqNo, head, p, AmountsNonZero)
      && Holds(db, pool, seqNo, head, p, NoAmountOverflow) && Holds(db, pool, seqNo, head, p, SeqMonotonic)
      && Holds(db, pool, seqNo, head, p, ReversalLinkage) && Holds(db, pool, seqNo, head, p, EntriesReferenceLiveAccounts)
  {
    hide Holds;
  }

  lemma BrokenAt(db: Db, pool: string, seqNo: int, head: int, p: BatchProposal, i: nat)
    requires FirstBroken(db, pool, seqNo, head, p, i)
    ensures !Holds(db, pool, seqNo, head, p, UNIVERSAL[i])
    ensures i > 0 ==> Holds(db, pool, seqNo, head, p, BatchNonEmpty)
    ensures i > 1 ==> Holds(db, pool, seqNo, head, p, AmountsNonZero)
    ensures i > 2 ==> Holds(db, pool, seqNo, head, p, NoAmountOverflow)
    ensures i > 3 ==> Holds(db, pool, seqNo, head, p, SeqMonotonic)
    ensures i > 4 ==> Holds(db, pool, seqNo, head, p, ReversalLinkage)
  {
    hide Holds;
    assert UNIVERSAL[0] == BatchNonEmpty && UNIVERSAL[1] == AmountsNonZero && UNIVERSAL[2] == NoAmountOverflow;
    assert UNIVERSAL[3] == SeqMonotonic && UNIVERSAL[4] == ReversalLinkage;
  }

  ghost predicate FirstRefused(db: Db, pool: string, head: int, p: BatchProposal, i: nat) {
    && i < |p.invariants| && !Accepts(db, pool, head, p, p.invariants[i])
    && forall j :: 0 <= j < i ==> Accepts(db, pool, head, p, p.invariants[j])
  }

  /**
   * A batch is let through exactly when every universal rule holds and every declared one accepts it.
   * Otherwise the error is the first universal rule that is broken; with none broken, the first
   * declared rule that does not accept the batch, unless a balance it needs cannot be read.
   */
  lemma VerdictIs(db: Db, pool: string, seqNo: int, head: int, p: BatchProposal)
    requires DistinctBy(IdOf, db.batches)
    ensures var v := Verdict(db, pool, seqNo, head, p);
            var sound := forall rule :: rule in UNIVERSAL ==> Holds(db, pool, seqNo, head, p, rule);
      && (v.None? <==> sound && forall inv :: inv in p.invariants ==> Accepts(db, pool, head, p, inv))
      && (forall i: nat :: FirstBroken(db, pool, seqNo, head, p, i) ==> v == Some(Violation(UNIVERSAL[i])))
      && (forall i: nat :: sound && FirstRefused(db, pool, head, p, i) ==>
            || v == Some(Violation(Declared(p.invariants[i].kind)))
            || (v == Some(StoreFailure) && exists m :: m in ProposalMoves(p.entries) && Unreadable(db, pool, head, m.key)))
  {
    hide UniversalVerdict, Holds, Accepts, DeclaredVerdict, Unreadable;
    UniversalIs(db, pool, seqNo, head, p);
    AllDeclaredAre(db, pool, head, p, p.invariants);
    BrokenIsUnsound(db, pool, seqNo, head, p);
  }

  lemma BrokenIsUnsound(db: Db, pool: string, seqNo: int, head: int, p: BatchProposal)
    ensures forall i: nat :: FirstBroken(db, pool, seqNo, head, p, i) ==> UNIVERSAL[i] in UNIVERSAL && !Holds(db, pool, seqNo, head, p, UNIVERSAL[i])
  {
    hide Holds;
  }

  lemma {:induction false} AllDeclaredAre(db: Db, pool: string, head: int, p: BatchProposal, invs: seq<Invariant>)
    ensures AllDeclared(db, pool, head, p, invs).None? <==> forall inv :: inv in invs ==> Accepts(db, pool, head, p, inv)
    ensures forall i :: 0 <= i < |invs| && !Accepts(db, pool, head, p, invs[i]) && (forall j :: 0 <= j < i ==> Accepts(db, pool, head, p, invs[j])) ==>
      var v := AllDeclared(db, pool, head, p, invs);
      || v == Some(Violation(Declared(invs[i].kind)))
      || (v == Some(StoreFailure) && exists m :: m in ProposalMoves(p.entries) && Unreadable(db, pool, head, m.key))
  {
    hide DeclaredVerdict, Accepts, Unreadable;
    if invs != [] {
      assert invs == [invs[0]] + invs[1..];
      DeclaredIs(db, pool, head, p, invs[0]);
      AllDeclaredAre(db, pool, head, p, invs[1..]);
      forall i | 0 < i < |invs| ensures invs[i] == invs[1..][i - 1] {}
    }
  }
}
