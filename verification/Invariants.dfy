/** The commit-time rules (internal/ledger/invariant.go): what they decide, and the code that decides. */
module Invariants {
  import opened Wrappers
  import opened Int64
  import opened Ordering
  import opened Rows
  import opened Queries
  import opened Proposals

  // ---- what the rules say ----

  /** A reversal, and only a reversal, names a batch of its own pool. */
  function LinkageVerdict(db: Db, pool: string, p: BatchProposal): Option<CommitError> {
    if p.kind == KIND_REVERSAL then
      if p.reverses.None? then Some(Violation(ReversalLinkage))
      else
        var target := FindBatch(db.batches, p.reverses.value);
        if target.None? || target.value.head.pool != pool then Some(Violation(ReversalLinkage)) else None
    else if p.reverses.Some? then Some(Violation(ReversalLinkage))
    else None
  }

  ghost predicate AccountsLive(db: Db, p: BatchProposal) {
    forall e :: e in p.entries ==> e.account in db.accounts
  }

  ghost function UniversalVerdict(db: Db, pool: string, seqNo: int, head: int, p: BatchProposal): Option<CommitError> {
    if p.entries == [] then Some(Violation(BatchNonEmpty))
    else if exists e :: e in p.entries && e.amount == 0 then Some(Violation(AmountsNonZero))
    else if !PrefixesFit(AllAmounts(ProposalMoves(p.entries))) then Some(Violation(NoAmountOverflow))
    else if seqNo != head + 1 then Some(Violation(SeqMonotonic))
    else if LinkageVerdict(db, pool, p).Some? then LinkageVerdict(db, pool, p)
    else if !AccountsLive(db, p) then Some(Violation(EntriesReferenceLiveAccounts))
    else None
  }

  predicate InScope(kind: string, only: string) { only == "" || kind == only }

  /** Every kind in scope sums to zero, without a running total leaving 64 bits. */
  ghost predicate SumsToZero(ms: seq<Move>, only: string) {
    forall m :: m in ms && InScope(m.key.kind, only) ==>
      PrefixesFit(KindAmounts(ms, m.key.kind)) && Sum(KindAmounts(ms, m.key.kind)) == 0
  }

  ghost function ScopeKeys(ms: seq<Move>, only: string): set<SnapKey> {
    set m | m in ms && InScope(m.key.kind, only) :: m.key
  }

  /** A floor constrains a deduction from a person's account, at the head the batch builds on. */
  function KeyVerdict(db: Db, pool: string, head: int, floor: int, k: SnapKey, delta: int): Option<CommitError> {
    if k.account in db.accounts && db.accounts[k.account] == System then None
    else
      var current := Balance(db.entries, pool, k, head);
      if !InRange(current) then Some(StoreFailure)
      else if !InRange(current + delta) then Some(Violation(Declared(NonNegative)))
      else if delta < 0 && current + delta < floor then Some(Violation(Declared(NonNegative)))
      else None
  }

  ghost function KeysVerdict(db: Db, pool: string, head: int, floor: int, ms: seq<Move>, keys: seq<SnapKey>): Option<CommitError> {
    if keys == [] then None
    else
      var first := KeyVerdict(db, pool, head, floor, keys[0], Net(ms, keys[0]));
      if first.Some? then first else KeysVerdict(db, pool, head, floor, ms, keys[1..])
  }

  ghost function FloorVerdict(db: Db, pool: string, head: int, ms: seq<Move>, inv: Invariant): Option<CommitError> {
    if inv.floor.None? then Some(Violation(Declared(NonNegative)))
    else if exists k :: k in ScopeKeys(ms, inv.balanceKind) && !PrefixesFit(Amounts(ms, k))
      then Some(Violation(Declared(NonNegative)))
    else KeysVerdict(db, pool, head, inv.floor.value, ms, KeySeq(ScopeKeys(ms, inv.balanceKind)))
  }

  /** A scope that matches nothing, and a rule the engine cannot check, are both failures. */
  ghost function DeclaredVerdict(db: Db, pool: string, head: int, p: BatchProposal, inv: Invariant): Option<CommitError> {
    var ms := ProposalMoves(p.entries);
    if inv.balanceKind != "" && !(exists e :: e in p.entries && e.kind == inv.balanceKind)
      then Some(Violation(Declared(inv.kind)))
    else if inv.kind == SumZero || inv.kind == LargestRemainderSumsToDebit then
      if SumsToZero(ms, inv.balanceKind) then None else Some(Violation(Declared(inv.kind)))
    else if inv.kind == NonNegative then FloorVerdict(db, pool, head, ms, inv)
    else Some(Violation(Declared(inv.kind)))
  }

  ghost function AllDeclared(db: Db, pool: string, head: int, p: BatchProposal, invs: seq<Invariant>): Option<CommitError> {
    if invs == [] then None
    else
      var first := DeclaredVerdict(db, pool, head, p, invs[0]);
      if first.Some? then first else AllDeclared(db, pool, head, p, invs[1..])
  }

  /** None when the batch may be written. */
  ghost function Verdict(db: Db, pool: string, seqNo: int, head: int, p: BatchProposal): Option<CommitError> {
    var universal := UniversalVerdict(db, pool, seqNo, head, p);
    if universal.Some? then universal else AllDeclared(db, pool, head, p, p.invariants)
  }

  // ---- the code ----

  lemma ProposedAmounts(entries: seq<EntryProposal>)
    ensures var xs := AllAmounts(ProposalMoves(entries));
            |xs| == |entries| && forall i :: 0 <= i < |xs| ==> xs[i] == entries[i].amount
  {}

  /** `NetAmountCp`: the sum of the amounts, or nothing as soon as a running total overflows. */
  method NetAmount(entries: seq<EntryProposal>) returns (net: Option<int64>)
    ensures var xs := AllAmounts(ProposalMoves(entries));
            net == if PrefixesFit(xs) then Some(Sum(xs)) else None
  {
    hide ProposalMoves, AllAmounts;
    ghost var xs := AllAmounts(ProposalMoves(entries));
    ProposedAmounts(entries);
    var total: int64 := 0;
    for i := 0 to |entries|
      invariant PrefixesFit(xs[..i]) && total == Sum(xs[..i])
    {
      var amount := entries[i].amount;
      var sum := Wrap(total + amount);
      AddCentipointsIsExact(total, amount);
      RunningTotal(xs, i);
      if (amount > 0 && sum < total) || (amount < 0 && sum > total) { return None; }
      total := sum;
    }
    assert xs[..|entries|] == xs;
    return Some(total);
  }

  function ScopeOf(only: string): Move -> bool { (m: Move) => InScope(m.key.kind, only) }

  /** `sumByKind` and `sumByAccountAndKind`: one loop, with the key it groups by as a parameter. */
  method SumPerGroup<K(==,!new)>(grp: Move -> K, entries: seq<EntryProposal>, only: string)
    returns (sums: Option<map<K, int64>>)
    requires ScopeIsByGroup(grp, ScopeOf(only))
    ensures var ms := ProposalMoves(entries);
            && (sums.Some? <==> forall m :: m in ms && InScope(m.key.kind, only) ==> PrefixesFit(Group(grp, ms, grp(m))))
            && (sums.Some? ==> Sums(grp, ScopeOf(only), ms, sums.value))
  {
    ghost var ms := ProposalMoves(entries);
    var acc: map<K, int64> := map[];
    for i := 0 to |entries|
      invariant Sums(grp, ScopeOf(only), ms[..i], acc)
    {
      var e := entries[i];
      var m := Move(SnapKey(e.account, e.kind), e.amount);
      assert ms[..i + 1] == ms[..i] + [m];
      if !InScope(e.kind, only) {
        SumsSkip(grp, ScopeOf(only), ms[..i], acc, m);
        continue;
      }
      var before := if grp(m) in acc then acc[grp(m)] else 0;
      var sum := AddCentipoints(before, e.amount);
      AddCentipointsIsExact(before, e.amount);
      GroupFits(grp, ScopeOf(only), ms[..i], acc, m);
      if sum.None? {
        GroupOverflows(grp, ms, i + 1, grp(m));
        assert m in ms;
        return None;
      }
      SumsStep(grp, ScopeOf(only), ms[..i], acc, m, sum.value);
      acc := acc[grp(m) := sum.value];
    }
    assert ms[..|entries|] == ms;
    return Some(acc);
  }

  lemma ScopesAreByGroup(only: string)
    ensures ScopeIsByGroup(ByKind, ScopeOf(only)) && ScopeIsByGroup(ByKey, ScopeOf(only))
  {}

  /** `checkUniversal`: the rules no strategy may waive, in the order they are reported. */
  method CheckUniversal(db: Db, pool: string, seqNo: int, head: int, p: BatchProposal) returns (v: Option<CommitError>)
    ensures v == UniversalVerdict(db, pool, seqNo, head, p)
  {
    if |p.entries| == 0 { return Some(Violation(BatchNonEmpty)); }
    for i := 0 to |p.entries|
      invariant forall j :: 0 <= j < i ==> p.entries[j].amount != 0
    {
      if p.entries[i].amount == 0 { return Some(Violation(AmountsNonZero)); }
    }
    var net := NetAmount(p.entries);
    if net.None? { return Some(Violation(NoAmountOverflow)); }
    if seqNo != head + 1 { return Some(Violation(SeqMonotonic)); }
    var linkage := LinkageVerdict(db, pool, p);
    if linkage.Some? { return linkage; }
    for i := 0 to |p.entries|
      invariant forall j :: 0 <= j < i ==> p.entries[j].account in db.accounts
    {
      if p.entries[i].account !in db.accounts { return Some(Violation(EntriesReferenceLiveAccounts)); }
    }
    return None;
  }

  /** `checkSumsToZero`. */
  method CheckSumsToZero(p: BatchProposal, inv: Invariant) returns (v: Option<CommitError>)
    ensures v == if SumsToZero(ProposalMoves(p.entries), inv.balanceKind) then None
                 else Some(Violation(Declared(inv.kind)))
  {
    ghost var ms := ProposalMoves(p.entries);
    ScopesAreByGroup(inv.balanceKind);
    var sums := SumPerGroup(ByKind, p.entries, inv.balanceKind);
    if sums.None? { return Some(Violation(Declared(inv.kind))); }
    var kinds := sums.value.Keys;
    while kinds != {}
      invariant kinds <= sums.value.Keys
      invariant forall k :: k in sums.value && k !in kinds ==> sums.value[k] == 0
      decreases kinds
    {
      var k :| k in kinds;
      if sums.value[k] != 0 {
        assert HasGroup(ByKind, ScopeOf(inv.balanceKind), ms, k);
        return Some(Violation(Declared(inv.kind)));
      }
      kinds := kinds - {k};
    }
    forall m | m in ms && InScope(m.key.kind, inv.balanceKind)
      ensures PrefixesFit(KindAmounts(ms, m.key.kind)) && Sum(KindAmounts(ms, m.key.kind)) == 0
    {
      assert HasGroup(ByKind, ScopeOf(inv.balanceKind), ms, ByKind(m));
    }
    return None;
  }

  /** `checkNonNegative`: the accounts the batch deducts from, in key order, against the floor. */
  method CheckNonNegative(db: Db, pool: string, head: int, p: BatchProposal, inv: Invariant)
    returns (v: Option<CommitError>)
    ensures v == FloorVerdict(db, pool, head, ProposalMoves(p.entries), inv)
  {
    if inv.floor.None? { return Some(Violation(Declared(NonNegative))); }
    ghost var ms := ProposalMoves(p.entries);
    ScopesAreByGroup(inv.balanceKind);
    var deltas := SumPerGroup(ByKey, p.entries, inv.balanceKind);
    if deltas.None? {
      ghost var m :| m in ms && InScope(m.key.kind, inv.balanceKind) && !PrefixesFit(Group(ByKey, ms, ByKey(m)));
      assert m.key in ScopeKeys(ms, inv.balanceKind);
      return Some(Violation(Declared(NonNegative)));
    }
    DeltaKeys(ms, inv.balanceKind, deltas.value);
    var keys := SortedKeys(deltas.value.Keys);
    KeySeqMembers(deltas.value.Keys);
    for i := 0 to |keys|
      invariant KeysVerdict(db, pool, head, inv.floor.value, ms, keys) ==
                KeysVerdict(db, pool, head, inv.floor.value, ms, keys[i..])
    {
      var k := keys[i];
      assert keys[i..][0] == k && keys[i..][1..] == keys[i + 1..];
      assert k in deltas.value;
      var verdict := KeyVerdict(db, pool, head, inv.floor.value, k, deltas.value[k]);
      if verdict.Some? { return verdict; }
    }
    return None;
  }

  lemma DeltaKeys(ms: seq<Move>, only: string, deltas: map<SnapKey, int64>)
    requires Sums(ByKey, ScopeOf(only), ms, deltas)
    ensures deltas.Keys == ScopeKeys(ms, only)
    ensures forall k :: k in ScopeKeys(ms, only) ==> PrefixesFit(Amounts(ms, k))
    ensures forall k :: k in deltas ==> deltas[k] == Net(ms, k)
  {
    forall k ensures k in deltas.Keys <==> k in ScopeKeys(ms, only) {
      assert k in deltas <==> HasGroup(ByKey, ScopeOf(only), ms, k);
    }
  }

  /** `checkDeclared`: one declared rule, refused when its scope is empty or nothing checks it. */
  method CheckDeclared(db: Db, pool: string, head: int, p: BatchProposal, inv: Invariant)
    returns (v: Option<CommitError>)
    ensures v == DeclaredVerdict(db, pool, head, p, inv)
  {
    if inv.balanceKind != "" {
      var touched := false;
      for i := 0 to |p.entries|
        invariant touched <==> exists j :: 0 <= j < i && p.entries[j].kind == inv.balanceKind
      {
        if p.entries[i].kind == inv.balanceKind { touched := true; }
      }
      if !touched {
        return Some(Violation(Declared(inv.kind)));
      }
    }
    match inv.kind {
      case SumZero => v := CheckSumsToZero(p, inv);
      case LargestRemainderSumsToDebit => v := CheckSumsToZero(p, inv);
      case NonNegative => v := CheckNonNegative(db, pool, head, p, inv);
      case _ => v := Some(Violation(Declared(inv.kind)));
    }
  }

  /** `checkInvariants`: the universal rules, then the declared ones, first failure wins. */
  method CheckInvariants(db: Db, pool: string, seqNo: int, head: int, p: BatchProposal)
    returns (v: Option<CommitError>)
    ensures v == Verdict(db, pool, seqNo, head, p)
  {
    v := CheckUniversal(db, pool, seqNo, head, p);
    if v.Some? { return; }
    for i := 0 to |p.invariants|
      invariant AllDeclared(db, pool, head, p, p.invariants) == AllDeclared(db, pool, head, p, p.invariants[i..])
    {
      assert p.invariants[i..][0] == p.invariants[i] && p.invariants[i..][1..] == p.invariants[i + 1..];
      v := CheckDeclared(db, pool, head, p, p.invariants[i]);
      if v.Some? { return; }
    }
    return None;
  }

  // ---- what an accepted batch satisfies ----

  lemma {:induction false} EveryDeclaredHolds(db: Db, pool: string, head: int, p: BatchProposal, invs: seq<Invariant>, inv: Invariant)
    requires AllDeclared(db, pool, head, p, invs).None? && inv in invs
    ensures DeclaredVerdict(db, pool, head, p, inv).None?
  {
    if inv != invs[0] {
      assert inv in invs[1..];
      EveryDeclaredHolds(db, pool, head, p, invs[1..], inv);
    }
  }

  lemma {:induction false} EveryKeyHolds(db: Db, pool: string, head: int, floor: int, ms: seq<Move>, keys: seq<SnapKey>, k: SnapKey)
    requires KeysVerdict(db, pool, head, floor, ms, keys).None? && k in keys
    ensures KeyVerdict(db, pool, head, floor, k, Net(ms, k)).None?
  {
    if k != keys[0] {
      assert k in keys[1..];
      EveryKeyHolds(db, pool, head, floor, ms, keys[1..], k);
    }
  }

  /** An accepted SumZero, of either name, makes each kind in its scope sum to zero exactly. */
  lemma AcceptedSumsToZero(db: Db, pool: string, seqNo: int, head: int, p: BatchProposal, inv: Invariant, kind: string)
    requires Verdict(db, pool, seqNo, head, p).None? && inv in p.invariants
    requires inv.kind == SumZero || inv.kind == LargestRemainderSumsToDebit
    requires InScope(kind, inv.balanceKind)
    ensures Sum(KindAmounts(ProposalMoves(p.entries), kind)) == 0
  {
    var ms := ProposalMoves(p.entries);
    EveryDeclaredHolds(db, pool, head, p, p.invariants, inv);
    if forall m :: m in ms ==> ByKind(m) != kind {
      GroupOfUntouched(ByKind, ms, kind);
    }
  }

  /** An accepted NonNegative keeps every person account it deducts from at or above the floor. */
  lemma AcceptedKeepsFloor(db: Db, pool: string, seqNo: int, head: int, p: BatchProposal, inv: Invariant, k: SnapKey)
    requires Verdict(db, pool, seqNo, head, p).None? && inv in p.invariants
    requires inv.kind == NonNegative && inv.floor.Some? && InScope(k.kind, inv.balanceKind)
    requires k.account in db.accounts && db.accounts[k.account] == Person
    requires Net(ProposalMoves(p.entries), k) < 0
    ensures Balance(db.entries, pool, k, head) + Net(ProposalMoves(p.entries), k) >= inv.floor.value
  {
    hide Balance, KeySeq, AllDeclared, UniversalVerdict, ProposalMoves, Group, KeysVerdict;
    var ms := ProposalMoves(p.entries);
    EveryDeclaredHolds(db, pool, head, p, p.invariants, inv);
    if forall m :: m in ms ==> ByKey(m) != k { GroupOfUntouched(ByKey, ms, k); }
    var m :| m in ms && ByKey(m) == k;
    assert k in ScopeKeys(ms, inv.balanceKind);
    KeySeqMembers(ScopeKeys(ms, inv.balanceKind));
    EveryKeyHolds(db, pool, head, inv.floor.value, ms, KeySeq(ScopeKeys(ms, inv.balanceKind)), k);
  }
}
