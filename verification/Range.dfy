/** When the replay's own arithmetic stays within 64 bits, and a run for which it does not. */
module Range {
  import opened Wrappers
  import opened Int64
  import opened Ordering
  import opened Rows
  import opened Hex
  import opened Queries
  import opened Proposals
  import opened Invariants
  import opened CommitSpec
  import opened VerifySpec
  import opened Verifier
  import opened Attestation
  import opened LedgerInvariant
  import opened Runs
  import opened History
  import opened Soundness
  import opened Standings

  function Abs(x: int): int { if x < 0 then -x else x }

  ghost function SumAbs(xs: seq<int>): int { SumBy(Abs, xs) }

  /** The points ever moved in a pool, in either direction. */
  ghost function Volume(es: seq<EntryRow>): int { SumBy((e: EntryRow) => Abs(e.amount), es) }

  lemma {:induction false} SumAbsBounds(xs: seq<int>)
    ensures Abs(Sum(xs)) <= SumAbs(xs)
    ensures SumAbs(xs) <= MAX ==> PrefixesFit(xs)
  {
    if xs != [] {
      var n := |xs| - 1;
      assert xs == xs[..n] + [xs[n]];
      SumAbsBounds(xs[..n]);
      SumBySnoc(Abs, xs[..n], xs[n]);
    }
  }

  lemma {:induction false} SumAbsGroup<K>(grp: Move -> K, ms: seq<Move>, k: K)
    ensures SumAbs(Group(grp, ms, k)) <= SumAbs(AllAmounts(ms))
  {
    if ms != [] {
      var n := |ms| - 1;
      assert ms == ms[..n] + [ms[n]];
      SumAbsGroup(grp, ms[..n], k);
      assert AllAmounts(ms) == AllAmounts(ms[..n]) + [ms[n].amount];
      SumBySnoc(Abs, AllAmounts(ms[..n]), ms[n].amount);
      SumBySnoc(Abs, Group(grp, ms[..n], k), ms[n].amount);
      assert Group(grp, ms[..n], k) + [] == Group(grp, ms[..n], k);
    }
  }

  lemma VolumeIsSumAbs(es: seq<EntryRow>)
    ensures Volume(es) == SumAbs(AllAmounts(Moves(es)))
  {
    assert Map(Abs, AllAmounts(Moves(es))) == Map((e: EntryRow) => Abs(e.amount), es);
  }

  lemma {:induction false} VolumeOfItem(items: seq<Item>, i: nat)
    requires i < |items|
    ensures Volume(items[i].entries) <= Volume(Flat(items))
  {
    var n := |items| - 1;
    var f := (e: EntryRow) => Abs(e.amount);
    SumByAppend(f, Flat(items[..n]), items[n].entries);
    VolumeNonNegative(Flat(items[..n]));
    VolumeNonNegative(items[n].entries);
    if i < n { VolumeOfItem(items[..n], i); }
  }

  lemma {:induction false} VolumeNonNegative(es: seq<EntryRow>)
    ensures Volume(es) >= 0
  {
    if es != [] {
      var n := |es| - 1;
      assert es == es[..n] + [es[n]];
      VolumeNonNegative(es[..n]);
      SumBySnoc((e: EntryRow) => Abs(e.amount), es[..n], es[n]);
    }
  }

  /** No running total can leave 64 bits when everything moved, without sign, fits. */
  lemma SmallVolumeFits(items: seq<Item>)
    requires Volume(Flat(items)) <= MAX
    ensures ReplayFits(items)
  {
    hide Group, PrefixesFit;
    forall i | 0 <= i < |items| ensures PrefixesFit(AllAmounts(Moves(items[i].entries))) {
      VolumeOfItem(items, i);
      VolumeIsSumAbs(items[i].entries);
      SumAbsBounds(AllAmounts(Moves(items[i].entries)));
    }
    var ms := Moves(Flat(items));
    forall k | k in Keys(ms) ensures PrefixesFit(Amounts(ms, k)) {
      VolumeIsSumAbs(Flat(items));
      SumAbsGroup(ByKey, ms, k);
      SumAbsBounds(Amounts(ms, k));
    }
  }

  // ---- every entry is of an account the guild has ----

  ghost predicate AccountsOk(db: Db) { forall e :: e in db.entries ==> e.account in db.accounts }

  lemma CommitKeepsAccountsOk(d: Digest, db: Db, req: CommitRequest, env: Env)
    requires AccountsOk(db)
    ensures AccountsOk(Commit(d, db, req, env).0)
  {
    hide Commit, Writes, BatchInsertable, Verdict, Moves, ProposalMoves, MaxSeq, PoolBatches;
    CommitExtends(d, db, req, env);
    if Writes(d, db, req, env) {
      var b, rows, p := NewBatch(d, db, req, env), NewEntries(db, req, env), req.proposal;
      AcceptedAccounts(db, req.pool, b.head.seqNo, b.head.seqNo - 1, p);
      SameAccounts(db, rows, p);
    }
  }

  lemma AcceptedAccounts(db: Db, pool: string, seqNo: int, head: int, p: BatchProposal)
    requires Verdict(db, pool, seqNo, head, p).None?
    ensures AccountsLive(db, p)
  {
    hide LinkageVerdict, AllDeclared, AllAmounts, ProposalMoves, PrefixesFit;
  }

  lemma SameAccounts(db: Db, rows: seq<EntryRow>, p: BatchProposal)
    requires AccountsLive(db, p) && Moves(rows) == ProposalMoves(p.entries)
    ensures forall e :: e in rows ==> e.account in db.accounts
  {
    forall e | e in rows ensures e.account in db.accounts {
      var i :| 0 <= i < |rows| && rows[i] == e;
      assert Moves(rows)[i] == ProposalMoves(p.entries)[i];
      assert p.entries[i] in p.entries;
    }
  }

  lemma {:induction false} RunKeepsAccountsOk(d: Digest, db: Db, steps: seq<Step>)
    requires AccountsOk(db)
    ensures AccountsOk(Run(d, db, steps))
  {
    hide Commit, AccountsOk;
    if steps != [] {
      var n := |steps| - 1;
      RunKeepsAccountsOk(d, db, steps[..n]);
      CommitKeepsAccountsOk(d, Run(d, db, steps[..n]), steps[n].req, steps[n].env);
    }
  }

  lemma FirstKeyUncached(d: Digest, db: Db, pool: string)
    requires Inv(d, db) && PoolsOk(db) && AccountsOk(db) && pool in db.pools && "" !in db.accounts
    ensures FIRST_KEY !in CacheOf(db, pool)
    ensures multiset(Flat(Replay(db, pool))) == multiset(Entries(db, pool))
  {
    hide ChainHolds, Replay, KeysOk, AuditInv, Visible, Flat, Moves, Keys, RowMirrors;
    InvWalks(d, db);
    forall e | e in db.entries ensures Visible(db, e) { InvVisible(d, db, e); }
    WalkIsVisible(d, db, pool);
    FilterAgrees((e: EntryRow) => e.pool == pool, (e: EntryRow) => e.pool == pool && Visible(db, e), db.entries);
    assert PoolInv(d, db, pool);
    ReplayIsLog(d, db, pool);
    FlatInIdOrder(Log(db, pool));
    KeysPermute(Flat(Log(db, pool)), Entries(db, pool));
    if FIRST_KEY in CacheOf(db, pool) {
      KeyFromRow(Entries(db, pool));
      FilterMembers((e: EntryRow) => e.pool == pool, db.entries);
    }
  }

  /**
   * Every ledger any run of commits can build verifies clean, for every pool's chain and the audit
   * chain, as long as the points each pool ever moved, without sign, fit in 64 bits.
   */
  lemma SmallRunsVerify(d: Digest, db: Db, steps: seq<Step>)
    requires Sized(d) && Genesis(db) && "" !in db.accounts
    requires forall p :: p in db.pools ==> Volume(Entries(Run(d, db, steps), p)) <= MAX
    ensures Clean(d, Run(d, db, steps))
  {
    hide Clean, Inv, Volume, ReplayFits, Replay, Flat, Entries, CacheOf;
    var after := Run(d, db, steps);
    GenesisInv(d, db);
    RunKeepsInv(d, db, steps);
    RunKeepsPools(d, db, steps);
    RunKeepsAccountsOk(d, db, steps);
    RunKeepsAccounts(d, db, steps);
    EveryRunVerifies(d, db, steps);
    forall p | p in after.pools ensures ReplayFits(Replay(after, p)) && FIRST_KEY !in CacheOf(after, p) {
      FirstKeyUncached(d, after, p);
      VolumePermutes(Flat(Replay(after, p)), Entries(after, p));
      SmallVolumeFits(Replay(after, p));
    }
  }

  lemma VolumePermutes(a: seq<EntryRow>, b: seq<EntryRow>)
    requires multiset(a) == multiset(b)
    ensures Volume(a) == Volume(b)
  {
    SumByPermutes((e: EntryRow) => Abs(e.amount), a, b);
  }

  /** Every reachable ledger meets what the paged replay assumes of the unique indexes. */
  lemma RunHasUniqueSeqs(d: Digest, db: Db, steps: seq<Step>)
    requires Sized(d) && Genesis(db)
    ensures UniqueSeqs(Run(d, db, steps))
  {
    hide Run, Link, Mirrors;
    var after := Run(d, db, steps);
    GenesisInv(d, db);
    RunKeepsInv(d, db, steps);
    forall pool ensures DistinctBy((b: BatchRow) => b.head.seqNo, PoolBatches(after.batches, pool)) {
      assert PoolInv(d, after, pool);
      var log, bs := Log(after, pool), PoolBatches(after.batches, pool);
      forall i | 0 <= i < |bs| ensures bs[i].head.seqNo == i + 1 { assert BatchHolds(d, log, i); }
    }
    forall i | 0 <= i < |after.audit| ensures after.audit[i].body.seqNo == i + 1 { assert AuditRowHolds(d, after.audit, i); }
  }

  /**
   * The replay as it is run, a page at a time, over any reachable ledger of small volume: it counts
   * no finding, keeps none, and reports every pool's batches up to its head.
   */
  method ReplayRun(d: Digest, db: Db, ghost genesis: Db, ghost steps: seq<Step>, pageSize: int, maxFindings: int)
    returns (replayer: Replayer)
    requires Sized(d) && Genesis(genesis) && "" !in genesis.accounts && db == Run(d, genesis, steps)
    requires forall p :: p in genesis.pools ==> Volume(Entries(db, p)) <= MAX
    ensures replayer.findingCount == 0 && replayer.findings == []
    ensures replayer.pools == PoolReports(db, Sort(StrLe, db.pools)) && replayer.audit == AuditReportOf(db)
  {
    hide Clean, AllFindings, UniqueSeqs, Volume, Run;
    SmallRunsVerify(d, genesis, steps);
    RunHasUniqueSeqs(d, genesis, steps);
    replayer := new Replayer(d, db, pageSize, maxFindings);
    replayer.Verify();
    NoneFound(d, db);
  }

  lemma NoneFound(d: Digest, db: Db)
    requires Clean(d, db)
    ensures AllFindings(d, db) == []
  {}
}
