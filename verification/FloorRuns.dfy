/** A floor constrains a deduction and not a balance: what a guild below its floor may still commit. */
module FloorRuns {
  import opened Wrappers
  import opened Int64
  import opened Ordering
  import opened Rows
  import opened Hex
  import opened Queries
  import opened Proposals
  import opened Invariants
  import opened Acceptance
  import opened CommitSpec
  import opened VerifySpec
  import opened Attestation
  import opened LedgerInvariant
  import opened Runs
  import opened History
  import opened Soundness
  import opened Standings
  import opened OverflowRuns

  /** A batch with an entry, none of zero, of accounts that exist, whose running total stays within 64 bits. */
  ghost predicate WellFormed(db: Db, req: CommitRequest) {
    var es := req.proposal.entries;
    && req.pool in db.pools && es != []
    && (forall e :: e in es ==> e.amount != 0 && e.account in db.accounts)
    && PrefixesFit(AllAmounts(ProposalMoves(es)))
  }

  /** No account's change, and no balance after it, leaves 64 bits. */
  ghost predicate Room(db: Db, req: CommitRequest) {
    var ms := ProposalMoves(req.proposal.entries);
    forall k :: k in Keys(ms) ==>
      PrefixesFit(Amounts(ms, k)) && InRange(Balance(db.entries, req.pool, k, Head(db, req.pool)) + Net(ms, k))
  }

  lemma RoomIsSums64(d: Digest, db: Db, req: CommitRequest)
    requires Inv(d, db) && PoolsOk(db) && req.pool in db.pools && Room(db, req)
    ensures Sums64(db, req)
  {
    hide Inv, PoolsOk, PrefixesFit, Group, Upto, MaxSeq, Sum, LastSeq, ProposalMoves;
    var ms, cache, es := ProposalMoves(req.proposal.entries), CacheOf(db, req.pool), Upto(db.entries, req.pool, Head(db, req.pool));
    InvCacheIsTheTable(d, db, req.pool);
    forall k | k in Keys(ms) ensures UpsertFits(cache, ms, k) {
      KeyUntouched(Moves(es), k);
      NoAmounts();
      if k in cache { assert RowMirrors(cache[k], es, k); }
    }
  }

  lemma NoAmounts()
    ensures Sum([]) == 0
  {}

  /** A well-formed batch with room, which every rule it declares accepts, is written. */
  lemma AcceptedIsWritten(d: Digest, db: Db, req: CommitRequest, env: Env)
    requires Inv(d, db) && PoolsOk(db) && Plain(req, env) && Fresh(db, req, env)
    requires WellFormed(db, req) && Room(db, req)
    requires forall inv :: inv in req.proposal.invariants ==> Accepts(db, req.pool, Head(db, req.pool), req.proposal, inv)
    ensures Writes(d, db, req, env)
  {
    hide Inv, Fresh, Room, Sums64, Accepts, Writes, PoolsOk;
    HeadsRead(d, db, req.pool);
    RoomIsSums64(d, db, req);
    PlainWrites(d, db, req, env);
  }

  /** The batch moves nobody down in what the floor looks at, and is written whatever the balances were. */
  lemma CreditsAreWritten(d: Digest, db: Db, req: CommitRequest, env: Env)
    requires Inv(d, db) && PoolsOk(db) && Plain(req, env) && Fresh(db, req, env)
    requires WellFormed(db, req) && Room(db, req)
    requires forall inv :: inv in req.proposal.invariants ==>
      inv.kind == NonNegative && inv.floor.Some? && Touched(req.proposal, inv.balanceKind)
    requires forall k :: k in Keys(ProposalMoves(req.proposal.entries)) ==>
      Net(ProposalMoves(req.proposal.entries), k) >= 0 && InRange(Balance(db.entries, req.pool, k, Head(db, req.pool)))
    ensures var after, out := Commit(d, db, req, env).0, Commit(d, db, req, env).1;
      && out.Ok?
      && forall k :: Balance(after.entries, req.pool, k, Head(after, req.pool))
                  == Balance(db.entries, req.pool, k, Head(db, req.pool)) + Net(ProposalMoves(req.proposal.entries), k)
  {
    hide Inv, Fresh, Writes, Plain, WellFormed, PoolsOk, Balance, Head, Commit, PrefixesFit, Group, Net, ProposalMoves;
    var p, head := req.proposal, Head(db, req.pool);
    forall inv | inv in p.invariants ensures Accepts(db, req.pool, head, p, inv) {
      forall m | Looked(p, inv.balanceKind, m)
        ensures PrefixesFit(Amounts(ProposalMoves(p.entries), m.key))
                && MayMove(db, req.pool, head, m.key, Net(ProposalMoves(p.entries), m.key), inv.floor.value)
      {
        assert m.key in Keys(ProposalMoves(p.entries));
      }
    }
    AcceptedIsWritten(d, db, req, env);
    WritesIsOk(d, db, req, env);
    forall k
      ensures Balance(Commit(d, db, req, env).0.entries, req.pool, k, Head(Commit(d, db, req, env).0, req.pool))
           == Balance(db.entries, req.pool, k, head) + Net(ProposalMoves(p.entries), k)
    {
      WrittenBalance(d, db, req, env, k);
    }
  }

  lemma WrittenBalance(d: Digest, db: Db, req: CommitRequest, env: Env, k: SnapKey)
    requires Inv(d, db) && Writes(d, db, req, env)
    ensures var after := Commit(d, db, req, env).0;
            Balance(after.entries, req.pool, k, Head(after, req.pool))
              == Balance(db.entries, req.pool, k, Head(db, req.pool)) + Net(ProposalMoves(req.proposal.entries), k)
  {
    hide Inv, Writes, Commit, Verdict, BatchInsertable, Balance, Net, ProposalMoves, Moves;
    var after, b, rows := Commit(d, db, req, env).0, NewBatch(d, db, req, env), NewEntries(db, req, env);
    CommitExtends(d, db, req, env);
    HeadAfter(db, after, req, b, rows, req.pool);
    BalanceAfter(d, db, after, req, b, rows, k);
  }

  // ---- three sides of the rule, on one debt ----

  const DEBT: int64 := -4500

  const FLOOR_ZERO: Invariant := Invariant(NonNegative, "dkp", Some(0))

  /** One entry for "a" under a floor of zero. */
  function Moved(x: int64): CommitRequest {
    var r := Request([Award("a", x)]);
    r.(proposal := r.proposal.(invariants := [FLOOR_ZERO]))
  }

  ghost function InDebt(d: Digest): Db { AfterFirst(d, DEBT) }

  lemma DebtIs(d: Digest)
    requires Sized(d)
    ensures Inv(d, InDebt(d)) && PoolsOk(InDebt(d)) && InDebt(d) == Run(d, GUILD, [First(DEBT)])
    ensures Head(InDebt(d), "pool") == 1 && Balance(InDebt(d).entries, "pool", A_DKP, 1) == DEBT
    ensures exists b, e :: Filled(InDebt(d), b, e, DEBT)
  {
    hide Commit, Inv;
    var db, step := InDebt(d), First(DEBT);
    GuildIsGenesis();
    GenesisInv(d, GUILD);
    CommitKeepsInv(d, GUILD, step.req, step.env);
    CommitKeepsPools(d, GUILD, step.req, step.env);
    assert [step][..0] == [];
    var b, e := AfterFirstIs(d, DEBT);
    DebtBalance(db, b, e);
  }

  lemma DebtBalance(db: Db, b: BatchRow, e: EntryRow)
    requires Filled(db, b, e, DEBT)
    ensures Head(db, "pool") == 1 && Balance(db.entries, "pool", A_DKP, 1) == DEBT
  {
    hide Moves, Amounts, Sum, Upto, Group;
    OneBatch(db, b, e);
    OneMove(MoveOf(e));
    FilledLog(db, b, e, DEBT);
  }

  lemma OneBatch(db: Db, b: BatchRow, e: EntryRow)
    requires Filled(db, b, e, DEBT)
    ensures Head(db, "pool") == 1 && Upto(db.entries, "pool", 1) == [e]
  {
    PoolBatchesSnoc([], b, "pool");
    assert [] + [b] == [b] && [b][..0] == [] && [e][..0] == [];
  }

  lemma MovedKeys(x: int64, only: string)
    requires only == "dkp"
    ensures var p := Moved(x).proposal;
      && (forall m :: Looked(p, only, m) <==> m == Move(A_DKP, x))
      && Touched(p, only) && Net(ProposalMoves(p.entries), A_DKP) == x && PrefixesFit(Amounts(ProposalMoves(p.entries), A_DKP))
  {
    OnlyMoves(x);
    var p := Moved(x).proposal;
    assert p.entries == Only(x) && Award("a", x) in p.entries;
    assert Move(A_DKP, x) in ProposalMoves(p.entries);
  }

  lemma PlainMove(x: int64)
    ensures Plain(Moved(x), Calm('y'))
  {}

  lemma RoomToMove(db: Db, x: int64)
    requires x != 0 && db.pools == ["pool"] && "a" in db.accounts
    requires Head(db, "pool") == 1 && Balance(db.entries, "pool", A_DKP, 1) == DEBT && InRange(DEBT + x)
    ensures WellFormed(db, Moved(x)) && Room(db, Moved(x)) && Keys(ProposalMoves(Moved(x).proposal.entries)) == {A_DKP}
  {
    hide Head, Balance, PrefixesFit, Group, Sum;
    OnlyMoves(x);
    assert Moved(x).proposal.entries == Only(x);
  }

  /** From a debt of 45.00 the member is credited 4.50, under a floor of zero. */
  lemma CreditBelowFloorIsWritten(d: Digest)
    requires Sized(d)
    ensures var after, out := Commit(d, InDebt(d), Moved(450), Calm('y')).0, Commit(d, InDebt(d), Moved(450), Calm('y')).1;
            out.Ok? && Balance(after.entries, "pool", A_DKP, Head(after, "pool")) == -4050
  {
    hide Commit, Inv, Balance, Head, Accepts, Filled, Plain, WellFormed, Room, Fresh, Net, ProposalMoves, PoolsOk, Keys, InDebt, Run;
    var db, req := InDebt(d), Moved(450);
    DebtIs(d);
    var b, e :| Filled(db, b, e, DEBT);
    FilledTables(db, b, e);
    FreshSecond(db, b, e, req);
    PlainMove(450);
    RoomToMove(db, 450);
    MovedKeys(450, "dkp");
    CreditsAreWritten(d, db, req, Calm('y'));
  }

  lemma FilledTables(db: Db, b: BatchRow, e: EntryRow)
    requires Filled(db, b, e, DEBT)
    ensures db.pools == ["pool"] && db.accounts == map["a" := Person, "b" := Person]
    ensures DistinctBy(IdOf, db.batches)
  {}

  lemma FreshSecond(db: Db, b: BatchRow, e: EntryRow, req: CommitRequest)
    requires Filled(db, b, e, DEBT) && |req.proposal.entries| == 1
    ensures Fresh(db, req, Calm('y'))
  {
    assert db.audit == [db.audit[0]] && db.outbox == [db.outbox[0]];
  }

  lemma RefusedWith(d: Digest, db: Db, req: CommitRequest, env: Env, error: CommitError)
    requires ValidRequest(req) && req.idempotencyKey.None? && Refusal(db, req) == Some(error)
    ensures Commit(d, db, req, env) == (db, Err(error))
  {
    hide Refusal, WriteFailure;
  }

  lemma MovedIsValid(x: int64)
    ensures ValidRequest(Moved(x)) && Moved(x).idempotencyKey.None? && Moved(x).pool == "pool"
    ensures Moved(x).proposal.entries == Only(x) && Moved(x).proposal.invariants == [FLOOR_ZERO]
  {}

  lemma RefusedByRules(db: Db, req: CommitRequest)
    ensures var head := Head(db, req.pool); var v := Verdict(db, req.pool, head + 1, head, req.proposal);
            v.Some? ==> Refusal(db, req) == v
  {
    hide Verdict, MaxSeq, PoolBatches;
  }

  /** The same member is not taken further down, and nothing is written. */
  lemma DebitBelowFloorIsRefused(d: Digest)
    requires Sized(d)
    ensures Commit(d, InDebt(d), Moved(-1), Calm('y')) == (InDebt(d), Err(Violation(Declared(NonNegative))))
  {
    hide Commit, Inv, Balance, Head, Holds, Accepts, Verdict, Filled, Refusal, ValidRequest, Moved, FirstRefused, FirstBroken, Unreadable;
    hide InDebt, Run, PoolsOk, ProposalMoves;
    var db, req := InDebt(d), Moved(-1);
    DebtIs(d);
    var b, e :| Filled(db, b, e, DEBT);
    FilledTables(db, b, e);
    MovedIsValid(-1);
    SoundMove(db, -1);
    NotAccepted(db, -1);
    VerdictIs(db, "pool", 2, 1, req.proposal);
    RefusedByRules(db, req);
    RefusedWith(d, db, req, Calm('y'), Violation(Declared(NonNegative)));
  }

  lemma SoundMove(db: Db, x: int64)
    requires x != 0 && "a" in db.accounts
    ensures forall rule :: rule in UNIVERSAL ==> Holds(db, "pool", 2, 1, Moved(x).proposal, rule)
  {
    hide PrefixesFit;
    OnlyMoves(x);
    EachUniversal(db, "pool", 2, 1, Moved(x).proposal);
  }

  lemma NotAccepted(db: Db, x: int64)
    requires x < 0 && "a" in db.accounts && db.accounts["a"] == Person && Balance(db.entries, "pool", A_DKP, 1) == DEBT
    ensures FirstRefused(db, "pool", 1, Moved(x).proposal, 0)
    ensures forall m :: m in ProposalMoves(Only(x)) ==> !Unreadable(db, "pool", 1, m.key)
  {
    hide Balance, PrefixesFit, Group, Net;
    OnlyMoves(x);
    MovedKeys(x, "dkp");
    assert Looked(Moved(x).proposal, "dkp", Move(A_DKP, x));
  }
}
