/** Two inputs on which 64 bits matter: one the replay cannot sum, and one the deltas cannot. */
module OverflowRuns {
  import opened Wrappers
  import opened Int64
  import opened Ordering
  import opened Rows
  import opened Hex
  import opened Queries
  import opened Proposals
  import opened Invariants
  import opened Acceptance
  import opened CommitSpec
  import opened VerifySpec
  import opened Attestation
  import opened LedgerInvariant
  import opened Runs
  import opened History

  // ---- a plain batch is accepted ----

  /** No reversal, no reference and no key; and nothing fails under it. */
  ghost predicate Plain(req: CommitRequest, env: Env) {
    && ValidRequest(req) && req.idempotencyKey.None? && req.sourceRef.None?
    && req.proposal.reverses.None? && req.proposal.kind != KIND_REVERSAL
    && req.proposal.effectiveAt >= 0 && env.recordedAt >= 0 && env.fails == {}
  }

  /** Every id the call mints is new, and no two are the same. */
  ghost predicate Fresh(db: Db, req: CommitRequest, env: Env) {
    var n := |req.proposal.entries|;
    && (forall b :: b in db.batches ==> b.head.id != env.mint(0))
    && (forall e, i: nat :: e in db.entries && 1 <= i <= n ==> e.id != env.mint(i))
    && (forall i: nat, j: nat :: 1 <= i < j <= n ==> env.mint(i) != env.mint(j))
    && (forall a :: a in db.audit ==> a.body.id != env.mint(n + 1))
    && (forall o :: o in db.outbox ==> o.id != env.mint(n + 2))
  }

  ghost predicate Sums64(db: Db, req: CommitRequest) {
    var ms := ProposalMoves(req.proposal.entries);
    DeltasFit(ms) && forall k :: k in Keys(ms) ==> UpsertFits(CacheOf(db, req.pool), ms, k)
  }

  lemma {:induction false} SeqsBelowNext(bs: seq<BatchRow>, pool: string, b: BatchRow)
    requires b in bs && b.head.pool == pool
    ensures b.head.seqNo < MaxSeq(PoolBatches(bs, pool)) + 1
  {
    PoolBatchesMembers(bs, pool);
    BelowMax(PoolBatches(bs, pool), b);
  }

  lemma {:induction false} AuditBelowNext(rows: seq<AuditRow>, a: AuditRow)
    requires a in rows
    ensures a.body.seqNo < MaxAuditSeq(rows) + 1
  {
    var n := |rows| - 1;
    assert rows == rows[..n] + [rows[n]];
    if a != rows[n] { AuditBelowNext(rows[..n], a); }
  }

  lemma PlainRows(d: Digest, db: Db, req: CommitRequest, env: Env)
    requires Plain(req, env) && Fresh(db, req, env) && Sums64(db, req) && req.proposal.entries != []
    requires req.pool in db.pools && AccountsLive(db, req.proposal)
    requires forall e :: e in req.proposal.entries ==> e.amount != 0
    ensures RowsFailure(db, NewBatch(d, db, req, env), NewEntries(db, req, env), env.fails).None?
  {
    hide Link, PoolBatches, UpsertFits, DeltasFit, MaxSeq;
    var b, rows := NewBatch(d, db, req, env), NewEntries(db, req, env);
    RowsOfNewBatch(req, env, NextPoolSeq(db, req.pool));
    var db1 := db.(batches := db.batches + [b]);
    forall o | o in db.batches && o.head.pool == req.pool ensures o.head.seqNo != b.head.seqNo {
      SeqsBelowNext(db.batches, req.pool, o);
    }
    assert BatchInsertable(db, b);
    forall i | 0 <= i < |rows| ensures !EntryFails(db1, rows, i, env.fails) { PlainEntry(db, req, env, b, i); }
  }

  lemma PlainEntry(db: Db, req: CommitRequest, env: Env, b: BatchRow, i: nat)
    requires Plain(req, env) && Fresh(db, req, env) && req.pool in db.pools && AccountsLive(db, req.proposal)
    requires i < |req.proposal.entries| && req.proposal.entries[i].amount != 0 && b.head.id == env.mint(0)
    ensures !EntryFails(db.(batches := db.batches + [b]), NewEntries(db, req, env), i, env.fails)
  {
    hide MaxSeq, PoolBatches;
    var rows, db1 := NewEntries(db, req, env), db.(batches := db.batches + [b]);
    assert b in db1.batches && req.proposal.entries[i] in req.proposal.entries;
    forall o | o in db.entries + rows[..i] ensures o.id != rows[i].id {
      if o !in db.entries { var j :| 0 <= j < i && rows[j] == o; }
    }
  }

  lemma PlainBooks(d: Digest, db: Db, db1: Db, req: CommitRequest, env: Env, b: BatchRow)
    requires Plain(req, env) && Fresh(db, req, env) && ReadHead(db.meta, AUDIT_HEAD).Ok?
    requires db1.audit == db.audit && db1.outbox == db.outbox && db1.meta == db.meta
    requires b in db1.batches && b.head.id == env.mint(0)
    ensures BooksFailure(d, db1, req, env).None?
  {
    hide ReadHead, MaxAuditSeq;
    forall a | a in db.audit ensures a.body.seqNo != MaxAuditSeq(db.audit) + 1 { AuditBelowNext(db.audit, a); }
  }

  /** Enough for a batch to be written: the universal rules, every declared rule accepting it, and room. */
  lemma PlainWrites(d: Digest, db: Db, req: CommitRequest, env: Env)
    requires Plain(req, env) && Fresh(db, req, env) && Sums64(db, req) && req.proposal.entries != []
    requires req.pool in db.pools && AccountsLive(db, req.proposal)
    requires forall e :: e in req.proposal.entries ==> e.amount != 0
    requires PrefixesFit(AllAmounts(ProposalMoves(req.proposal.entries)))
    requires forall inv :: inv in req.proposal.invariants ==> Accepts(db, req.pool, Head(db, req.pool), req.proposal, inv)
    requires ReadHead(db.meta, HeadKey(req.pool)).Ok? && ReadHead(db.meta, AUDIT_HEAD).Ok?
    ensures Writes(d, db, req, env)
  {
    hide Sums64, Fresh, Link, RowsFailure, BooksFailure, ReadHead, Accepts, AllDeclared;
    AllDeclaredAre(db, req.pool, Head(db, req.pool), req.proposal, req.proposal.invariants);
    PlainRows(d, db, req, env);
    var b, rows := NewBatch(d, db, req, env), NewEntries(db, req, env);
    WrittenRowsFit(db, b, rows, env.fails);
    PlainBooks(d, db, WithRows(db, b, rows), req, env, b);
  }

  // ---- the run ----

  function Award(account: string, amount: int64): EntryProposal {
    EntryProposal(account, None, "dkp", amount, None, None, None, None, "{}")
  }

  function Request(entries: seq<EntryProposal>): CommitRequest {
    CommitRequest("pool", BatchProposal("adjustment", "fixed", "1", "{}", None, "", None, 0, entries, []),
                  "web", None, None, Actor("user", "officer", None, None), "", "", "")
  }

  /** Ids of one call: a letter of the call's own, then a digit. */
  function Mint(call: char): nat -> string { (i: nat) => [call, if i < 10 then '0' + i as char else 'x'] }

  function Calm(call: char): Env { Env(Mint(call), 0, "", 0, 0, {}) }

  const GUILD: Db := Db(["pool"], map["a" := Person, "b" := Person], [], [], map[], [], [], 0, map[])

  function Only(x: int64): seq<EntryProposal> { [Award("a", x)] }

  const OVER: seq<EntryProposal> := [Award("a", 1), Award("a", -1)]

  const A_DKP: SnapKey := SnapKey("a", "dkp")

  function First(x: int64): Step { Step(Request(Only(x)), Calm('x')) }

  const FIRST: Step := First(MAX)

  const SECOND: Step := Step(Request(OVER), Calm('y'))

  lemma GuildIsGenesis()
    ensures Genesis(GUILD)
  {}

  lemma OnlyMoves(x: int64)
    ensures ProposalMoves(Only(x)) == [Move(A_DKP, x)]
    ensures AllAmounts(ProposalMoves(Only(x))) == [x] && PrefixesFit([x])
    ensures Amounts(ProposalMoves(Only(x)), A_DKP) == [x] && Keys(ProposalMoves(Only(x))) == {A_DKP}
    ensures Sum([x]) == x
  {
    OneMove(Move(A_DKP, x));
    assert ProposalMoves(Only(x)) == [Move(A_DKP, x)];
    assert AllAmounts([Move(A_DKP, x)]) == [x];
  }

  lemma OneMove(m: Move)
    ensures Amounts([m], m.key) == [m.amount] && Keys([m]) == {m.key}
    ensures PrefixesFit([m.amount]) && Sum([m.amount]) == m.amount
  {
    hide Group, PrefixesFit, Sum, Keys;
    NoMoves(m.key);
    assert [m] == [] + [m] && [m.amount] == [] + [m.amount];
    GroupSnoc(ByKey, [], m, m.key);
    PrefixesFitSnoc([], m.amount);
    SumSnoc([], m.amount);
    KeysSnoc([], m);
  }

  lemma NoMoves(k: SnapKey)
    ensures Amounts([], k) == [] && Keys([]) == {} && PrefixesFit([]) && Sum([]) == 0
  {}

  lemma OverMoves()
    ensures ProposalMoves(OVER) == [Move(A_DKP, 1), Move(A_DKP, -1)]
    ensures AllAmounts(ProposalMoves(OVER)) == [1, -1] && PrefixesFit([1, -1])
    ensures Amounts(ProposalMoves(OVER), A_DKP) == [1, -1] && Keys(ProposalMoves(OVER)) == {A_DKP}
    ensures Sum([1, -1]) == 0
  {
    hide PrefixesFit, Sum, Group, Keys;
    var m, n := Move(A_DKP, 1), Move(A_DKP, -1);
    OneMove(m);
    assert ProposalMoves(OVER) == [m] + [n] && AllAmounts([m] + [n]) == [1, -1];
    assert [1] + [-1] == [1, -1];
    GroupSnoc(ByKey, [m], n, A_DKP);
    PrefixesFitSnoc([1], -1);
    SumSnoc([1], -1);
    KeysSnoc([m], n);
  }

  lemma FirstWrites(d: Digest, x: int64)
    requires x != 0
    ensures Writes(d, GUILD, First(x).req, First(x).env)
  {
    OnlyMoves(x);
    PlainWrites(d, GUILD, First(x).req, First(x).env);
  }

  lemma BooksAfter(d: Digest, db: Db, req: CommitRequest, env: Env)
    requires Writes(d, db, req, env)
    ensures var after, n := Commit(d, db, req, env).0, |req.proposal.entries|;
            && |after.audit| == |db.audit| + 1 && after.audit[..|db.audit|] == db.audit
            && after.audit[|db.audit|].body.id == env.mint(n + 1)
            && |after.outbox| == |db.outbox| + 1 && after.outbox[..|db.outbox|] == db.outbox
            && after.outbox[|db.outbox|].id == env.mint(n + 2)
  {
    hide Link, Verdict, BatchInsertable, Upserted, UpsertFits, MaxAuditSeq;
    AllOrNothing(d, db, req, env);
  }

  ghost function AfterFirst(d: Digest, x: int64): Db { Commit(d, GUILD, First(x).req, First(x).env).0 }

  /** A ledger of one batch of one entry, which brings the balance of "a" to `x`. */
  ghost predicate Filled(db: Db, b: BatchRow, e: EntryRow, x: int64) {
    && db.pools == GUILD.pools && db.accounts == GUILD.accounts
    && db.batches == [b] && db.entries == [e] && b.head.pool == "pool" && b.head.seqNo == 1
    && b.head.id == "x0" && e.id == "x1" && e.batch == "x0" && MoveOf(e) == Move(A_DKP, x)
    && e.pool == "pool" && e.seqNo == 1
    && |db.audit| == 1 && db.audit[0].body.id == "x2" && |db.outbox| == 1 && db.outbox[0].id == "x3"
  }

  lemma AfterFirstIs(d: Digest, x: int64) returns (b: BatchRow, e: EntryRow)
    requires x != 0
    ensures Filled(AfterFirst(d, x), b, e, x)
  {
    hide Commit, Writes, Verdict, BatchInsertable, EntriesOf, PoolBatches;
    var step := First(x);
    var db, rows := AfterFirst(d, x), NewEntries(GUILD, step.req, step.env);
    b := NewBatch(d, GUILD, step.req, step.env);
    FirstWrites(d, x);
    NoBatchesYet();
    CommitExtends(d, GUILD, step.req, step.env);
    BooksAfter(d, GUILD, step.req, step.env);
    assert rows == [rows[0]] && [] + [b] == [b] && [] + rows == rows;
    e := rows[0];
  }

  lemma NoBatchesYet()
    ensures NextPoolSeq(GUILD, "pool") == 1
  {}

  lemma SecondIsFresh(db: Db, b: BatchRow, e: EntryRow, x: int64)
    requires Filled(db, b, e, x)
    ensures Fresh(db, SECOND.req, SECOND.env)
  {
    assert db.audit == [db.audit[0]] && db.outbox == [db.outbox[0]];
  }

  lemma FilledLog(db: Db, b: BatchRow, e: EntryRow, x: int64)
    requires Filled(db, b, e, x)
    ensures Log(db, "pool") == [Item(b, [e])] && Flat(Log(db, "pool")) == [e] && Moves([e]) == [Move(A_DKP, x)]
  {
    PoolBatchesSnoc([], b, "pool");
    assert [] + [b] == [b] && [] + [e] == [e];
    EntriesOfSame([e], "x0", "x0");
    FlatSnoc([], Item(b, [e]));
    assert [] + [Item(b, [e])] == [Item(b, [e])];
  }

  lemma SecondFits(d: Digest, db: Db, b: BatchRow, e: EntryRow)
    requires Filled(db, b, e, MAX) && PoolInv(d, db, "pool")
    ensures Sums64(db, SECOND.req)
  {
    hide Log, ChainHolds, HeadHolds, ProposalMoves, Moves, Group, Sum, PrefixesFit, Keys, LastSeq, Filled;
    FilledLog(db, b, e, MAX);
    OverMoves();
    OneMove(Move(A_DKP, MAX));
    SecondIsOver();
    var cache := CacheOf(db, "pool");
    assert Amounts(ProposalMoves(OVER), A_DKP) == [1, -1];
    if A_DKP in cache { assert RowMirrors(cache[A_DKP], [e], A_DKP); }
  }

  lemma SecondIsOver()
    ensures SECOND.req.proposal.entries == OVER && SECOND.req.pool == "pool"
  {}

  lemma SecondWrites(d: Digest)
    requires Sized(d)
    ensures Inv(d, AfterFirst(d, MAX)) && Writes(d, AfterFirst(d, MAX), SECOND.req, SECOND.env)
  {
    hide Commit, Writes, Sums64, Fresh, KeysOk, AuditInv, PoolInv;
    var db := AfterFirst(d, MAX);
    GuildIsGenesis();
    GenesisInv(d, GUILD);
    CommitKeepsInv(d, GUILD, FIRST.req, FIRST.env);
    var b, e := AfterFirstIs(d, MAX);
    assert PoolInv(d, db, "pool");
    SecondIsFresh(db, b, e, MAX);
    SecondFits(d, db, b, e);
    OverMoves();
    HeadsRead(d, db, "pool");
    PlainWrites(d, db, SECOND.req, SECOND.env);
  }

  lemma HeadsRead(d: Digest, db: Db, pool: string)
    requires Inv(d, db)
    ensures ReadHead(db.meta, HeadKey(pool)).Ok? && ReadHead(db.meta, AUDIT_HEAD).Ok?
  {
    assert PoolInv(d, db, pool);
  }

  // ---- what the replay makes of it ----

  lemma SecondIsSorted(rows: seq<EntryRow>)
    requires |rows| == 2 && rows[0].id == "y1" && rows[1].id == "y2"
    ensures Sort(EntryIdLe, rows) == rows
  {
    assert "y1"[1..] == "1" && "y2"[1..] == "2";
    assert StrLe("1", "2");
    SortFixes(EntryIdLe, rows);
  }

  /** The two rows of the second batch, as written. */
  lemma SecondRows(d: Digest) returns (rows: seq<EntryRow>, b: BatchRow, e: EntryRow, c: BatchRow)
    requires Sized(d)
    ensures Filled(AfterFirst(d, MAX), b, e, MAX) && |rows| == 2 && rows[0].id == "y1" && rows[1].id == "y2"
    ensures Moves(rows) == ProposalMoves(OVER)
    ensures Log(Commit(d, AfterFirst(d, MAX), SECOND.req, SECOND.env).0, "pool") == [Item(b, [e]), Item(c, rows)]
  {
    hide Commit, Writes, Verdict, BatchInsertable, PoolInv, AuditInv, Log;
    var db := AfterFirst(d, MAX);
    var after := Commit(d, db, SECOND.req, SECOND.env).0;
    b, e := AfterFirstIs(d, MAX);
    SecondWrites(d);
    rows, c := NewEntries(db, SECOND.req, SECOND.env), NewBatch(d, db, SECOND.req, SECOND.env);
    CommitExtends(d, db, SECOND.req, SECOND.env);
    FilledLog(db, b, e, MAX);
    LogOfWritten(db, after, c, rows, "pool");
    assert [Item(b, [e])] + [Item(c, rows)] == [Item(b, [e]), Item(c, rows)];
  }

  lemma MovesOverflow(ms: seq<Move>)
    requires ms == [Move(A_DKP, MAX), Move(A_DKP, 1), Move(A_DKP, -1)]
    ensures !PrefixesFit(Amounts(ms, A_DKP))
  {
    assert ms[..2] == ([] + [Move(A_DKP, MAX)]) + [Move(A_DKP, 1)];
    GroupSnoc(ByKey, [], Move(A_DKP, MAX), A_DKP);
    GroupSnoc(ByKey, [] + [Move(A_DKP, MAX)], Move(A_DKP, 1), A_DKP);
    assert Amounts(ms[..2], A_DKP) == [MAX] + [1];
    PrefixesFitSnoc([MAX], 1);
    OnlyMoves(MAX);
    GroupOverflows(ByKey, ms, 2, A_DKP);
  }

  lemma OverflowsOnTheWay(items: seq<Item>, b: BatchRow, c: BatchRow, e: EntryRow, rows: seq<EntryRow>)
    requires items == [Item(b, [e]), Item(c, rows)] && MoveOf(e) == Move(A_DKP, MAX) && Moves(rows) == ProposalMoves(OVER)
    ensures !ReplayFits(items)
  {
    hide PrefixesFit, Group, Flat;
    var first := Item(b, [e]);
    assert items == [first] + [Item(c, rows)] && [first] == [] + [first];
    FlatSnoc([], first);
    FlatSnoc([first], Item(c, rows));
    assert Flat([]) == [] by { FlatNone(); }
    assert [] + [e] == [e];
    MovesAppend([e], rows);
    var ms := Moves(Flat(items));
    OverMoves();
    assert ms == [Move(A_DKP, MAX), Move(A_DKP, 1), Move(A_DKP, -1)];
    MovesOverflow(ms);
    assert ms[0] in ms;
  }

  lemma FlatNone()
    ensures Flat([]) == []
  {}

  /**
   * Two accepted commits after which the replay is not clean, though every balance fits: the first
   * fills a balance, and the second nets to zero within one batch, which the cache takes as one
   * delta of 0 and the replay takes entry by entry.
   */
  lemma AcceptedRunIsNotClean(d: Digest)
    requires Sized(d)
    ensures Genesis(GUILD)
    ensures Commit(d, GUILD, FIRST.req, FIRST.env).1.Ok?
    ensures Commit(d, Run(d, GUILD, [FIRST]), SECOND.req, SECOND.env).1.Ok?
    ensures !Clean(d, Run(d, GUILD, [FIRST, SECOND]))
  {
    hide Writes, Clean, ReplayFits, Log, Filled;
    GuildIsGenesis();
    FirstWrites(d, MAX);
    SecondWrites(d);
    RunOfTwo(d);
    var after := Run(d, GUILD, [FIRST, SECOND]);
    EveryRunVerifies(d, GUILD, [FIRST, SECOND]);
    WritesIsOk(d, GUILD, FIRST.req, FIRST.env);
    WritesIsOk(d, AfterFirst(d, MAX), SECOND.req, SECOND.env);
    SecondReplayOverflows(d);
    CommitKeepsAccounts(d, GUILD, FIRST.req, FIRST.env);
    CommitKeepsAccounts(d, AfterFirst(d, MAX), SECOND.req, SECOND.env);
    assert "pool" in after.pools;
  }

  lemma RunOfTwo(d: Digest)
    ensures Run(d, GUILD, [FIRST]) == AfterFirst(d, MAX)
    ensures Run(d, GUILD, [FIRST, SECOND]) == Commit(d, AfterFirst(d, MAX), SECOND.req, SECOND.env).0
  {
    hide Commit;
    assert [FIRST][..0] == [] && [FIRST, SECOND][..1] == [FIRST];
  }

  lemma WritesIsOk(d: Digest, db: Db, req: CommitRequest, env: Env)
    requires Writes(d, db, req, env)
    ensures Commit(d, db, req, env).1.Ok?
  {
    hide Refusal, WriteFailure, Replays;
  }

  lemma SecondReplayOverflows(d: Digest)
    requires Sized(d)
    ensures !ReplayFits(Replay(Commit(d, AfterFirst(d, MAX), SECOND.req, SECOND.env).0, "pool"))
  {
    hide Commit, Writes, Log, Replay, ReplayFits, KeysOk, AuditInv, Flat, Moves;
    var after := Commit(d, AfterFirst(d, MAX), SECOND.req, SECOND.env).0;
    var rows, b, e, c := SecondRows(d);
    SecondWrites(d);
    CommitKeepsInv(d, AfterFirst(d, MAX), SECOND.req, SECOND.env);
    assert PoolInv(d, after, "pool");
    ReplayIsLog(d, after, "pool");
    SecondIsSorted(rows);
    assert Sort(EntryIdLe, [e]) == [e];
    assert InIdOrder(Log(after, "pool")) == [Item(b, [e]), Item(c, rows)];
    OverflowsOnTheWay(Replay(after, "pool"), b, c, e, rows);
  }

  // ---- the per-account delta can overflow ----

  const SEESAW: seq<EntryProposal> := [Award("a", MAX), Award("b", -MAX), Award("a", 1)]

  /**
   * Running totals of MAX, 0 and 1 pass the batch rule, and the first account's delta does not fit:
   * the branch that refuses it is reached, and nothing is written.
   */
  lemma DeltaOverflowIsReached(d: Digest)
    ensures Commit(d, GUILD, Request(SEESAW), Calm('x')) == (GUILD, Err(DeltaOverflow))
  {
    hide ProposalMoves, Moves, Link, DeltasFit, PrefixesFit, Sum, Group, Written, BooksFailure;
    SeesawSums();
    var req, env := Request(SEESAW), Calm('x');
    var b, rows := NewBatch(d, GUILD, req, env), NewEntries(GUILD, req, env);
    RowsOfNewBatch(req, env, NextPoolSeq(GUILD, req.pool));
    SeesawRows(d);
  }

  lemma SeesawSums()
    ensures var ms := ProposalMoves(SEESAW);
            PrefixesFit(AllAmounts(ms)) && !DeltasFit(ms)
  {
    var a, b, c := Move(A_DKP, MAX), Move(SnapKey("b", "dkp"), -MAX), Move(A_DKP, 1);
    var ms := ProposalMoves(SEESAW);
    assert ms == (([] + [a]) + [b]) + [c] && AllAmounts(ms) == (([] + [MAX]) + [-MAX]) + [1];
    PrefixesFitSnoc([], MAX);
    PrefixesFitSnoc([] + [MAX], -MAX);
    PrefixesFitSnoc(([] + [MAX]) + [-MAX], 1);
    SumSnoc([], MAX);
    SumSnoc([] + [MAX], -MAX);
    GroupSnoc(ByKey, [], a, A_DKP);
    GroupSnoc(ByKey, [] + [a], b, A_DKP);
    GroupSnoc(ByKey, ([] + [a]) + [b], c, A_DKP);
    assert Amounts(ms, A_DKP) == [MAX] + [1];
    assert [MAX] == [] + [MAX];
    PrefixesFitSnoc([MAX], 1);
    assert ms[0] in ms;
    assert A_DKP in Keys(ms);
  }

  lemma SeesawRows(d: Digest)
    ensures var req, env := Request(SEESAW), Calm('x');
            RowsFailure(GUILD, NewBatch(d, GUILD, req, env), NewEntries(GUILD, req, env), env.fails) == Some(DeltaOverflow)
  {
    SeesawSums();
    hide Link, DeltasFit, UpsertFits;
    var req, env := Request(SEESAW), Calm('x');
    var b, rows := NewBatch(d, GUILD, req, env), NewEntries(GUILD, req, env);
    RowsOfNewBatch(req, env, NextPoolSeq(GUILD, req.pool));
    var db1 := GUILD.(batches := GUILD.batches + [b]);
    assert b in db1.batches;
    forall i | 0 <= i < |rows| ensures !EntryFails(db1, rows, i, env.fails) {}
  }
}
