/** The two standings reads (internal/ledger/standings.go): from the cache, and from the log. */
module Standings {
  import opened Wrappers
  import opened Int64
  import opened Ordering
  import opened Rows
  import opened Queries
  import opened CommitSpec
  import opened VerifySpec
  import opened Attestation
  import opened LedgerInvariant
  import opened Runs
  import opened Proposals
  import opened Invariants
  import opened History
  import opened Soundness

  datatype Standing = Standing(account: string, amount: int, asOf: int, count: int)

  // ---- the two queries ----

  /** `ORDER BY amount_cp DESC, account_id ASC`. */
  predicate RankLe(a: Standing, b: Standing) {
    a.amount > b.amount || (a.amount == b.amount && StrLe(a.account, b.account))
  }

  /** A negative LIMIT is no limit. */
  function Limit<T>(rows: seq<T>, limit: int): seq<T> {
    if limit < 0 || |rows| <= limit then rows else rows[..limit]
  }

  function OfKind(keys: set<SnapKey>, kind: string): set<SnapKey> { set k | k in keys && k.kind == kind }

  function CachedRow(cache: map<SnapKey, Snap>, k: SnapKey): Standing {
    if k in cache then Standing(k.account, cache[k].amount, cache[k].asOf, cache[k].count) else Standing(k.account, 0, 0, 0)
  }

  /** One group of `SUM(amount_cp), COUNT(*) … GROUP BY account_id`. */
  function SummedRow(es: seq<EntryRow>, asOf: int, k: SnapKey): Standing {
    Standing(k.account, Net(Moves(es), k), asOf, |Amounts(Moves(es), k)|)
  }

  ghost function FromSnapshot(db: Db, pool: string, kind: string, limit: int): seq<Standing> {
    var cache := CacheOf(db, pool);
    Limit(Sort(RankLe, Map((k: SnapKey) => CachedRow(cache, k), KeySeq(OfKind(cache.Keys, kind)))), limit)
  }

  ghost function FromLedger(db: Db, pool: string, kind: string, asOf: int, limit: int): seq<Standing> {
    var es := Upto(db.entries, pool, asOf);
    Limit(Sort(RankLe, Map((k: SnapKey) => SummedRow(es, asOf, k), KeySeq(OfKind(Keys(Moves(es)), kind)))), limit)
  }

  // ---- what a page is ----

  /** In front of: more points, or as many and the smaller account. */
  ghost predicate Ahead(a: Standing, b: Standing) {
    a.amount > b.amount || (a.amount == b.amount && StrLt(a.account, b.account))
  }

  /**
   * The first rows of a table with one row an account: as many as the limit allows, every one in front
   * of those after it, and in front of everybody who is not listed.
   */
  ghost predicate IsTop(page: seq<Standing>, table: map<string, Standing>, limit: int) {
    && |page| == (if 0 <= limit < |table| then limit else |table|)
    && (forall s :: s in page ==> s.account in table && s == table[s.account])
    && (forall i, j :: 0 <= i < j < |page| ==> Ahead(page[i], page[j]))
    && forall s, a :: s in page && a in table && table[a] !in page ==> Ahead(s, table[a])
  }

  /** The cached balances of one kind, by account. */
  ghost function CachedTable(cache: map<SnapKey, Snap>, kind: string): map<string, Standing> {
    map k | k in cache && k.kind == kind :: k.account := Standing(k.account, cache[k].amount, cache[k].asOf, cache[k].count)
  }

  /** The entries of one account and kind in a pool, as of a seq. */
  ghost function RowsOf(es: seq<EntryRow>, pool: string, account: string, kind: string, asOf: int): seq<EntryRow> {
    Filter((e: EntryRow) => e.pool == pool && e.seqNo <= asOf && e.account == account && e.kind == kind, es)
  }

  ghost function AmountsOf(es: seq<EntryRow>): seq<int> { Map<EntryRow, int>((e: EntryRow) => e.amount, es) }

  ghost function SummedAccount(db: Db, pool: string, account: string, kind: string, asOf: int): Standing {
    var es := RowsOf(db.entries, pool, account, kind, asOf);
    Standing(account, Sum(AmountsOf(es)), asOf, |es|)
  }

  /** Every account with an entry of the kind up to the seq, with the sum and the count of those entries. */
  ghost function SummedTable(db: Db, pool: string, kind: string, asOf: int): map<string, Standing> {
    map e | e in db.entries && e.pool == pool && e.seqNo <= asOf && e.kind == kind :: e.account :=
      SummedAccount(db, pool, e.account, kind, asOf)
  }

  lemma AheadIsRank(a: Standing, b: Standing)
    requires RankLe(a, b) && a.account != b.account
    ensures Ahead(a, b)
  {}

  lemma {:induction false} DistinctSize(page: seq<Standing>, names: set<string>)
    requires DistinctBy(AccountOf, page) && forall a :: a in names <==> exists s :: s in page && s.account == a
    ensures |page| == |names|
  {
    if page == [] {
      assert names == {};
    } else {
      var n := |page| - 1;
      var last := page[n].account;
      assert page == page[..n] + [page[n]];
      assert page[n] in page;
      forall a ensures a in names - {last} <==> exists s :: s in page[..n] && s.account == a {
        if s :| s in page[..n] && s.account == a {
          var i :| 0 <= i < n && page[i] == s;
          assert AccountOf(page[i]) != AccountOf(page[n]);
          assert s in page;
        }
        if a in names - {last} { var s :| s in page && s.account == a; }
      }
      forall i, j | 0 <= i < j < n ensures AccountOf(page[..n][i]) != AccountOf(page[..n][j]) {
        assert AccountOf(page[i]) != AccountOf(page[j]);
      }
      DistinctSize(page[..n], names - {last});
    }
  }

  /** Sorting one row an account by rank and cutting at the limit gives the top of the table. */
  lemma RankedIsTop(keys: set<SnapKey>, kind: string, row: SnapKey -> Standing, table: map<string, Standing>, limit: int)
    requires forall k :: row(k).account == k.account
    requires forall a :: a in table <==> SnapKey(a, kind) in keys
    requires forall a :: a in table ==> table[a] == row(SnapKey(a, kind))
    ensures IsTop(Limit(Sort(RankLe, Map(row, KeySeq(OfKind(keys, kind)))), limit), table, limit)
  {
    hide KeySeq, RankLe, Ahead, Sort, Map;
    var listed := KeySeq(OfKind(keys, kind));
    var rows := Map(row, listed);
    var sorted := Sort(RankLe, rows);
    KeySeqMembers(OfKind(keys, kind));
    RowsAreTable(keys, kind, row, table, rows);
    RankLeIsOrder();
    SortSorts(RankLe, rows);
    SortKeeps(RankLe, rows);
    SortMembers(RankLe, rows);
    DistinctPermutes(AccountOf, sorted, rows);
    forall i, j | 0 <= i < j < |sorted| ensures Ahead(sorted[i], sorted[j]) {
      assert AccountOf(sorted[i]) != AccountOf(sorted[j]);
      AheadIsRank(sorted[i], sorted[j]);
    }
    TopIsFirst(sorted, table, limit);
  }

  lemma RowsAreTable(keys: set<SnapKey>, kind: string, row: SnapKey -> Standing, table: map<string, Standing>, rows: seq<Standing>)
    requires forall k :: row(k).account == k.account
    requires forall a :: a in table <==> SnapKey(a, kind) in keys
    requires forall a :: a in table ==> table[a] == row(SnapKey(a, kind))
    requires rows == Map(row, KeySeq(OfKind(keys, kind)))
    ensures DistinctBy(AccountOf, rows)
    ensures forall s :: s in rows <==> s.account in table && s == table[s.account]
  {
    hide KeySeq;
    var listed := KeySeq(OfKind(keys, kind));
    KeySeqMembers(OfKind(keys, kind));
    forall i, j | 0 <= i < j < |rows| ensures AccountOf(rows[i]) != AccountOf(rows[j]) {
      assert listed[i] in listed && listed[j] in listed && KeyLe(listed[i], listed[j]) && !KeyLe(listed[j], listed[i]);
    }
    forall s ensures s in rows <==> s.account in table && s == table[s.account] {
      if s in rows {
        var i :| 0 <= i < |rows| && rows[i] == s;
        assert listed[i] in listed && listed[i] == SnapKey(s.account, kind);
      }
      if s.account in table && s == table[s.account] {
        assert SnapKey(s.account, kind) in listed;
        var i :| 0 <= i < |listed| && listed[i] == SnapKey(s.account, kind);
        assert rows[i] == s;
      }
    }
  }

  lemma TopIsFirst(sorted: seq<Standing>, table: map<string, Standing>, limit: int)
    requires DistinctBy(AccountOf, sorted) && forall i, j :: 0 <= i < j < |sorted| ==> Ahead(sorted[i], sorted[j])
    requires forall s :: s in sorted <==> s.account in table && s == table[s.account]
    requires forall a :: a in table ==> table[a].account == a
    ensures IsTop(Limit(sorted, limit), table, limit)
  {
    hide Ahead;
    var page := Limit(sorted, limit);
    DistinctSize(sorted, table.Keys);
    forall s | s in page ensures s in sorted {
      var i :| 0 <= i < |page| && page[i] == s;
      assert sorted[i] == s;
    }
    forall s, a | s in page && a in table && table[a] !in page ensures Ahead(s, table[a]) {
      var i :| 0 <= i < |page| && page[i] == s;
      assert table[a] in sorted;
      var j :| 0 <= j < |sorted| && sorted[j] == table[a];
      forall m | 0 <= m < |page| ensures sorted[m] != table[a] { assert page[m] in page; }
      assert Ahead(sorted[i], sorted[j]);
    }
  }

  /** Highest first, ties by account, nobody twice, nobody missed: the order is total, so a page is stable. */
  lemma SnapshotIsRanked(db: Db, pool: string, kind: string, limit: int)
    ensures IsTop(FromSnapshot(db, pool, kind, limit), CachedTable(CacheOf(db, pool), kind), limit)
  {
    hide KeySeq, Sort, IsTop;
    var cache := CacheOf(db, pool);
    RankedIsTop(cache.Keys, kind, (k: SnapKey) => CachedRow(cache, k), CachedTable(cache, kind), limit);
  }

  // ---- a group of the log is its rows ----

  lemma AmountsSnoc(es: seq<EntryRow>, e: EntryRow)
    ensures AmountsOf(es + [e]) == AmountsOf(es) + [e.amount]
  {}

  lemma {:induction false} GroupIsFiltered(es: seq<EntryRow>, pool: string, account: string, kind: string, asOf: int)
    ensures Amounts(Moves(Upto(es, pool, asOf)), SnapKey(account, kind)) == AmountsOf(RowsOf(es, pool, account, kind, asOf))
  {
    hide Moves, AmountsOf;
    var k := SnapKey(account, kind);
    if es == [] {
      EmptyGroup(k);
    } else {
      var n := |es| - 1;
      var e, pre, kept := es[n], Upto(es[..n], pool, asOf), RowsOf(es[..n], pool, account, kind, asOf);
      GroupIsFiltered(es[..n], pool, account, kind, asOf);
      MovesSnoc(pre, e);
      GroupSnoc(ByKey, Moves(pre), MoveOf(e), k);
      AmountsSnoc(kept, e);
      assert pre + [] == pre && kept + [] == kept;
    }
  }

  lemma SummedIsGroup(db: Db, pool: string, account: string, kind: string, asOf: int)
    ensures SummedAccount(db, pool, account, kind, asOf) == SummedRow(Upto(db.entries, pool, asOf), asOf, SnapKey(account, kind))
  {
    hide Moves, Upto, Group, RowsOf, Sum;
    GroupIsFiltered(db.entries, pool, account, kind, asOf);
  }

  /** A balance as of a seq is the sum of that account's amounts up to it, added row by row. */
  lemma BalanceIsSum(es: seq<EntryRow>, pool: string, account: string, kind: string, asOf: int)
    ensures Balance(es, pool, SnapKey(account, kind), asOf) == Sum(AmountsOf(RowsOf(es, pool, account, kind, asOf)))
  {
    GroupIsFiltered(es, pool, account, kind, asOf);
  }

  lemma EmptyGroup(k: SnapKey)
    ensures Amounts(Moves([]), k) == [] && AmountsOf([]) == []
  {}

  lemma KeyOfUpto(es: seq<EntryRow>, pool: string, account: string, kind: string, asOf: int)
    ensures SnapKey(account, kind) in Keys(Moves(Upto(es, pool, asOf))) <==>
      exists e :: e in es && e.pool == pool && e.seqNo <= asOf && e.kind == kind && e.account == account
  {
    var k, rows := SnapKey(account, kind), Upto(es, pool, asOf);
    UptoIsFilter(es, pool, asOf);
    FilterMembers((e: EntryRow) => e.pool == pool && e.seqNo <= asOf, es);
    KeyFromRow(rows);
    if e :| e in es && e.pool == pool && e.seqNo <= asOf && e.kind == kind && e.account == account {
      assert e in rows && MoveOf(e).key == k;
    }
  }

  /** The same of the read over the log, as of any seq. */
  lemma LedgerIsRanked(db: Db, pool: string, kind: string, asOf: int, limit: int)
    ensures IsTop(FromLedger(db, pool, kind, asOf, limit), SummedTable(db, pool, kind, asOf), limit)
  {
    hide KeySeq, Sort, IsTop, Moves, Keys, Upto, SummedAccount, SummedRow;
    var es, table := Upto(db.entries, pool, asOf), SummedTable(db, pool, kind, asOf);
    forall a ensures a in table <==> SnapKey(a, kind) in Keys(Moves(es)) { KeyOfUpto(db.entries, pool, a, kind, asOf); }
    forall a | a in table ensures table[a] == SummedRow(es, asOf, SnapKey(a, kind)) {
      SummedIsGroup(db, pool, a, kind, asOf);
    }
    forall k ensures SummedRow(es, asOf, k).account == k.account { SummedAsOf(es, asOf, k); }
    RankedIsTop(Keys(Moves(es)), kind, (k: SnapKey) => SummedRow(es, asOf, k), table, limit);
  }

  // ---- the readers ----

  method QuerySnapshot(db: Db, pool: string, kind: string, limit: int) returns (rows: seq<Standing>)
    ensures rows == FromSnapshot(db, pool, kind, limit)
  {
    var cache := CacheOf(db, pool);
    var keys := SortedKeys(OfKind(cache.Keys, kind));
    rows := Limit(Sort(RankLe, Map((k: SnapKey) => CachedRow(cache, k), keys)), limit);
  }

  method QueryLedger(db: Db, pool: string, kind: string, asOf: int, limit: int) returns (rows: seq<Standing>)
    ensures rows == FromLedger(db, pool, kind, asOf, limit)
  {
    var es := Upto(db.entries, pool, asOf);
    var keys := SortedKeys(OfKind(Keys(Moves(es)), kind));
    rows := Limit(Sort(RankLe, Map((k: SnapKey) => SummedRow(es, asOf, k), keys)), limit);
  }

  /** StandingsFromSnapshot: copy the rows, in the order the index yields them. */
  method StandingsFromSnapshot(db: Db, pool: string, kind: string, limit: int) returns (out: array<Standing>)
    ensures out[..] == FromSnapshot(db, pool, kind, limit)
    ensures IsTop(out[..], CachedTable(CacheOf(db, pool), kind), limit)
  {
    hide IsTop;
    SnapshotIsRanked(db, pool, kind, limit);
    var rows := QuerySnapshot(db, pool, kind, limit);
    out := new Standing[|rows|];
    for i := 0 to |rows|
      invariant out[..i] == rows[..i]
    {
      out[i] := Standing(rows[i].account, rows[i].amount, rows[i].asOf, rows[i].count);
    }
    assert rows[..|rows|] == rows;
  }

  /** StandingsFromLedger: the same, with the requested seq as each row's as-of. */
  method StandingsFromLedger(db: Db, pool: string, kind: string, asOf: int, limit: int) returns (out: array<Standing>)
    ensures out[..] == FromLedger(db, pool, kind, asOf, limit)
    ensures IsTop(out[..], SummedTable(db, pool, kind, asOf), limit)
  {
    hide IsTop;
    LedgerIsRanked(db, pool, kind, asOf, limit);
    var rows := QueryLedger(db, pool, kind, asOf, limit);
    LedgerAsOf(db, pool, kind, asOf, limit);
    out := new Standing[|rows|];
    for i := 0 to |rows|
      invariant out[..i] == rows[..i]
    {
      out[i] := Standing(rows[i].account, rows[i].amount, asOf, rows[i].count);
    }
    assert rows[..|rows|] == rows;
  }

  lemma LedgerAsOf(db: Db, pool: string, kind: string, asOf: int, limit: int)
    ensures forall i :: 0 <= i < |FromLedger(db, pool, kind, asOf, limit)| ==> FromLedger(db, pool, kind, asOf, limit)[i].asOf == asOf
  {
    hide KeySeq, SummedRow;
    var es := Upto(db.entries, pool, asOf);
    var rows := Map((k: SnapKey) => SummedRow(es, asOf, k), KeySeq(OfKind(Keys(Moves(es)), kind)));
    assert forall k :: SummedRow(es, asOf, k).asOf == asOf by { forall k ensures SummedRow(es, asOf, k).asOf == asOf { SummedAsOf(es, asOf, k); } }
    SortMembers(RankLe, rows);
    var sorted := Sort(RankLe, rows);
    forall i | 0 <= i < |sorted| ensures sorted[i].asOf == asOf { assert sorted[i] in sorted; }
  }

  lemma SummedAsOf(es: seq<EntryRow>, asOf: int, k: SnapKey)
    ensures SummedRow(es, asOf, k).asOf == asOf && SummedRow(es, asOf, k).account == k.account
  {}

  // ---- the order ----

  lemma RankLeIsOrder()
    ensures Total(RankLe) && Transitive(RankLe)
  {
    forall a: Standing, b: Standing ensures RankLe(a, b) || RankLe(b, a) { StrLeTotal(a.account, b.account); }
    forall a: Standing, b: Standing, c: Standing ensures RankLe(a, b) && RankLe(b, c) ==> RankLe(a, c) {
      if StrLe(a.account, b.account) && StrLe(b.account, c.account) { StrLeTransitive(a.account, b.account, c.account); }
    }
  }

  function AccountOf(s: Standing): string { s.account }

  // ---- the cache and the log give one answer ----

  function AsOf(asOf: int, s: Standing): Standing { s.(asOf := asOf) }

  /** A cache that mirrors the entries up to a seq ranks as the entries do, whatever the limit. */
  lemma MirroredStandings(db: Db, pool: string, kind: string, asOf: int, limit: int)
    requires Mirrors(CacheOf(db, pool), Upto(db.entries, pool, asOf))
    ensures FromLedger(db, pool, kind, asOf, limit)
         == Map((s: Standing) => AsOf(asOf, s), FromSnapshot(db, pool, kind, limit))
  {
    hide KeySeq, Moves, Net, Amounts, LastSeq, Keys, Sort, Upto;
    var cache, es := CacheOf(db, pool), Upto(db.entries, pool, asOf);
    var keys := KeySeq(OfKind(cache.Keys, kind));
    KeySeqMembers(OfKind(cache.Keys, kind));
    var f := (s: Standing) => AsOf(asOf, s);
    var cached := Map((k: SnapKey) => CachedRow(cache, k), keys);
    var summed := Map((k: SnapKey) => SummedRow(es, asOf, k), keys);
    forall i | 0 <= i < |keys| ensures f(cached[i]) == summed[i] {
      assert keys[i] in keys;
      assert RowMirrors(cache[keys[i]], es, keys[i]);
    }
    assert Map(f, cached) == summed;
    SortMaps(RankLe, f, cached);
  }

  // ---- from a clean report, and from any run ----

  lemma UptoHead(d: Digest, db: Db, pool: string)
    requires Schema(db) && forall p :: p in db.pools ==> ChainHolds(d, Replay(db, p))
    requires forall e :: e in db.entries && e.pool == pool ==> Visible(db, e)
    ensures Upto(db.entries, pool, Head(db, pool)) == Entries(db, pool)
  {
    hide ChainHolds, Replay;
    forall e | e in db.entries && e.pool == pool ensures e.seqNo <= Head(db, pool) {
      var b :| b in db.batches && b.head.id == e.batch && b.head.seqNo > 0;
      CleanEntry(d, db, b, e);
      PoolBatchesMembers(db.batches, pool);
      BelowMax(PoolBatches(db.batches, pool), b);
    }
    UptoIsFilter(db.entries, pool, Head(db, pool));
    FilterAgrees((e: EntryRow) => e.pool == pool && e.seqNo <= Head(db, pool), (e: EntryRow) => e.pool == pool, db.entries);
  }

  /**
   * A clean report means the fast read is the definitional one: at the head, for every kind and
   * every limit, the two return the same accounts, amounts and counts in the same order.
   */
  lemma CleanStandingsAgree(d: Digest, db: Db, pool: string, kind: string, limit: int)
    requires Schema(db) && Clean(d, db) && pool in db.pools && FIRST_KEY !in CacheOf(db, pool)
    requires forall e :: e in db.entries && e.pool == pool ==> Visible(db, e)
    ensures FromLedger(db, pool, kind, Head(db, pool), limit)
         == Map((s: Standing) => AsOf(Head(db, pool), s), FromSnapshot(db, pool, kind, limit))
  {
    hide Clean, Schema, Visible, Mirrors, ChainHolds, PoolHolds, FromLedger, FromSnapshot, Replay;
    CleanPools(d, db);
    NamedAccountsTableIff(d, db, pool);
    UptoHead(d, db, pool);
    MirroredStandings(db, pool, kind, Head(db, pool), limit);
  }

  ghost predicate PoolsOk(db: Db) { forall b :: b in db.batches ==> b.head.pool in db.pools }

  lemma CommitKeepsPools(d: Digest, db: Db, req: CommitRequest, env: Env)
    requires PoolsOk(db)
    ensures PoolsOk(Commit(d, db, req, env).0)
  {
    hide Commit, Writes, Verdict;
    CommitExtends(d, db, req, env);
  }

  lemma {:induction false} RunKeepsPools(d: Digest, db: Db, steps: seq<Step>)
    requires PoolsOk(db)
    ensures PoolsOk(Run(d, db, steps)) && Run(d, db, steps).pools == db.pools
  {
    hide Commit, PoolsOk;
    if steps != [] {
      var n := |steps| - 1;
      RunKeepsPools(d, db, steps[..n]);
      CommitKeepsPools(d, Run(d, db, steps[..n]), steps[n].req, steps[n].env);
      CommitKeepsAccounts(d, Run(d, db, steps[..n]), steps[n].req, steps[n].env);
    }
  }

  lemma InvWalks(d: Digest, db: Db)
    requires Inv(d, db)
    ensures forall p :: ChainHolds(d, Replay(db, p))
  {
    hide Replay, Log, BatchHolds, AuditInv, KeysOk, Mirrors;
    forall p ensures ChainHolds(d, Replay(db, p)) {
      assert PoolInv(d, db, p);
      ReplayIsLog(d, db, p);
      forall i | 0 <= i < |Log(db, p)| ensures BatchHolds(d, InIdOrder(Log(db, p)), i) { ItemInIdOrder(d, Log(db, p), i); }
    }
  }

  lemma InvVisible(d: Digest, db: Db, e: EntryRow)
    requires Inv(d, db) && e in db.entries
    ensures Visible(db, e)
  {
    hide AuditInv, Link, Mirrors;
    assert HasBatch(db.batches, e.batch);
    var b :| b in db.batches && b.head.id == e.batch;
    var i := BatchInItsPool(db, b);
    assert PoolInv(d, db, b.head.pool);
    assert BatchHolds(d, Log(db, b.head.pool), i);
  }

  /** Under the invariant the cache is the sums over the whole table. */
  lemma InvCacheIsTheTable(d: Digest, db: Db, pool: string)
    requires Inv(d, db) && PoolsOk(db) && pool in db.pools
    ensures Mirrors(CacheOf(db, pool), Upto(db.entries, pool, Head(db, pool)))
  {
    hide ChainHolds, Replay, Mirrors, KeysOk, AuditInv, Visible, Flat;
    InvWalks(d, db);
    forall e | e in db.entries ensures Visible(db, e) { InvVisible(d, db, e); }
    WalkIsVisible(d, db, pool);
    FilterAgrees((e: EntryRow) => e.pool == pool, (e: EntryRow) => e.pool == pool && Visible(db, e), db.entries);
    UptoHead(d, db, pool);
    assert PoolInv(d, db, pool);
    ReplayIsLog(d, db, pool);
    FlatInIdOrder(Log(db, pool));
    MirrorsPermutes(CacheOf(db, pool), Flat(Log(db, pool)), Entries(db, pool));
  }

  /** After any run, overflow of the replay or not, the cache is the sums over the whole table. */
  lemma RunCacheIsTheTable(d: Digest, db: Db, steps: seq<Step>, pool: string)
    requires Sized(d) && Genesis(db) && pool in db.pools
    ensures var after := Run(d, db, steps);
            Mirrors(CacheOf(after, pool), Upto(after.entries, pool, Head(after, pool)))
  {
    hide Inv, Mirrors;
    GenesisInv(d, db);
    RunKeepsInv(d, db, steps);
    RunKeepsPools(d, db, steps);
    InvCacheIsTheTable(d, Run(d, db, steps), pool);
  }

  /** The standings of any reachable ledger agree at its head. */
  lemma RunStandingsAgree(d: Digest, db: Db, steps: seq<Step>, pool: string, kind: string, limit: int)
    requires Sized(d) && Genesis(db) && pool in db.pools
    ensures var after := Run(d, db, steps);
            FromLedger(after, pool, kind, Head(after, pool), limit)
              == Map((s: Standing) => AsOf(Head(after, pool), s), FromSnapshot(after, pool, kind, limit))
  {
    hide FromLedger, FromSnapshot, Mirrors, Genesis, Upto;
    RunCacheIsTheTable(d, db, steps, pool);
    MirroredStandings(Run(d, db, steps), pool, kind, Head(Run(d, db, steps), pool), limit);
  }
}
