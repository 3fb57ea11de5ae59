/** One chain head stands for one history: two clean ledgers that agree on it agree on everything. */
module Binding {
  import opened Wrappers
  import opened Int64
  import opened Ordering
  import opened Rows
  import opened Hex
  import opened Queries
  import opened CommitSpec
  import opened VerifySpec
  import opened Attestation
  import opened LedgerInvariant
  import opened Runs
  import opened Standings
  import opened Range
  import opened HashChain
  import opened Soundness
  import opened Damage
  import opened EntryDamage

  ghost predicate Sha256Like(sha: Bytes -> Bytes) { forall x: Bytes :: |sha(x)| == HASH_LENGTH }

  lemma ChainIsSized(sha: Bytes -> Bytes)
    requires Sha256Like(sha)
    ensures Sized(Chain(sha))
  {
    hide BatchPreimage, AuditPreimage;
    forall prev: Bytes, h: BatchHeader, es: seq<EntryRow> ensures |Chain(sha).link(prev, h, es)| == HASH_LENGTH {
      assert Chain(sha).link(prev, h, es) == sha(BatchPreimage(prev, h, es));
    }
    forall prev: Bytes, b: AuditBody ensures |Chain(sha).audit(prev, b)| == HASH_LENGTH {
      assert Chain(sha).audit(prev, b) == sha(AuditPreimage(prev, b));
    }
  }

  /** What batch `i` of a walk hashes. */
  function PreimageAt(items: seq<Item>, i: nat): Bytes
    requires i < |items|
  {
    BatchPreimage(items[i].batch.prevHash, items[i].batch.head, items[i].entries)
  }

  /** No batch of the one walk and batch of the other hash alike from different preimages. */
  ghost predicate NoCollision(sha: Bytes -> Bytes, a: seq<Item>, b: seq<Item>) {
    forall i, j :: 0 <= i < |a| && 0 <= j < |b| && sha(PreimageAt(a, i)) == sha(PreimageAt(b, j))
      ==> PreimageAt(a, i) == PreimageAt(b, j)
  }

  ghost predicate UlidBatches(items: seq<Item>) { forall i :: 0 <= i < |items| ==> IsUlid(items[i].batch.head.id) }

  ghost predicate InOrder(items: seq<Item>) {
    forall i :: 0 <= i < |items| ==> Sort(EntryIdLe, items[i].entries) == items[i].entries
  }

  lemma {:induction false} HashAt(sha: Bytes -> Bytes, items: seq<Item>, i: nat)
    requires Sha256Like(sha) && i < |items| && ChainHolds(Chain(sha), items) && InOrder(items)
    ensures items[i].batch.hash == sha(PreimageAt(items, i)) && |items[i].batch.hash| == HASH_LENGTH
    ensures items[i].batch.prevHash == HashBefore(items, i) && Linkable(items[i].batch.prevHash)
  {
    hide BatchPreimage;
    assert BatchHolds(Chain(sha), items, i);
    if i > 0 { HashAt(sha, items, i - 1); }
  }

  /** Equal hashes before two positions make everything before them equal, position by position. */
  lemma {:induction false} ChainBinds(sha: Bytes -> Bytes, a: seq<Item>, n: nat, b: seq<Item>, m: nat)
    requires Sha256Like(sha) && n <= |a| && m <= |b|
    requires ChainHolds(Chain(sha), a) && InOrder(a) && UlidBatches(a)
    requires ChainHolds(Chain(sha), b) && InOrder(b) && UlidBatches(b)
    requires NoCollision(sha, a, b) && HashBefore(a, n) == HashBefore(b, m)
    ensures n == m && a[..n] == b[..m]
    decreases n
  {
    hide BatchPreimage, BatchHolds, IsUlid, ChainHolds, Sha256Like, InOrder;
    if n > 0 { HashAt(sha, a, n - 1); }
    if m > 0 { HashAt(sha, b, m - 1); }
    if n > 0 && m > 0 {
      var x, y := a[n - 1], b[m - 1];
      assert PreimageAt(a, n - 1) == PreimageAt(b, m - 1);
      BatchPreimageInjective(x.batch.prevHash, y.batch.prevHash, x.batch.head, y.batch.head, x.entries, y.entries);
      assert x == y;
      ChainBinds(sha, a, n - 1, b, m - 1);
      assert a[..n] == a[..n - 1] + [x] && b[..m] == b[..m - 1] + [y];
    }
  }

  lemma ReplayInOrder(db: Db, pool: string)
    ensures InOrder(Replay(db, pool))
  {
    hide WalkedBatches;
    var items := Replay(db, pool);
    EntryIdLeIsOrder();
    forall i | 0 <= i < |items| ensures Sort(EntryIdLe, items[i].entries) == items[i].entries {
      var es := EntriesOf(db.entries, items[i].batch.head.id);
      SortSorts(EntryIdLe, es);
      SortFixes(EntryIdLe, Sort(EntryIdLe, es));
    }
  }

  /**
   * Two clean ledgers whose recorded head for a pool is the same hold the same batches and the same
   * entries of that pool. The hash only has to be free of collisions among what they hash, and the
   * batch ids have to be ULIDs.
   */
  lemma HeadBindsHistory(sha: Bytes -> Bytes, one: Db, two: Db, pool: string)
    requires Sha256Like(sha) && Clean(Chain(sha), one) && Clean(Chain(sha), two)
    requires pool in one.pools && pool in two.pools
    requires UlidBatches(Replay(one, pool)) && UlidBatches(Replay(two, pool))
    requires NoCollision(sha, Replay(one, pool), Replay(two, pool))
    requires ReadHead(one.meta, HeadKey(pool)) == ReadHead(two.meta, HeadKey(pool))
    ensures Replay(one, pool) == Replay(two, pool)
    ensures Schema(one) && Schema(two) ==> multiset(VisibleEntries(one, pool)) == multiset(VisibleEntries(two, pool))
  {
    hide Clean, ChainHolds, Mirrors, Sha256Like, NoCollision, UlidBatches, InOrder, Replay, Schema, VisibleEntries;
    var d, a, b := Chain(sha), Replay(one, pool), Replay(two, pool);
    CleanPools(d, one);
    CleanPools(d, two);
    ReplayInOrder(one, pool);
    ReplayInOrder(two, pool);
    ChainBinds(sha, a, |a|, b, |b|);
    assert a[..|a|] == a && b[..|b|] == b;
    if Schema(one) && Schema(two) {
      WalkIsVisible(d, one, pool);
      WalkIsVisible(d, two, pool);
    }
  }

  /** So do any two ledgers that runs of commits can build over the real chain: a head names a history. */
  lemma RunHeadsBind(sha: Bytes -> Bytes, db: Db, other: Db, steps: seq<Step>, others: seq<Step>, pool: string)
    requires Sha256Like(sha) && Genesis(db) && Genesis(other) && "" !in db.accounts && "" !in other.accounts
    requires forall p :: p in db.pools ==> Volume(Entries(Run(Chain(sha), db, steps), p)) <= MAX
    requires forall p :: p in other.pools ==> Volume(Entries(Run(Chain(sha), other, others), p)) <= MAX
    requires pool in db.pools && pool in other.pools
    requires var a, b := Run(Chain(sha), db, steps), Run(Chain(sha), other, others);
             && UlidBatches(Replay(a, pool)) && UlidBatches(Replay(b, pool)) && NoCollision(sha, Replay(a, pool), Replay(b, pool))
             && ReadHead(a.meta, HeadKey(pool)) == ReadHead(b.meta, HeadKey(pool))
    ensures Replay(Run(Chain(sha), db, steps), pool) == Replay(Run(Chain(sha), other, others), pool)
  {
    hide Clean, Run, Replay, Entries, Volume, UlidBatches, NoCollision, Sha256Like, Sized;
    ChainIsSized(sha);
    SmallRunsVerify(Chain(sha), db, steps);
    SmallRunsVerify(Chain(sha), other, others);
    RunKeepsPools(Chain(sha), db, steps);
    RunKeepsPools(Chain(sha), other, others);
    HeadBindsHistory(sha, Run(Chain(sha), db, steps), Run(Chain(sha), other, others), pool);
  }

  // ---- the audit chain ----

  function AuditPreimageAt(rows: seq<AuditRow>, i: nat): Bytes
    requires i < |rows|
  {
    AuditPreimage(rows[i].prevHash, rows[i].body)
  }

  ghost predicate NoAuditCollision(sha: Bytes -> Bytes, a: seq<AuditRow>, b: seq<AuditRow>) {
    forall i, j :: 0 <= i < |a| && 0 <= j < |b| && sha(AuditPreimageAt(a, i)) == sha(AuditPreimageAt(b, j))
      ==> AuditPreimageAt(a, i) == AuditPreimageAt(b, j)
  }

  ghost predicate AuditChainHolds(d: Digest, rows: seq<AuditRow>) {
    forall i :: 0 <= i < |rows| ==> AuditRowHolds(d, rows, i)
  }

  ghost predicate UlidRows(rows: seq<AuditRow>) { forall i :: 0 <= i < |rows| ==> IsUlid(rows[i].body.id) }

  lemma {:induction false} AuditHashAt(sha: Bytes -> Bytes, rows: seq<AuditRow>, i: nat)
    requires Sha256Like(sha) && i < |rows| && AuditChainHolds(Chain(sha), rows)
    ensures rows[i].hash == sha(AuditPreimageAt(rows, i)) && |rows[i].hash| == HASH_LENGTH
    ensures rows[i].prevHash == AuditHashBefore(rows, i) && Linkable(rows[i].prevHash)
  {
    hide AuditPreimage;
    assert AuditRowHolds(Chain(sha), rows, i);
    if i > 0 { AuditHashAt(sha, rows, i - 1); }
  }

  lemma {:induction false} AuditChainBinds(sha: Bytes -> Bytes, a: seq<AuditRow>, n: nat, b: seq<AuditRow>, m: nat)
    requires Sha256Like(sha) && n <= |a| && m <= |b|
    requires AuditChainHolds(Chain(sha), a) && UlidRows(a) && AuditChainHolds(Chain(sha), b) && UlidRows(b)
    requires NoAuditCollision(sha, a, b) && AuditHashBefore(a, n) == AuditHashBefore(b, m)
    ensures n == m && a[..n] == b[..m]
    decreases n
  {
    hide AuditPreimage, AuditRowHolds, IsUlid, AuditChainHolds, Sha256Like;
    if n > 0 { AuditHashAt(sha, a, n - 1); }
    if m > 0 { AuditHashAt(sha, b, m - 1); }
    if n > 0 && m > 0 {
      var x, y := a[n - 1], b[m - 1];
      assert AuditPreimageAt(a, n - 1) == AuditPreimageAt(b, m - 1);
      AuditPreimageInjective(x.prevHash, y.prevHash, x.body, y.body);
      assert x == y;
      AuditChainBinds(sha, a, n - 1, b, m - 1);
      assert a[..n] == a[..n - 1] + [x] && b[..m] == b[..m - 1] + [y];
    }
  }

  /** The same of the audit head and the audit log. */
  lemma AuditHeadBindsLog(sha: Bytes -> Bytes, one: Db, two: Db)
    requires Sha256Like(sha) && Clean(Chain(sha), one) && Clean(Chain(sha), two)
    requires UlidRows(AuditReplay(one)) && UlidRows(AuditReplay(two))
    requires NoAuditCollision(sha, AuditReplay(one), AuditReplay(two))
    requires ReadHead(one.meta, AUDIT_HEAD) == ReadHead(two.meta, AUDIT_HEAD)
    ensures AuditReplay(one) == AuditReplay(two)
  {
    hide Clean, AuditRowHolds, Sha256Like, NoAuditCollision, UlidRows, AuditReplay, PoolHolds, ReplayFits;
    var a, b := AuditReplay(one), AuditReplay(two);
    CleanMeansAttested(Chain(sha), one);
    CleanMeansAttested(Chain(sha), two);
    AuditChainBinds(sha, a, |a|, b, |b|);
    assert a[..|a|] == a && b[..|b|] == b;
  }

  // ---- a rewrite is seen ----

  /**
   * Under the chain's own digest any change to a hashed column is local damage: it is enough that
   * the old and the new contents of the one batch do not collide.
   */
  lemma ChangedColumnIsReported(sha: Bytes -> Bytes, db: Db, b: BatchRow, c: BatchRow)
    requires Clean(Chain(sha), db) && Schema(db) && NoDuplicates(db.pools)
    requires b in db.batches && b.head.seqNo > 0 && ColumnsRewritten(b, c) && c.head != b.head
    requires Linkable(b.prevHash) && IsUlid(b.head.id)
    requires var es := Sort(EntryIdLe, EntriesById(db.entries, b.head.id));
             sha(BatchPreimage(b.prevHash, c.head, es)) == sha(BatchPreimage(b.prevHash, b.head, es)) ==>
               BatchPreimage(b.prevHash, c.head, es) == BatchPreimage(b.prevHash, b.head, es)
    ensures var at := Finding(BatchHashMismatch, b.head.pool, b.head.seqNo, b.head.id, "", "");
            AllFindings(Chain(sha), Rewritten(db, b, c))
              == [at] + One(c.head.entryCount != b.head.entryCount, at.(kind := EntryCountMismatch))
                      + One(c.head.netAmount != b.head.netAmount, at.(kind := NetAmountMismatch))
  {
    hide BatchPreimage, Clean, AllFindings, EntriesById, Sort;
    var es := Sort(EntryIdLe, EntriesById(db.entries, b.head.id));
    if sha(BatchPreimage(b.prevHash, c.head, es)) == sha(BatchPreimage(b.prevHash, b.head, es)) {
      BatchPreimageInjective(b.prevHash, b.prevHash, c.head, b.head, es, es);
    }
    RewriteIsLocal(Chain(sha), db, b, c);
  }

  /**
   * Under the chain's own digest a rewritten previous hash is two findings, the link and the hash:
   * it is enough that the two preimages of this one batch do not collide.
   */
  lemma RelinkIsTwoFindings(sha: Bytes -> Bytes, db: Db, b: BatchRow, prev: Bytes)
    requires Clean(Chain(sha), db) && Schema(db) && NoDuplicates(db.pools)
    requires b in db.batches && b.head.seqNo > 0 && prev != b.prevHash
    requires var es := Sort(EntryIdLe, EntriesById(db.entries, b.head.id));
             sha(BatchPreimage(prev, b.head, es)) == sha(BatchPreimage(b.prevHash, b.head, es)) ==>
               BatchPreimage(prev, b.head, es) == BatchPreimage(b.prevHash, b.head, es)
    ensures var at := Finding(PrevHashMismatch, b.head.pool, b.head.seqNo, b.head.id, "", "");
            AllFindings(Chain(sha), Rewritten(db, b, b.(prevHash := prev))) == [at, at.(kind := BatchHashMismatch)]
  {
    hide BatchPreimage, Clean, AllFindings, EntriesById, Sort;
    var es := Sort(EntryIdLe, EntriesById(db.entries, b.head.id));
    if sha(BatchPreimage(prev, b.head, es)) == sha(BatchPreimage(b.prevHash, b.head, es)) {
      PreimageFixesPrev(prev, b.prevHash, b.head, es);
    }
    RelinkIsLocal(Chain(sha), db, b, prev);
  }

  /** Under the chain's own digest a rewritten amount is always those three findings. */
  lemma ChangedAmountIsReported(sha: Bytes -> Bytes, db: Db, b: BatchRow, e: EntryRow, amount: int64)
    requires Clean(Chain(sha), db) && Schema(db) && NoDuplicates(db.pools) && DistinctBy(EntryId, db.entries)
    requires b in db.batches && b.head.seqNo > 0 && e in db.entries && e.batch == b.head.id && amount != e.amount
    requires Linkable(b.prevHash) && IsUlid(b.head.id)
    requires var es := Sort(EntryIdLe, EntriesById(db.entries, b.head.id));
             var fs := Sort(EntryIdLe, EntriesById(Amended(db, e, e.(amount := amount)).entries, b.head.id));
             sha(BatchPreimage(b.prevHash, b.head, fs)) == sha(BatchPreimage(b.prevHash, b.head, es)) ==>
               BatchPreimage(b.prevHash, b.head, fs) == BatchPreimage(b.prevHash, b.head, es)
    ensures var after, at := Amended(db, e, e.(amount := amount)), Finding(BatchHashMismatch, b.head.pool, b.head.seqNo, b.head.id, "", "");
            AllFindings(Chain(sha), after) ==
              [at, at.(kind := NetAmountMismatch), KeyFinding(b.head.pool, Flat(Replay(after, b.head.pool)), MoveOf(e).key)]
  {
    hide BatchPreimage, Clean, AllFindings, EntriesById, Sort, Amended, KeyFinding, Flat, Replay, Schema;
    var f := e.(amount := amount);
    var es, fs := Sort(EntryIdLe, EntriesById(db.entries, b.head.id)), Sort(EntryIdLe, EntriesById(Amended(db, e, f).entries, b.head.id));
    OnlyBefore(db, b, e, f);
    if sha(BatchPreimage(b.prevHash, b.head, fs)) == sha(BatchPreimage(b.prevHash, b.head, es)) {
      BatchPreimageInjective(b.prevHash, b.prevHash, b.head, b.head, fs, es);
    }
    AmountIsThreeFindings(Chain(sha), db, b, e, amount);
  }

  /** The old row is among the batch's entries before and not after. */
  lemma OnlyBefore(db: Db, b: BatchRow, e: EntryRow, f: EntryRow)
    requires e in db.entries && e.batch == b.head.id && SameSlot(e, f) && f != e
    ensures e in Sort(EntryIdLe, EntriesById(db.entries, b.head.id))
    ensures e !in Sort(EntryIdLe, EntriesById(Amended(db, e, f).entries, b.head.id))
  {
    hide Sort, EntriesOf;
    var es := EntriesById(db.entries, b.head.id);
    EntriesOfMembers(db.entries, b.head.id);
    SortMembers(EntryIdLe, EntriesOf(db.entries, b.head.id));
    SortMembers(EntryIdLe, es);
    EntriesByIdAmended(db.entries, e, f, b.head.id);
    SortMembers(EntryIdLe, Map(Amend(e, f), es));
  }
}
