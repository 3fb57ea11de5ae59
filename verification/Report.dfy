/** The findings of a replay over any database at all, kind by kind, in terms of the rows. */
module Report {
  import opened Wrappers
  import opened Int64
  import opened Ordering
  import opened Rows
  import opened Queries
  import opened Proposals
  import opened CommitSpec
  import opened VerifySpec
  import opened Attestation
  import opened LedgerInvariant
  import Damage

  // ---- what each kind says ----

  /** The finding names batch `i` of its pool, and no account. */
  ghost predicate OnBatch(db: Db, f: Finding, i: nat) {
    && f.pool in db.pools && i < |Replay(db, f.pool)|
    && var b := Replay(db, f.pool)[i].batch.head;
       f.seqNo == b.seqNo && f.batch == b.id && f.account == "" && f.balanceKind == ""
  }

  ghost predicate WrongSeq(items: seq<Item>, i: nat)
    requires i < |items|
  {
    items[i].batch.head.seqNo != if i == 0 then 1 else items[i - 1].batch.head.seqNo + 1
  }

  ghost predicate WrongLink(items: seq<Item>, i: nat)
    requires i < |items|
  {
    items[i].batch.prevHash != if i == 0 then [] else items[i - 1].batch.hash
  }

  ghost predicate WrongHash(d: Digest, item: Item) {
    Link(d, item.batch.prevHash, item.batch.head, item.entries) != item.batch.hash
  }

  ghost predicate WrongNet(item: Item) {
    var xs := AllAmounts(Moves(item.entries));
    !PrefixesFit(xs) || Sum(xs) != item.batch.head.netAmount
  }

  /** The finding names the key of an entry of batch `i` whose pool or seq is not the batch's. */
  ghost predicate OnStrayEntry(db: Db, f: Finding, i: nat) {
    && f.pool in db.pools && i < |Replay(db, f.pool)|
    && var item := Replay(db, f.pool)[i];
       && f.seqNo == item.batch.head.seqNo && f.batch == item.batch.head.id
       && exists e :: e in item.entries && e.account == f.account && e.kind == f.balanceKind
            && (e.pool != f.pool || e.seqNo != item.batch.head.seqNo)
  }

  ghost predicate OnPoolHead(db: Db, f: Finding) {
    f.pool in db.pools && f.batch == "" && f.account == "" && f.balanceKind == ""
  }

  /** The finding names a key, at the last seq its entries carry. */
  ghost predicate OnKey(db: Db, f: Finding) {
    f.pool in db.pools && f.batch == "" && f.seqNo == LastSeq(Flat(Replay(db, f.pool)), FindingKey(f))
  }

  function FindingKey(f: Finding): SnapKey { SnapKey(f.account, f.balanceKind) }

  ghost predicate OnAuditRow(db: Db, f: Finding, i: nat) {
    && i < |AuditReplay(db)| && f.seqNo == AuditReplay(db)[i].body.seqNo
    && f.pool == "" && f.batch == "" && f.account == "" && f.balanceKind == ""
  }

  ghost predicate AuditSays(d: Digest, rows: seq<AuditRow>, i: nat, kind: FindingKind)
    requires i < |rows|
  {
    match kind
    case AuditSeqGap => rows[i].body.seqNo != if i == 0 then 1 else rows[i - 1].body.seqNo + 1
    case AuditPrevHashMismatch => rows[i].prevHash != if i == 0 then [] else rows[i - 1].hash
    case AuditHashMismatch => d.audit(rows[i].prevHash, rows[i].body) != rows[i].hash
    case _ => false
  }

  ghost predicate BatchSays(d: Digest, items: seq<Item>, i: nat, kind: FindingKind)
    requires i < |items|
  {
    match kind
    case SeqGap => WrongSeq(items, i)
    case PrevHashMismatch => WrongLink(items, i)
    case BatchHashMismatch => WrongHash(d, items[i])
    case EntryCountMismatch => items[i].batch.head.entryCount != |items[i].entries|
    case NetAmountMismatch => WrongNet(items[i])
    case _ => false
  }

  /** What is wrong with the cache of a pool at one key, by kind; `es` is the pool's log. */
  ghost predicate KeySays(cache: map<SnapKey, Snap>, es: seq<EntryRow>, k: SnapKey, kind: FindingKind) {
    var moved, listed := k in Keys(Moves(es)), k in cache && k != SnapKey("", "");
    var xs := Amounts(Moves(es), k);
    match kind
    case SnapshotAmountMismatch => listed && moved && PrefixesFit(xs) && cache[k].amount != Sum(xs)
    case SnapshotEntryCountMismatch => listed && moved && cache[k].count != |xs|
    case SnapshotAsOfSeqMismatch => listed && moved && cache[k].asOf != LastSeq(es, k)
    case SnapshotMissing => !listed && moved && PrefixesFit(xs)
    case BalanceOverflow => moved && !PrefixesFit(xs)
    case _ => false
  }

  predicate IsBatchFinding(kind: FindingKind) {
    kind.SeqGap? || kind.PrevHashMismatch? || kind.BatchHashMismatch? || kind.EntryCountMismatch? || kind.NetAmountMismatch?
  }

  predicate IsAuditFinding(kind: FindingKind) { kind.AuditSeqGap? || kind.AuditPrevHashMismatch? || kind.AuditHashMismatch? }

  /** What has to be so in the tables for the finding to be right. */
  ghost predicate Right(d: Digest, db: Db, f: Finding) {
    if IsBatchFinding(f.kind) then exists i :: OnBatch(db, f, i) && BatchSays(d, Replay(db, f.pool), i, f.kind)
    else if IsAuditFinding(f.kind) then exists i :: OnAuditRow(db, f, i) && AuditSays(d, AuditReplay(db), i, f.kind)
    else match f.kind
      case EntryDenormMismatch => exists i :: OnStrayEntry(db, f, i)
      case LedgerHeadMismatch =>
        var items := Replay(db, f.pool);
        && OnPoolHead(db, f)
        && f.seqNo == (if items == [] then 0 else items[|items| - 1].batch.head.seqNo)
        && ReadHead(db.meta, HeadKey(f.pool)) != Ok(if items == [] then [] else items[|items| - 1].batch.hash)
      case AuditHeadMismatch =>
        var rows := AuditReplay(db);
        && f.pool == "" && f.batch == "" && f.account == "" && f.balanceKind == ""
        && f.seqNo == (if rows == [] then 0 else rows[|rows| - 1].body.seqNo)
        && ReadHead(db.meta, AUDIT_HEAD) != Ok(if rows == [] then [] else rows[|rows| - 1].hash)
      case SnapshotOrphan =>
        && f.pool in db.pools && f.batch == "" && f.seqNo == 0
        && FindingKey(f) in CacheOf(db, f.pool) && FindingKey(f) != SnapKey("", "")
        && FindingKey(f) !in Keys(Moves(Flat(Replay(db, f.pool))))
      case _ => OnKey(db, f) && KeySays(CacheOf(db, f.pool), Flat(Replay(db, f.pool)), FindingKey(f), f.kind)
  }

  // ---- membership in the lists ----

  lemma {:induction false} InWalk(d: Digest, items: seq<Item>, f: Finding)
    ensures f in Walk(d, items) <==> exists i :: 0 <= i < |items| && f in Damage.At(d, items, i)
  {
    hide BatchFindings;
    if items != [] {
      var n := |items| - 1;
      InWalk(d, items[..n], f);
      forall i | 0 <= i < n ensures Damage.At(d, items[..n], i) == Damage.At(d, items, i) {}
      assert Walk(d, items) == Walk(d, items[..n]) + Damage.At(d, items, n);
    }
  }

  ghost predicate Stray(b: BatchHeader, es: seq<EntryRow>, f: Finding) {
    exists e :: e in es && (e.pool != b.pool || e.seqNo != b.seqNo)
                && f == Finding(EntryDenormMismatch, b.pool, b.seqNo, b.id, e.account, e.kind)
  }

  lemma {:induction false} InDenorm(b: BatchHeader, es: seq<EntryRow>, f: Finding)
    ensures f in DenormFindings(b, es) <==> Stray(b, es, f)
  {
    if es != [] {
      var n := |es| - 1;
      assert es == es[..n] + [es[n]];
      InDenorm(b, es[..n], f);
    }
  }

  lemma InOne(found: bool, at: Finding, kind: FindingKind, f: Finding)
    ensures f in One(found, at.(kind := kind)) <==> found && f.kind == kind && f == at.(kind := f.kind)
  {}

  lemma InSix(a: seq<Finding>, b: seq<Finding>, c: seq<Finding>, d: seq<Finding>, e: seq<Finding>, g: seq<Finding>, f: Finding)
    ensures f in a + b + c + d + e + g <==> f in a || f in b || f in c || f in d || f in e || f in g
  {}

  lemma InBatch(d: Digest, items: seq<Item>, i: nat, f: Finding)
    requires i < |items|
    ensures var b := items[i].batch.head;
      f in Damage.At(d, items, i) <==>
        || (f == Finding(f.kind, b.pool, b.seqNo, b.id, "", "") && BatchSays(d, items, i, f.kind))
        || Stray(b, items[i].entries, f)
  {
    hide Link, DenormFindings, Stray, One, Moves, AllAmounts;
    var item, b, es := items[i], items[i].batch.head, items[i].entries;
    var prev, at := HashBefore(items, i), Finding(SeqGap, b.pool, b.seqNo, b.id, "", "");
    InDenorm(b, es, f);
    InOne(b.seqNo != SeqWanted(items, i), at, SeqGap, f);
    InOne(item.batch.prevHash != prev, at, PrevHashMismatch, f);
    InOne(Link(d, item.batch.prevHash, b, es) != item.batch.hash, at, BatchHashMismatch, f);
    InOne(b.entryCount != |es|, at, EntryCountMismatch, f);
    InOne(!NetIs(es, b.netAmount), at, NetAmountMismatch, f);
    assert at.(kind := SeqGap) == at;
    InSix(One(b.seqNo != SeqWanted(items, i), at), One(item.batch.prevHash != prev, at.(kind := PrevHashMismatch)),
          One(Link(d, item.batch.prevHash, b, es) != item.batch.hash, at.(kind := BatchHashMismatch)),
          One(b.entryCount != |es|, at.(kind := EntryCountMismatch)), One(!NetIs(es, b.netAmount), at.(kind := NetAmountMismatch)),
          DenormFindings(b, es), f);
  }

  lemma {:induction false} InCached(pool: string, keys: seq<SnapKey>, cache: map<SnapKey, Snap>, fold: map<SnapKey, Acc>, f: Finding)
    requires forall k :: k in keys ==> k in cache
    ensures f in CachedFindings(pool, keys, cache, fold) <==> exists k :: k in keys && f in SnapFindings(pool, k, cache[k], fold)
  {
    hide SnapFindings;
    if keys != [] {
      var n := |keys| - 1;
      assert keys == keys[..n] + [keys[n]];
      InCached(pool, keys[..n], cache, fold, f);
    }
  }

  lemma {:induction false} InMissing(pool: string, keys: seq<SnapKey>, fold: map<SnapKey, Acc>, f: Finding)
    requires forall k :: k in keys ==> k in fold
    ensures f in MissingFindings(pool, keys, fold) <==> exists k :: k in keys && f == MissingFinding(pool, k, fold[k])
  {
    hide MissingFinding;
    if keys != [] {
      var n := |keys| - 1;
      assert keys == keys[..n] + [keys[n]];
      InMissing(pool, keys[..n], fold, f);
    }
  }

  /** A finding about the cache of a pool, in terms of the cache and the log. */
  ghost predicate CacheRight(pool: string, cache: map<SnapKey, Snap>, es: seq<EntryRow>, f: Finding) {
    var k := FindingKey(f);
    && f.pool == pool && f.batch == ""
    && if f.kind == SnapshotOrphan then f.seqNo == 0 && k in cache && k != SnapKey("", "") && k !in Keys(Moves(es))
       else f.seqNo == LastSeq(es, k) && KeySays(cache, es, k, f.kind)
  }

  lemma InSnap(pool: string, cache: map<SnapKey, Snap>, es: seq<EntryRow>, k: SnapKey, f: Finding)
    requires k in cache && k != SnapKey("", "")
    ensures f in SnapFindings(pool, k, cache[k], Fold(es)) <==>
      FindingKey(f) == k && CacheRight(pool, cache, es, f) && f.kind != SnapshotMissing
  {
    hide Fold, Moves, Group, LastSeq, Keys, Sum, PrefixesFit;
    FoldAt(es, k);
    FoldKeys(es);
  }

  lemma InMissed(pool: string, cache: map<SnapKey, Snap>, es: seq<EntryRow>, k: SnapKey, f: Finding)
    requires k in Fold(es) && !(k in cache && k != SnapKey("", ""))
    ensures f == MissingFinding(pool, k, Fold(es)[k]) <==> FindingKey(f) == k && CacheRight(pool, cache, es, f)
  {
    hide Fold, Moves, Group, LastSeq, Keys, Sum, PrefixesFit;
    FoldAt(es, k);
    FoldKeys(es);
  }

  lemma InCache(pool: string, cache: map<SnapKey, Snap>, es: seq<EntryRow>, f: Finding)
    ensures f in CacheFindings(pool, cache, Fold(es)) <==> CacheRight(pool, cache, es, f)
  {
    hide Fold, SnapFindings, MissingFinding, CacheRight, KeySeq;
    var fold, rows, k := Fold(es), Listed(cache), FindingKey(f);
    KeySeqMembers(rows.Keys);
    KeySeqMembers(fold.Keys - rows.Keys);
    InCached(pool, KeySeq(rows.Keys), cache, fold, f);
    InMissing(pool, KeySeq(fold.Keys - rows.Keys), fold, f);
    forall j | j in rows
      ensures f in SnapFindings(pool, j, cache[j], fold) <==> j == k && CacheRight(pool, cache, es, f) && f.kind != SnapshotMissing
    {
      InSnap(pool, cache, es, j, f);
    }
    forall j | j in fold.Keys - rows.Keys
      ensures f == MissingFinding(pool, j, fold[j]) <==> j == k && CacheRight(pool, cache, es, f)
    {
      InMissed(pool, cache, es, j, f);
    }
    RightHasKey(pool, cache, es, f);
  }

  /** A right finding is about a listed row, or about a key of the log that is not listed. */
  lemma RightHasKey(pool: string, cache: map<SnapKey, Snap>, es: seq<EntryRow>, f: Finding)
    ensures var k := FindingKey(f);
            CacheRight(pool, cache, es, f) ==> if k in Listed(cache) then f.kind != SnapshotMissing else k in Fold(es)
  {
    hide Fold, Moves, Group, LastSeq, Keys, Sum, PrefixesFit;
    FoldKeys(es);
  }

  // ---- pools, the audit log, everything ----

  lemma InPool(d: Digest, db: Db, pool: string, f: Finding)
    requires pool in db.pools
    ensures f in PoolFindings(d, db, pool) ==> f.pool == pool
    ensures f.pool == pool && !IsAuditFinding(f.kind) && f.kind != AuditHeadMismatch ==>
      (f in PoolFindings(d, db, pool) <==> Right(d, db, f))
    ensures IsAuditFinding(f.kind) || f.kind == AuditHeadMismatch ==> f !in PoolFindings(d, db, pool)
  {
    hide Replay, Walk, CacheFindings, HeadFindings, Fold, Flat, BatchSays, KeySays, Stray, ReadHead, Moves, Keys, LastSeq;
    var items := Replay(db, pool);
    var at := Finding(LedgerHeadMismatch, pool, LastSeqNo(items), "", "", "");
    InWalkOf(d, db, pool, f);
    InCache(pool, CacheOf(db, pool), Flat(items), f);
    InHead(db.meta, HeadKey(pool), HashBefore(items, |items|), at, f);
    CacheRightKinds(pool, CacheOf(db, pool), Flat(items), f);
    InThree(Walk(d, items), HeadFindings(db.meta, HeadKey(pool), HashBefore(items, |items|), at),
            CacheFindings(pool, CacheOf(db, pool), Fold(Flat(items))), f);
  }

  lemma InThree(a: seq<Finding>, b: seq<Finding>, c: seq<Finding>, f: Finding)
    ensures f in a + b + c <==> f in a || f in b || f in c
  {}

  /** A finding of the walk of a pool: one about a batch, or about a stray entry. */
  lemma InWalkOf(d: Digest, db: Db, pool: string, f: Finding)
    requires pool in db.pools
    ensures f in Walk(d, Replay(db, pool)) <==>
      && f.pool == pool
      && ((IsBatchFinding(f.kind) && exists i :: OnBatch(db, f, i) && BatchSays(d, Replay(db, pool), i, f.kind))
          || (f.kind == EntryDenormMismatch && exists i :: OnStrayEntry(db, f, i)))
  {
    hide Replay, Walk, BatchSays, Damage.At;
    var items := Replay(db, pool);
    InWalk(d, items, f);
    forall i | 0 <= i < |items|
      ensures f in Damage.At(d, items, i) <==>
        f.pool == pool && ((IsBatchFinding(f.kind) && OnBatch(db, f, i) && BatchSays(d, items, i, f.kind))
                           || (f.kind == EntryDenormMismatch && OnStrayEntry(db, f, i)))
    {
      InBatch(d, items, i, f);
      Damage.SamePoolAt(db, pool, i);
      BatchKinds(d, items, i, f.kind);
    }
  }

  lemma BatchKinds(d: Digest, items: seq<Item>, i: nat, kind: FindingKind)
    requires i < |items|
    ensures BatchSays(d, items, i, kind) ==> IsBatchFinding(kind)
  {}

  lemma CacheRightKinds(pool: string, cache: map<SnapKey, Snap>, es: seq<EntryRow>, f: Finding)
    ensures CacheRight(pool, cache, es, f) ==>
      && !IsBatchFinding(f.kind) && !IsAuditFinding(f.kind)
      && !f.kind.EntryDenormMismatch? && !f.kind.LedgerHeadMismatch? && !f.kind.AuditHeadMismatch?
  {}

  lemma InHead(meta: map<string, string>, key: string, last: Bytes, at: Finding, f: Finding)
    ensures f in HeadFindings(meta, key, last, at) <==> f == at && ReadHead(meta, key) != Ok(last)
  {}

  lemma {:induction false} InPools(d: Digest, db: Db, pools: seq<string>, f: Finding)
    ensures f in PoolsFindings(d, db, pools) <==> exists p :: p in pools && f in PoolFindings(d, db, p)
  {
    hide PoolFindings;
    if pools != [] {
      var n := |pools| - 1;
      assert pools == pools[..n] + [pools[n]];
      InPools(d, db, pools[..n], f);
    }
  }

  lemma {:induction false} InAuditWalk(d: Digest, rows: seq<AuditRow>, f: Finding)
    ensures f in AuditWalk(d, rows) <==> exists i :: 0 <= i < |rows| && IsAuditFinding(f.kind) && AuditSays(d, rows, i, f.kind)
                                               && f == Finding(f.kind, "", rows[i].body.seqNo, "", "", "")
  {
    hide AuditRowFindings, AuditSays;
    if rows != [] {
      var n := |rows| - 1;
      InAuditWalk(d, rows[..n], f);
      forall i | 0 <= i < n ensures AuditSays(d, rows[..n], i, f.kind) == AuditSays(d, rows, i, f.kind) {
        AuditSaysPrefix(d, rows, n, i, f.kind);
      }
      InAuditRow(d, rows, n, f);
      assert forall i :: 0 <= i < n ==> rows[..n][i] == rows[i];
    }
  }

  lemma AuditSaysPrefix(d: Digest, rows: seq<AuditRow>, n: nat, i: nat, kind: FindingKind)
    requires i < n <= |rows|
    ensures AuditSays(d, rows[..n], i, kind) == AuditSays(d, rows, i, kind)
  {}

  lemma InAuditRow(d: Digest, rows: seq<AuditRow>, n: nat, f: Finding)
    requires n < |rows|
    ensures f in AuditRowFindings(d, rows[n], AuditHashBefore(rows, n), AuditSeqWanted(rows, n)) <==>
      IsAuditFinding(f.kind) && AuditSays(d, rows, n, f.kind) && f == Finding(f.kind, "", rows[n].body.seqNo, "", "", "")
  {}

  lemma InAudit(d: Digest, db: Db, f: Finding)
    ensures f in AuditFindings(d, db) <==> (IsAuditFinding(f.kind) || f.kind == AuditHeadMismatch) && Right(d, db, f)
  {
    hide AuditReplay, AuditWalk, AuditSays, HeadFindings, ReadHead, Replay;
    var rows := AuditReplay(db);
    InAuditWalk(d, rows, f);
    var at := Finding(AuditHeadMismatch, "", if rows == [] then 0 else rows[|rows| - 1].body.seqNo, "", "", "");
    InHead(db.meta, AUDIT_HEAD, AuditHashBefore(rows, |rows|), at, f);
  }

  /** Over any database: the report holds a finding if and only if the tables make it right. */
  lemma ReportedIff(d: Digest, db: Db, f: Finding)
    ensures f in AllFindings(d, db) <==> Right(d, db, f)
  {
    hide PoolFindings, AuditFindings, Right;
    SortMembers(StrLe, db.pools);
    InPools(d, db, Sort(StrLe, db.pools), f);
    InAudit(d, db, f);
    forall p | p in db.pools
      ensures f in PoolFindings(d, db, p) <==> f.pool == p && !IsAuditFinding(f.kind) && f.kind != AuditHeadMismatch && Right(d, db, f)
    {
      InPool(d, db, p, f);
    }
    RightIsInPool(d, db, f);
  }

  lemma RightIsInPool(d: Digest, db: Db, f: Finding)
    ensures Right(d, db, f) && !IsAuditFinding(f.kind) && f.kind != AuditHeadMismatch ==> f.pool in db.pools
  {
    hide Replay, BatchSays, KeySays;
  }
}
