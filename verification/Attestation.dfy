/** What a clean report means: no findings exactly when the log and the cache are what they claim. */
module Attestation {
  import opened Wrappers
  import opened Int64
  import opened Ordering
  import opened Rows
  import opened Hex
  import opened Queries
  import opened Proposals
  import opened CommitSpec
  import opened VerifySpec

  // ---- the claims, in terms of the rows ----

  /** Batch `i` of a pool: its seq, its link, its hash and what its columns say of its entries. */
  ghost predicate BatchHolds(d: Digest, items: seq<Item>, i: nat)
    requires i < |items|
  {
    var b, es := items[i].batch, items[i].entries;
    && b.head.seqNo == i + 1
    && b.prevHash == HashBefore(items, i)
    && b.hash == Link(d, b.prevHash, b.head, es)
    && b.head.entryCount == |es|
    && b.head.netAmount == Sum(AllAmounts(Moves(es)))
    && forall e :: e in es ==> e.pool == b.head.pool && e.seqNo == b.head.seqNo
  }

  ghost predicate ChainHolds(d: Digest, items: seq<Item>) {
    forall i :: 0 <= i < |items| ==> BatchHolds(d, items, i)
  }

  /** The cached rows are the sums, counts and last seqs of the log: no more rows and no fewer. */
  ghost predicate Mirrors(cache: map<SnapKey, Snap>, es: seq<EntryRow>) {
    && cache.Keys == Keys(Moves(es))
    && forall k :: k in cache ==> RowMirrors(cache[k], es, k)
  }

  ghost predicate RowMirrors(row: Snap, es: seq<EntryRow>, k: SnapKey) {
    && row.amount == Net(Moves(es), k)
    && row.count == |Amounts(Moves(es), k)|
    && row.asOf == LastSeq(es, k)
  }

  ghost predicate HeadHolds(meta: map<string, string>, key: string, last: Bytes) {
    ReadHead(meta, key) == Ok(last)
  }

  /** No running total of the replay leaves 64 bits: within a batch, or for one key over the log. */
  ghost predicate ReplayFits(items: seq<Item>) {
    && (forall i :: 0 <= i < |items| ==> PrefixesFit(AllAmounts(Moves(items[i].entries))))
    && KeysFit(Flat(items))
  }

  ghost predicate KeysFit(es: seq<EntryRow>) { forall k :: k in Keys(Moves(es)) ==> PrefixesFit(Amounts(Moves(es), k)) }

  ghost predicate PoolHolds(d: Digest, db: Db, pool: string) {
    var items := Replay(db, pool);
    && ChainHolds(d, items)
    && HeadHolds(db.meta, HeadKey(pool), HashBefore(items, |items|))
    && Mirrors(Listed(CacheOf(db, pool)), Flat(items))
  }

  ghost predicate AuditRowHolds(d: Digest, rows: seq<AuditRow>, i: nat)
    requires i < |rows|
  {
    && rows[i].body.seqNo == i + 1
    && rows[i].prevHash == AuditHashBefore(rows, i)
    && rows[i].hash == d.audit(rows[i].prevHash, rows[i].body)
  }

  ghost predicate AuditHolds(d: Digest, db: Db) {
    var rows := AuditReplay(db);
    && (forall i :: 0 <= i < |rows| ==> AuditRowHolds(d, rows, i))
    && HeadHolds(db.meta, AUDIT_HEAD, AuditHashBefore(rows, |rows|))
  }

  // ---- the walk ----

  lemma {:induction false} DenormClean(b: BatchHeader, es: seq<EntryRow>)
    ensures DenormFindings(b, es) == [] <==> forall e :: e in es ==> e.pool == b.pool && e.seqNo == b.seqNo
  {
    if es != [] {
      var n := |es| - 1;
      assert es == es[..n] + [es[n]];
      DenormClean(b, es[..n]);
    }
  }

  ghost predicate BatchOk(d: Digest, items: seq<Item>, i: nat)
    requires i < |items|
  {
    BatchHolds(d, items, i) && PrefixesFit(AllAmounts(Moves(items[i].entries)))
  }

  /** The seqs count up from 1 as long as each is the one after the one before it. */
  lemma {:induction false} WalkClean(d: Digest, items: seq<Item>)
    ensures Walk(d, items) == [] <==> forall i :: 0 <= i < |items| ==> BatchOk(d, items, i)
  {
    hide BatchFindings, BatchOk;
    if items != [] {
      var n := |items| - 1;
      WalkClean(d, items[..n]);
      forall i | 0 <= i < n ensures BatchOk(d, items[..n], i) <==> BatchOk(d, items, i) {
        BatchOkPrefix(d, items, n, i);
      }
      if Walk(d, items[..n]) == [] {
        SeqWantedNext(d, items, n);
        BatchClean(d, items, n);
      }
    }
  }

  lemma BatchOkPrefix(d: Digest, items: seq<Item>, n: nat, i: nat)
    requires i < n <= |items|
    ensures BatchOk(d, items[..n], i) <==> BatchOk(d, items, i)
  {}

  lemma SeqWantedNext(d: Digest, items: seq<Item>, n: nat)
    requires n <= |items| && forall i :: 0 <= i < n ==> BatchOk(d, items, i)
    ensures SeqWanted(items, n) == n + 1
  {
    if n > 0 { assert BatchOk(d, items, n - 1); }
  }

  lemma BatchClean(d: Digest, items: seq<Item>, n: nat)
    requires n < |items| && SeqWanted(items, n) == n + 1
    ensures BatchFindings(d, items[n], HashBefore(items, n), SeqWanted(items, n)) == [] <==> BatchOk(d, items, n)
  {
    DenormClean(items[n].batch.head, items[n].entries);
  }

  // ---- the fold ----

  ghost predicate AccHolds(acc: Acc, es: seq<EntryRow>, k: SnapKey) {
    && acc.count == |Amounts(Moves(es), k)|
    && acc.maxSeq == LastSeq(es, k)
    && (acc.overflowed <==> !PrefixesFit(Amounts(Moves(es), k)))
    && (!acc.overflowed ==> acc.amount == Net(Moves(es), k))
  }

  /** The fold is the definitional balance of every key, unless a running total overflowed. */
  lemma {:induction false} FoldAt(es: seq<EntryRow>, k: SnapKey)
    ensures AccHolds(At(Fold(es), k), es, k)
  {
    if es != [] {
      var n := |es| - 1;
      FoldAt(es[..n], k);
      assert es == es[..n] + [es[n]];
      AccStepHolds(At(Fold(es[..n]), k), es[..n], es[n], k);
    }
  }

  lemma AccStepHolds(acc: Acc, pre: seq<EntryRow>, e: EntryRow, k: SnapKey)
    requires AccHolds(acc, pre, k)
    ensures AccHolds(if MoveOf(e).key == k then AccStep(acc, e) else acc, pre + [e], k)
  {
    hide Moves, AddCentipoints, Group, PrefixesFit, Sum;
    MovesSnoc(pre, e);
    GroupSnoc(ByKey, Moves(pre), MoveOf(e), k);
    assert (pre + [e])[..|pre|] == pre;
    AddCentipointsIsExact(acc.amount, e.amount);
    PrefixesFitSnoc(Amounts(Moves(pre), k), e.amount);
    SumSnoc(Amounts(Moves(pre), k), e.amount);
    var xs := Amounts(Moves(pre), k);
    assert Amounts(Moves(pre + [e]), k) == if MoveOf(e).key == k then xs + [e.amount] else xs;
  }

  lemma {:induction false} FoldKeys(es: seq<EntryRow>)
    ensures Fold(es).Keys == Keys(Moves(es))
  {
    if es != [] {
      var n := |es| - 1;
      FoldKeys(es[..n]);
      MovesSnoc(es[..n], es[n]);
      assert es == es[..n] + [es[n]];
      KeysSnoc(Moves(es[..n]), MoveOf(es[n]));
    }
  }

  lemma KeysSnoc(ms: seq<Move>, m: Move)
    ensures Keys(ms + [m]) == Keys(ms) + {m.key}
  {}

  // ---- the cache ----

  lemma {:induction false} CachedClean(pool: string, keys: seq<SnapKey>, cache: map<SnapKey, Snap>, fold: map<SnapKey, Acc>)
    requires forall k :: k in keys ==> k in cache
    ensures CachedFindings(pool, keys, cache, fold) == [] <==>
      forall k :: k in keys ==> SnapFindings(pool, k, cache[k], fold) == []
  {
    hide SnapFindings;
    if keys != [] {
      var n := |keys| - 1;
      assert keys == keys[..n] + [keys[n]];
      CachedClean(pool, keys[..n], cache, fold);
    }
  }

  lemma SnapClean(pool: string, k: SnapKey, row: Snap, es: seq<EntryRow>)
    ensures SnapFindings(pool, k, row, Fold(es)) == [] <==>
      k in Keys(Moves(es)) && PrefixesFit(Amounts(Moves(es), k)) && RowMirrors(row, es, k)
  {
    hide Fold, Moves, Amounts, Net, LastSeq;
    FoldAt(es, k);
    FoldKeys(es);
  }

  lemma MissingClean(pool: string, keys: set<SnapKey>, fold: map<SnapKey, Acc>)
    requires keys <= fold.Keys
    ensures (forall k :: k in KeySeq(keys) <==> k in keys)
    ensures MissingFindings(pool, KeySeq(keys), fold) == [] <==> keys == {}
  {
    KeySeqMembers(keys);
    if keys != {} {
      var k :| k in keys;
      assert k in KeySeq(keys);
    } else {
      assert KeySeq(keys) == [];
    }
  }

  /** No finding about the cache exactly when it mirrors the log and nothing overflowed. */
  lemma CacheClean(pool: string, cache: map<SnapKey, Snap>, es: seq<EntryRow>)
    ensures CacheFindings(pool, cache, Fold(es)) == [] <==> Mirrors(Listed(cache), es) && KeysFit(es)
  {
    hide SnapFindings, MissingFindings, KeySeq, Fold, Moves, Amounts, RowMirrors;
    var rows, fold := Listed(cache), Fold(es);
    FoldKeys(es);
    KeySeqMembers(rows.Keys);
    MissingClean(pool, fold.Keys - rows.Keys, fold);
    CachedClean(pool, KeySeq(rows.Keys), cache, fold);
    forall k | k in rows
      ensures SnapFindings(pool, k, cache[k], fold) == [] <==>
        k in Keys(Moves(es)) && PrefixesFit(Amounts(Moves(es), k)) && RowMirrors(rows[k], es, k)
    {
      SnapClean(pool, k, cache[k], es);
    }
    if CacheFindings(pool, cache, fold) == [] {
      assert forall k :: k in rows ==> SnapFindings(pool, k, cache[k], fold) == [];
      assert forall k :: k in rows ==> k in Keys(Moves(es));
      forall k | k in fold.Keys ensures k in rows.Keys {
        assert k !in fold.Keys - rows.Keys;
      }
      assert rows.Keys == Keys(Moves(es));
    }
  }

  // ---- pools, audit, everything ----

  lemma HeadClean(meta: map<string, string>, key: string, last: Bytes, at: Finding)
    ensures HeadFindings(meta, key, last, at) == [] <==> HeadHolds(meta, key, last)
  {}

  lemma PoolClean(d: Digest, db: Db, pool: string)
    ensures PoolFindings(d, db, pool) == [] <==> PoolHolds(d, db, pool) && ReplayFits(Replay(db, pool))
  {
    hide Walk, CacheFindings, HeadFindings, BatchHolds, Mirrors, KeysFit, Replay;
    var items := Replay(db, pool);
    WalkClean(d, items);
    if ChainHolds(d, items) && ReplayFits(items) {
      forall i | 0 <= i < |items| ensures BatchOk(d, items, i) { assert BatchHolds(d, items, i); }
    } else if forall i :: 0 <= i < |items| ==> BatchOk(d, items, i) {
      forall i | 0 <= i < |items|
        ensures BatchHolds(d, items, i) && PrefixesFit(AllAmounts(Moves(items[i].entries)))
      {
        assert BatchOk(d, items, i);
      }
    }
    CacheClean(pool, CacheOf(db, pool), Flat(items));
    HeadClean(db.meta, HeadKey(pool), HashBefore(items, |items|),
              Finding(LedgerHeadMismatch, pool, LastSeqNo(items), "", "", ""));
  }

  lemma {:induction false} AuditWalkClean(d: Digest, rows: seq<AuditRow>)
    ensures AuditWalk(d, rows) == [] <==> forall i :: 0 <= i < |rows| ==> AuditRowHolds(d, rows, i)
  {
    hide AuditRowFindings, AuditRowHolds;
    if rows != [] {
      var n := |rows| - 1;
      AuditWalkClean(d, rows[..n]);
      forall i | 0 <= i < n ensures AuditRowHolds(d, rows[..n], i) <==> AuditRowHolds(d, rows, i) {
        AuditRowPrefix(d, rows, n, i);
      }
      if AuditWalk(d, rows[..n]) == [] { AuditStep(d, rows, n); }
    }
  }

  lemma AuditRowPrefix(d: Digest, rows: seq<AuditRow>, n: nat, i: nat)
    requires i < n <= |rows|
    ensures AuditRowHolds(d, rows[..n], i) <==> AuditRowHolds(d, rows, i)
  {}

  lemma AuditStep(d: Digest, rows: seq<AuditRow>, n: nat)
    requires n < |rows| && forall i :: 0 <= i < n ==> AuditRowHolds(d, rows, i)
    ensures AuditRowFindings(d, rows[n], AuditHashBefore(rows, n), AuditSeqWanted(rows, n)) == [] <==> AuditRowHolds(d, rows, n)
  {
    if n > 0 { assert AuditRowHolds(d, rows, n - 1); }
  }

  lemma AuditClean(d: Digest, db: Db)
    ensures AuditFindings(d, db) == [] <==> AuditHolds(d, db)
  {
    var rows := AuditReplay(db);
    AuditWalkClean(d, rows);
  }

  /**
   * A report is clean exactly when every pool's chain, head and cache and the audit chain are what
   * they claim to be and the replay's own arithmetic stays within 64 bits.
   */
  lemma CleanMeansAttested(d: Digest, db: Db)
    ensures Clean(d, db) <==>
      && (forall p :: p in db.pools ==> PoolHolds(d, db, p) && ReplayFits(Replay(db, p)))
      && AuditHolds(d, db)
  {
    hide PoolFindings, AuditFindings, PoolHolds, AuditHolds, ReplayFits, Clean;
    CleanIff(d, db);
    AuditClean(d, db);
    forall p | p in db.pools
      ensures PoolFindings(d, db, p) == [] <==> PoolHolds(d, db, p) && ReplayFits(Replay(db, p))
    {
      PoolClean(d, db, p);
    }
  }
}
