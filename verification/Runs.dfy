/** Runs of Commit from an empty ledger, and what the replay finds in what they build. */
module Runs {
  import opened Wrappers
  import opened Int64
  import opened Ordering
  import opened Rows
  import opened Hex
  import opened Queries
  import opened Proposals
  import opened Invariants
  import opened CommitSpec
  import opened VerifySpec
  import opened Attestation
  import opened LedgerInvariant

  datatype Step = Step(req: CommitRequest, env: Env)

  /** The database after any number of calls, in any pools, succeeding or failing as they may. */
  ghost function Run(d: Digest, db: Db, steps: seq<Step>): Db {
    if steps == [] then db
    else
      var n := |steps| - 1;
      Commit(d, Run(d, db, steps[..n]), steps[n].req, steps[n].env).0
  }

  lemma {:induction false} RunKeepsInv(d: Digest, db: Db, steps: seq<Step>)
    requires Sized(d) && Inv(d, db)
    ensures Inv(d, Run(d, db, steps))
  {
    hide Inv, Commit;
    if steps != [] {
      var n := |steps| - 1;
      RunKeepsInv(d, db, steps[..n]);
      CommitKeepsInv(d, Run(d, db, steps[..n]), steps[n].req, steps[n].env);
    }
  }

  // ---- the replay walks the log ----

  /** `log` with the entries of every batch in id order. */
  function InIdOrder(log: seq<Item>): (r: seq<Item>)
    ensures |r| == |log|
    ensures forall i :: 0 <= i < |log| ==> r[i] == Item(log[i].batch, Sort(EntryIdLe, log[i].entries))
  {
    seq(|log|, i requires 0 <= i < |log| => Item(log[i].batch, Sort(EntryIdLe, log[i].entries)))
  }

  lemma ReplayIsLog(d: Digest, db: Db, pool: string)
    requires ChainHolds(d, Log(db, pool))
    ensures Replay(db, pool) == InIdOrder(Log(db, pool))
  {
    hide Link, PoolBatches;
    var bs, log := PoolBatches(db.batches, pool), Log(db, pool);
    forall i | 0 <= i < |bs| ensures bs[i].head.seqNo == i + 1 { assert BatchHolds(d, log, i); }
    SortFixes(BatchSeqLe, bs);
    FilterAll((b: BatchRow) => b.head.seqNo > 0, bs);
    assert WithEntries(bs, db.entries) == InIdOrder(log);
  }

  lemma AllAmountsSum(es: seq<EntryRow>)
    ensures Sum(AllAmounts(Moves(es))) == SumBy((e: EntryRow) => e.amount, es)
  {
    assert AllAmounts(Moves(es)) == Map<EntryRow, int>((e: EntryRow) => e.amount, es);
  }

  lemma ItemInIdOrder(d: Digest, log: seq<Item>, i: nat)
    requires i < |log| && BatchHolds(d, log, i)
    ensures BatchHolds(d, InIdOrder(log), i)
  {
    var es := log[i].entries;
    SortKeeps(EntryIdLe, es);
    SortMembers(EntryIdLe, es);
    EntryIdLeIsOrder();
    SortSorts(EntryIdLe, es);
    SortFixes(EntryIdLe, Sort(EntryIdLe, es));
    AllAmountsSum(es);
    AllAmountsSum(Sort(EntryIdLe, es));
    SumByPermutes((e: EntryRow) => e.amount, es, Sort(EntryIdLe, es));
  }

  lemma {:induction false} FlatInIdOrder(log: seq<Item>)
    ensures multiset(Flat(InIdOrder(log))) == multiset(Flat(log))
  {
    hide InIdOrder, Sort;
    if log == [] {
      assert InIdOrder(log) == [];
    } else {
      var n := |log| - 1;
      FlatInIdOrder(log[..n]);
      SortKeeps(EntryIdLe, log[n].entries);
      assert InIdOrder(log)[..n] == InIdOrder(log[..n]);
    }
  }

  lemma {:induction false} LastSeqIsMax(es: seq<EntryRow>, k: SnapKey)
    ensures LastSeq(es, k) >= 0
    ensures forall e :: e in es && MoveOf(e).key == k ==> e.seqNo <= LastSeq(es, k)
    ensures LastSeq(es, k) == 0 || exists e :: e in es && MoveOf(e).key == k && e.seqNo == LastSeq(es, k)
  {
    if es != [] {
      var n := |es| - 1;
      assert es == es[..n] + [es[n]];
      LastSeqIsMax(es[..n], k);
      assert es[n] in es;
    }
  }

  lemma LastSeqPermutes(a: seq<EntryRow>, b: seq<EntryRow>, k: SnapKey)
    requires multiset(a) == multiset(b)
    ensures LastSeq(a, k) == LastSeq(b, k)
  {
    SameMembers(a, b);
    LastSeqIsMax(a, k);
    LastSeqIsMax(b, k);
  }

  lemma KeysPermute(a: seq<EntryRow>, b: seq<EntryRow>)
    requires multiset(a) == multiset(b)
    ensures Keys(Moves(a)) == Keys(Moves(b))
  {
    SameMembers(a, b);
    KeyFromRow(a);
    KeyFromRow(b);
  }

  lemma KeyFromRow(es: seq<EntryRow>)
    ensures forall k :: k in Keys(Moves(es)) <==> exists e :: e in es && MoveOf(e).key == k
  {
    forall k ensures k in Keys(Moves(es)) <==> exists e :: e in es && MoveOf(e).key == k {
      if k in Keys(Moves(es)) {
        var m :| m in Moves(es) && m.key == k;
        var i :| 0 <= i < |es| && Moves(es)[i] == m;
        assert es[i] in es;
      }
      if e :| e in es && MoveOf(e).key == k {
        var i :| 0 <= i < |es| && es[i] == e;
        assert Moves(es)[i] in Moves(es);
      }
    }
  }

  /** What a cache mirrors does not depend on the order of the log. */
  lemma MirrorsPermutes(cache: map<SnapKey, Snap>, a: seq<EntryRow>, b: seq<EntryRow>)
    requires multiset(a) == multiset(b)
    ensures Mirrors(cache, a) <==> Mirrors(cache, b)
  {
    hide Moves, LastSeq, Keys, Net, Amounts;
    KeysPermute(a, b);
    forall k ensures k in cache ==> (RowMirrors(cache[k], a, k) <==> RowMirrors(cache[k], b, k)) {
      NetPermutes(a, b, k);
      LastSeqPermutes(a, b, k);
    }
  }

  lemma InvPoolHolds(d: Digest, db: Db, pool: string)
    requires PoolInv(d, db, pool)
    ensures PoolHolds(d, db, pool) <==> FIRST_KEY !in CacheOf(db, pool)
  {
    hide Mirrors, BatchHolds, Flat, Replay, Log;
    var log, cache := Log(db, pool), CacheOf(db, pool);
    ReplayIsLog(d, db, pool);
    forall i | 0 <= i < |log| ensures BatchHolds(d, InIdOrder(log), i) { ItemInIdOrder(d, log, i); }
    FlatInIdOrder(log);
    MirrorsPermutes(cache, Flat(InIdOrder(log)), Flat(log));
    MirrorsListed(cache, Flat(InIdOrder(log)));
  }

  lemma MirrorsListed(cache: map<SnapKey, Snap>, es: seq<EntryRow>)
    requires Mirrors(cache, es)
    ensures Mirrors(Listed(cache), es) <==> FIRST_KEY !in cache
  {
    if FIRST_KEY in cache {
      assert FIRST_KEY !in Listed(cache).Keys && FIRST_KEY in Keys(Moves(es));
    } else {
      assert Listed(cache) == cache;
    }
  }

  lemma InvAuditHolds(d: Digest, db: Db)
    requires AuditInv(d, db)
    ensures AuditHolds(d, db)
  {
    forall i | 0 <= i < |db.audit| ensures db.audit[i].body.seqNo == i + 1 { assert AuditRowHolds(d, db.audit, i); }
    SortFixes(AuditSeqLe, db.audit);
    FilterAll((r: AuditRow) => r.body.seqNo > 0, db.audit);
  }

  /**
   * Every ledger any run of commits can build verifies clean, unless the replay's own running
   * totals leave 64 bits or the cache has a row its listing cannot reach; and then it does not.
   */
  lemma EveryRunVerifies(d: Digest, db: Db, steps: seq<Step>)
    requires Sized(d) && Genesis(db)
    ensures var after := Run(d, db, steps);
            Clean(d, after) <==>
              forall p :: p in after.pools ==> ReplayFits(Replay(after, p)) && FIRST_KEY !in CacheOf(after, p)
  {
    hide Clean, ReplayFits, PoolHolds, AuditHolds, PoolInv, AuditInv, KeysOk;
    var after := Run(d, db, steps);
    GenesisInv(d, db);
    RunKeepsInv(d, db, steps);
    CleanMeansAttested(d, after);
    InvAuditHolds(d, after);
    forall p | p in after.pools ensures PoolHolds(d, after, p) <==> FIRST_KEY !in CacheOf(after, p) {
      InvPoolHolds(d, after, p);
    }
  }
}
