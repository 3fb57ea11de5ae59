/** What a commit that goes through leaves in each table, column by column (internal/ledger/commit.go). */
module CommitRows {
  import opened Wrappers
  import opened Int64
  import opened Ordering
  import opened Rows
  import opened Hex
  import opened Queries
  import opened Proposals
  import opened Invariants
  import opened CommitSpec
  import opened LedgerInvariant
  import opened History

  /** The batch row of a request: its own columns, what the environment minted, and the two summaries. */
  ghost predicate BatchOf(b: BatchHeader, req: CommitRequest, env: Env, seqNo: int) {
    var p := req.proposal;
    && b.id == env.mint(0) && b.pool == req.pool && b.seqNo == seqNo && b.kind == p.kind
    && b.strategyId == p.strategyId && b.strategyVersion == p.strategyVersion
    && b.configSnapshot == (if p.configSnapshot == "" then "{}" else p.configSnapshot)
    && b.rngSeed == p.rngSeed && b.source == req.source && b.sourceRef == req.sourceRef
    && b.actorUser == req.actor.user && b.actorToken == req.actor.token && b.actorIsBeneficiary == 0
    && b.reason == p.reason && b.reverses == p.reverses
    && b.effectiveAt == p.effectiveAt && b.recordedAt == env.recordedAt && b.effectiveDay == env.day
    && b.idempotencyKey == req.idempotencyKey
    && b.entryCount == |p.entries| && b.netAmount == Sum(AllAmounts(ProposalMoves(p.entries)))
  }

  /** One entry row: the proposal's entry, in the batch, with an id of its own. */
  ghost predicate EntryOfProposal(e: EntryRow, p: EntryProposal, req: CommitRequest, env: Env, seqNo: int, i: nat) {
    && e.id == env.mint(i + 1) && e.batch == env.mint(0) && e.pool == req.pool && e.seqNo == seqNo
    && e.account == p.account && e.character == p.character && e.kind == p.kind && e.amount == p.amount
    && e.item == p.item && e.itemAward == p.itemAward && e.raid == p.raid && e.tick == p.tick
    && e.metadata == (if p.metadata == "" then "{}" else p.metadata)
  }

  /** The audit row: who did it, what was done, and to which batch. */
  ghost predicate AuditOf(a: AuditBody, req: CommitRequest, env: Env, seqNo: int) {
    && a.id == env.mint(|req.proposal.entries| + 1) && a.seqNo == seqNo && a.at == env.auditAt
    && a.actorKind == req.actor.kind && a.actorLabel == req.actor.displayName
    && a.action == (if req.action == "" then "ledger.batch.commit" else req.action)
    && a.resourceKind == "ledger_batch" && a.resourceId == Some(env.mint(0))
    && a.outcome == "success" && a.ledgerBatch == Some(env.mint(0))
  }

  ghost predicate EventOf(o: OutboxRow, req: CommitRequest, env: Env, eventSeq: int) {
    && o.eventSeq == eventSeq && o.id == env.mint(|req.proposal.entries| + 2)
    && o.topic == (if req.topic == "" then "pool:" + req.pool else req.topic)
    && o.eventType == (if req.eventType == "" then "ledger.batch.committed" else req.eventType)
    && o.resourceRef == "/api/v1/ledger/batches/" + env.mint(0) && o.createdAt == env.eventAt
  }

  /** The cached row of one key after a batch: added to when the batch moves the key, and else as it was. */
  ghost predicate CachedAfter(was: map<SnapKey, Snap>, now: map<SnapKey, Snap>, es: seq<EntryProposal>, k: SnapKey, seqNo: int, at: int) {
    var ms := ProposalMoves(es);
    if exists m :: m in ms && m.key == k then
      && k in now
      && now[k].amount == (if k in was then was[k].amount else 0) + Net(ms, k)
      && now[k].count == (if k in was then was[k].count else 0) + |Amounts(ms, k)|
      && now[k].asOf == seqNo && now[k].updatedAt == at
    else (k in now <==> k in was) && (k in was ==> now[k] == was[k])
  }

  /** The head stored under a key, or none. */
  ghost predicate HeadIs(meta: map<string, string>, key: string, hash: Bytes) {
    if key in meta then DecodeHead(meta[key]) == Some(hash) else hash == []
  }

  lemma ReadHeadIs(meta: map<string, string>, key: string)
    requires ReadHead(meta, key).Ok?
    ensures HeadIs(meta, key, ReadHead(meta, key).value)
  {}

  /** One batch row is appended, of the next seq of its pool, linked to the head and hashed over its entries by id. */
  lemma WrittenBatch(d: Digest, db: Db, req: CommitRequest, env: Env)
    requires Writes(d, db, req, env)
    ensures var after, n := Commit(d, db, req, env).0, |db.batches|;
      && |after.batches| == n + 1 && after.batches[..n] == db.batches
      && var b := after.batches[n];
         && BatchOf(b.head, req, env, Head(db, req.pool) + 1)
         && HeadIs(db.meta, "ledger_head:" + req.pool, b.prevHash)
         && b.hash == Link(d, b.prevHash, b.head, after.entries[|db.entries|..])
         && HeadIs(after.meta, "ledger_head:" + req.pool, b.hash) == (|b.hash| == HASH_LENGTH)
  {
    hide Link, Verdict, BatchInsertable, Upserted, UpsertFits, MaxAuditSeq, Sum, ProposalMoves, AllAmounts, ReadHead, HeadIs, MaxSeq, PoolBatches;
    AllOrNothing(d, db, req, env);
    var after, b := Commit(d, db, req, env).0, NewBatch(d, db, req, env);
    ReadHeadIs(db.meta, HeadKey(req.pool));
    EntriesAppended(d, db, req, env);
    HeadStored(d, db, req, env);
  }

  lemma EntriesAppended(d: Digest, db: Db, req: CommitRequest, env: Env)
    requires Writes(d, db, req, env)
    ensures Commit(d, db, req, env).0.entries[|db.entries|..] == NewEntries(db, req, env)
    ensures Commit(d, db, req, env).0.entries == db.entries + NewEntries(db, req, env)
  {
    hide Link, Verdict, BatchInsertable, Upserted, UpsertFits, MaxAuditSeq;
    AllOrNothing(d, db, req, env);
  }

  lemma HeadStored(d: Digest, db: Db, req: CommitRequest, env: Env)
    requires Writes(d, db, req, env)
    ensures var after := Commit(d, db, req, env).0;
            HeadIs(after.meta, HeadKey(req.pool), NewBatch(d, db, req, env).hash)
              == (|NewBatch(d, db, req, env).hash| == HASH_LENGTH)
  {
    hide Link, Verdict, BatchInsertable, Upserted, UpsertFits, MaxAuditSeq, EncodeHead, DecodeHead, NewBatch;
    AllOrNothing(d, db, req, env);
    HeadKeysDiffer(req.pool, req.pool);
    HeadRoundTrip(NewBatch(d, db, req, env).hash);
  }

  /** One entry row per proposed entry, in the order proposed. */
  lemma WrittenEntries(d: Digest, db: Db, req: CommitRequest, env: Env)
    requires Writes(d, db, req, env)
    ensures var after, n, es := Commit(d, db, req, env).0, |db.entries|, req.proposal.entries;
      && |after.entries| == n + |es| && after.entries[..n] == db.entries
      && forall i :: 0 <= i < |es| ==> EntryOfProposal(after.entries[n + i], es[i], req, env, Head(db, req.pool) + 1, i)
  {
    hide Commit, Writes, PoolBatches, MaxSeq;
    EntriesAppended(d, db, req, env);
  }

  /** One audit row and one event are appended, the row linked to the audit head and the head moved to it. */
  lemma WrittenBooks(d: Digest, db: Db, req: CommitRequest, env: Env)
    requires Writes(d, db, req, env)
    ensures var after, n, m := Commit(d, db, req, env).0, |db.audit|, |db.outbox|;
      && |after.audit| == n + 1 && after.audit[..n] == db.audit
      && (var a := after.audit[n];
          && AuditOf(a.body, req, env, MaxAuditSeq(db.audit) + 1)
          && HeadIs(db.meta, "audit_head", a.prevHash) && a.hash == d.audit(a.prevHash, a.body)
          && HeadIs(after.meta, "audit_head", a.hash) == (|a.hash| == HASH_LENGTH))
      && |after.outbox| == m + 1 && after.outbox[..m] == db.outbox
      && EventOf(after.outbox[m], req, env, db.lastEvent + 1) && after.lastEvent == db.lastEvent + 1
      && forall k :: k != "audit_head" && k != "ledger_head:" + req.pool ==>
           (k in after.meta <==> k in db.meta) && (k in db.meta ==> after.meta[k] == db.meta[k])
  {
    hide Link, Refusal, Replays, RowsFailure, Upserted, UpsertFits, MaxAuditSeq, EncodeHead, DecodeHead, NewBatch, NewEntries, HeadIs, ReadHead;
    AllOrNothing(d, db, req, env);
    ReadHeadIs(db.meta, AUDIT_HEAD);
    var a := NextAudit(d, db, req, env);
    AuditHeadIs(Commit(d, db, req, env).0.meta, a.hash);
  }

  lemma AuditHeadIs(meta: map<string, string>, hash: Bytes)
    requires AUDIT_HEAD in meta && meta[AUDIT_HEAD] == EncodeHead(hash)
    ensures HeadIs(meta, "audit_head", hash) == (|hash| == HASH_LENGTH)
  {
    HeadRoundTrip(hash);
  }

  /** The cached row of a key grows by the batch, and those of other pools stay. */
  lemma WrittenCacheRow(d: Digest, db: Db, req: CommitRequest, env: Env, k: SnapKey)
    requires Writes(d, db, req, env)
    ensures var after := Commit(d, db, req, env).0;
      && CachedAfter(CacheOf(db, req.pool), CacheOf(after, req.pool), req.proposal.entries, k, Head(db, req.pool) + 1, env.recordedAt)
      && forall pool :: pool != req.pool ==> CacheOf(after, pool) == CacheOf(db, pool)
  {
    hide Commit, Writes, CachedAfter, UpsertFits, Head, Upserted;
    var ms, cache := ProposalMoves(req.proposal.entries), CacheOf(db, req.pool);
    CacheWritten(d, db, req, env);
    UpsertedRow(cache, req.proposal.entries, Head(db, req.pool) + 1, env.recordedAt, k);
  }

  lemma CacheWritten(d: Digest, db: Db, req: CommitRequest, env: Env)
    requires Writes(d, db, req, env)
    ensures var ms, cache := ProposalMoves(req.proposal.entries), CacheOf(db, req.pool);
      && (forall k :: k in Keys(ms) ==> UpsertFits(cache, ms, k))
      && Commit(d, db, req, env).0.cache == db.cache[req.pool := Upserted(cache, ms, Head(db, req.pool) + 1, env.recordedAt)]
  {
    hide Link, Refusal, Replays, RowsFailure, BooksFailure, Upserted, UpsertFits, NextAudit, MaxSeq, PoolBatches, Keys, ProposalMoves, Moves;
    AllOrNothing(d, db, req, env);
    RowsOfNewBatch(req, env, NextPoolSeq(db, req.pool));
    WrittenRowsFit(db, NewBatch(d, db, req, env), NewEntries(db, req, env), env.fails);
  }

  lemma UpsertedRow(cache: map<SnapKey, Snap>, es: seq<EntryProposal>, seqNo: int, at: int, k: SnapKey)
    requires forall j :: j in Keys(ProposalMoves(es)) ==> UpsertFits(cache, ProposalMoves(es), j)
    ensures CachedAfter(cache, Upserted(cache, ProposalMoves(es), seqNo, at), es, k, seqNo, at)
  {
    hide ProposalMoves, Net, Amounts;
  }

  /** What the caller is told: the batch as stored, and the seqs of its audit row and event. */
  lemma ReceiptIs(d: Digest, db: Db, req: CommitRequest, env: Env)
    requires Writes(d, db, req, env)
    ensures var (after, out) := Commit(d, db, req, env);
      && out.Ok? && |after.batches| > |db.batches| && |after.audit| > |db.audit| && |after.outbox| > |db.outbox|
      && var r, b := out.value, after.batches[|db.batches|];
         && r.batchId == b.head.id && r.seqNo == b.head.seqNo && r.prevHash == b.prevHash && r.hash == b.hash
         && r.entryCount == b.head.entryCount && r.netAmount == b.head.netAmount && !r.replayed
         && r.auditSeq == after.audit[|db.audit|].body.seqNo && r.eventSeq == after.outbox[|db.outbox|].eventSeq
  {
    hide Link, Verdict, BatchInsertable, Upserted, UpsertFits, MaxAuditSeq, Sum, ProposalMoves, AllAmounts, ReadHead, MaxSeq, PoolBatches, EncodeHead;
    AllOrNothing(d, db, req, env);
  }

  /** What the caller is told of a batch that was there already. */
  lemma ReplayedReceiptIs(d: Digest, db: Db, req: CommitRequest, env: Env)
    requires ValidRequest(req) && Replays(db, req) && Lookup !in env.fails && EndTransaction !in env.fails
    ensures var (after, out) := Commit(d, db, req, env);
      && after == db && out.Ok?
      && exists b :: b in db.batches && b.head.pool == req.pool && b.head.idempotencyKey == req.idempotencyKey
           && out.value == Receipt(b.head.id, b.head.seqNo, b.prevHash, b.hash, b.head.entryCount, b.head.netAmount, 0, 0, true)
  {
    hide WriteResult;
    FoundByKey(db.batches, req.pool, req.idempotencyKey.value);
  }

  lemma {:induction false} FoundByKey(bs: seq<BatchRow>, pool: string, key: string)
    ensures var b := FindByIdempotencyKey(bs, pool, key);
            b.Some? ==> b.value in bs && b.value.head.pool == pool && b.value.head.idempotencyKey == Some(key)
  {
    if bs != [] {
      FoundByKey(bs[..|bs| - 1], pool, key);
      assert bs == bs[..|bs| - 1] + [bs[|bs| - 1]];
    }
  }
}
