/** One call of Commit as a function of the database it starts from (internal/ledger/commit.go). */
module CommitSpec {
  import opened Wrappers
  import opened Int64
  import opened Rows
  import opened Hex
  import opened Queries
  import opened Proposals
  import opened Invariants

  /** The statements a commit sends, named so that any of them can be made to fail. */
  datatype Statement = Lookup | InsertBatch | InsertEntry(i: nat) | Upsert(key: SnapKey)
                     | InsertAudit | InsertOutbox | LedgerHead | AuditHead | EndTransaction

  /** What the clock, the id generator, the guild's calendar and the disk decide during one call. */
  datatype Env = Env(mint: nat -> string, recordedAt: int, day: string, auditAt: int, eventAt: int, fails: set<Statement>)

  datatype Receipt = Receipt(
    batchId: string, seqNo: int, prevHash: Bytes, hash: Bytes, entryCount: int, netAmount: int,
    auditSeq: int, eventSeq: int, replayed: bool)

  // ---- the request ----

  predicate ValidRequest(req: CommitRequest) {
    && req.pool != ""
    && IsBatchSource(req.source)
    && IsActorKind(req.actor.kind)
    && IsBatchKind(req.proposal.kind)
    && req.proposal.strategyId != "" && req.proposal.strategyVersion != ""
    && req.idempotencyKey != Some("")
  }

  function OrDefault(value: string, fallback: string): string { if value == "" then fallback else value }

  function HeadKey(pool: string): string { "ledger_head:" + pool }

  const AUDIT_HEAD: string := "audit_head"

  function ReadHead(meta: map<string, string>, key: string): Result<Bytes, CommitError> {
    if key !in meta then Ok([])
    else match DecodeHead(meta[key]) case None => Err(BadHead) case Some(h) => Ok(h)
  }

  // ---- the rows ----

  function HeaderOf(req: CommitRequest, env: Env, seqNo: int, net: int): BatchHeader {
    var p := req.proposal;
    BatchHeader(
      env.mint(0), req.pool, seqNo, p.kind, p.strategyId, p.strategyVersion,
      OrDefault(p.configSnapshot, "{}"), p.rngSeed, req.source, req.sourceRef,
      req.actor.user, req.actor.token, 0, p.reason, p.reverses,
      p.effectiveAt, env.recordedAt, env.day, req.idempotencyKey, |p.entries|, net)
  }

  function EntryOf(req: CommitRequest, env: Env, seqNo: int, i: nat): EntryRow
    requires i < |req.proposal.entries|
  {
    var e := req.proposal.entries[i];
    EntryRow(env.mint(i + 1), env.mint(0), req.pool, seqNo, e.account, e.character, e.kind, e.amount,
             e.item, e.itemAward, e.raid, e.tick, OrDefault(e.metadata, "{}"))
  }

  function EntriesFor(req: CommitRequest, env: Env, seqNo: int): (r: seq<EntryRow>)
    ensures |r| == |req.proposal.entries|
    ensures forall i :: 0 <= i < |r| ==> r[i] == EntryOf(req, env, seqNo, i)
  {
    seq(|req.proposal.entries|, i requires 0 <= i < |req.proposal.entries| => EntryOf(req, env, seqNo, i))
  }

  /** The link is over the previous head, the header and the entries in id order. */
  function Link(d: Digest, prev: Bytes, head: BatchHeader, es: seq<EntryRow>): Bytes {
    d.link(prev, head, Ordering.Sort(EntryIdLe, es))
  }

  /** Whatever order the entries come in, what is hashed is their listing by ascending id. */
  lemma LinkIsById(d: Digest, prev: Bytes, head: BatchHeader, es: seq<EntryRow>, byId: seq<EntryRow>)
    requires multiset(byId) == multiset(es)
    requires forall i, j :: 0 <= i < j < |byId| ==> Ordering.StrLt(byId[i].id, byId[j].id)
    ensures Link(d, prev, head, es) == d.link(prev, head, byId)
  {
    var sorted := Ordering.Sort(EntryIdLe, es);
    EntryIdLeIsOrder();
    Ordering.SortSorts(EntryIdLe, es);
    Ordering.SortKeeps(EntryIdLe, es);
    Ordering.SameMembers(sorted, byId);
    Ordering.DistinctPermutes((e: EntryRow) => e.id, sorted, byId);
    forall i, j | 0 <= i < j < |sorted| ensures EntryIdLe(sorted[i], sorted[j]) && !EntryIdLe(sorted[j], sorted[i]) {
      if EntryIdLe(sorted[j], sorted[i]) { Ordering.StrLeAntisymmetric(sorted[i].id, sorted[j].id); }
    }
    forall i, j | 0 <= i < j < |byId| ensures EntryIdLe(byId[i], byId[j]) && !EntryIdLe(byId[j], byId[i]) {
      if EntryIdLe(byId[j], byId[i]) { Ordering.StrLeAntisymmetric(byId[i].id, byId[j].id); }
    }
    Ordering.StrictUnique(EntryIdLe, sorted, byId);
  }

  function BatchFor(d: Digest, req: CommitRequest, env: Env, seqNo: int, net: int, prev: Bytes): BatchRow {
    var head := HeaderOf(req, env, seqNo, net);
    BatchRow(head, prev, Link(d, prev, head, EntriesFor(req, env, seqNo)))
  }

  function AuditBodyFor(req: CommitRequest, env: Env, seqNo: int): AuditBody {
    AuditBody(env.mint(|req.proposal.entries| + 1), seqNo, env.auditAt, req.actor.kind, req.actor.displayName,
              OrDefault(req.action, "ledger.batch.commit"), "ledger_batch", Some(env.mint(0)),
              "success", Some(env.mint(0)))
  }

  function AuditFor(d: Digest, req: CommitRequest, env: Env, seqNo: int, prev: Bytes): AuditRow {
    var body := AuditBodyFor(req, env, seqNo);
    AuditRow(body, prev, d.audit(prev, body))
  }

  function EventFor(req: CommitRequest, env: Env, eventSeq: int): OutboxRow {
    OutboxRow(eventSeq, env.mint(|req.proposal.entries| + 2), OrDefault(req.topic, "pool:" + req.pool),
              OrDefault(req.eventType, "ledger.batch.committed"),
              "/api/v1/ledger/batches/" + env.mint(0), env.eventAt)
  }

  // ---- the constraints of the schema ----

  predicate BatchInsertable(db: Db, b: BatchRow) {
    var h := b.head;
    && h.pool in db.pools
    && IsBatchKind(h.kind) && IsBatchSource(h.source)
    && h.actorIsBeneficiary in {0, 1} && h.entryCount > 0 && h.recordedAt >= 0 && h.effectiveAt >= 0
    && (h.reverses.Some? ==> exists o :: o in db.batches && o.head.id == h.reverses.value)
    && forall o :: o in db.batches ==>
         && o.head.id != h.id
         && (o.head.pool == h.pool ==>
               && o.head.seqNo != h.seqNo
               && (h.sourceRef.Some? ==> o.head.sourceRef != h.sourceRef)
               && (h.idempotencyKey.Some? ==> o.head.idempotencyKey != h.idempotencyKey))
         && (h.reverses.Some? ==> o.head.reverses != h.reverses)
  }

  predicate EntryInsertable(db: Db, e: EntryRow) {
    && e.pool in db.pools && e.account in db.accounts && e.amount != 0
    && (exists b :: b in db.batches && b.head.id == e.batch)
    && forall o :: o in db.entries ==> o.id != e.id
  }

  predicate AuditInsertable(db: Db, a: AuditRow) {
    && IsActorKind(a.body.actorKind)
    && (a.body.ledgerBatch.Some? ==> exists b :: b in db.batches && b.head.id == a.body.ledgerBatch.value)
    && forall o :: o in db.audit ==> o.body.id != a.body.id && o.body.seqNo != a.body.seqNo
  }

  predicate OutboxInsertable(db: Db, e: OutboxRow) {
    forall o :: o in db.outbox ==> o.id != e.id
  }

  // ---- the cache ----

  function Cached(cache: map<SnapKey, Snap>, k: SnapKey): Snap {
    if k in cache then cache[k] else Snap(0, 0, 0, 0)
  }

  /** What an additive upsert leaves for one key: the amount and count grow, the seq advances. */
  ghost predicate UpsertFits(cache: map<SnapKey, Snap>, ms: seq<Move>, k: SnapKey) {
    InRange(Cached(cache, k).amount + Net(ms, k))
  }

  ghost function UpsertedKeys(cache: map<SnapKey, Snap>, ms: seq<Move>, keys: set<SnapKey>, seqNo: int, at: int): map<SnapKey, Snap>
    requires forall k :: k in keys ==> UpsertFits(cache, ms, k)
  {
    map k | k in cache.Keys + keys ::
      if k in keys
      then assert UpsertFits(cache, ms, k);
           Snap(Cached(cache, k).amount + Net(ms, k), seqNo, Cached(cache, k).count + |Amounts(ms, k)|, at)
      else cache[k]
  }

  ghost function Upserted(cache: map<SnapKey, Snap>, ms: seq<Move>, seqNo: int, at: int): map<SnapKey, Snap>
    requires forall k :: k in Keys(ms) ==> UpsertFits(cache, ms, k)
  {
    UpsertedKeys(cache, ms, Keys(ms), seqNo, at)
  }

  ghost predicate DeltasFit(ms: seq<Move>) { forall k :: k in Keys(ms) ==> PrefixesFit(Amounts(ms, k)) }

  // ---- the transaction ----

  predicate EntryFails(db: Db, rows: seq<EntryRow>, i: nat, fails: set<Statement>)
    requires i < |rows|
  {
    InsertEntry(i) in fails || !EntryInsertable(db.(entries := db.entries + rows[..i]), rows[i])
  }

  ghost predicate UpsertFails(cache: map<SnapKey, Snap>, ms: seq<Move>, k: SnapKey, fails: set<Statement>) {
    Upsert(k) in fails || !UpsertFits(cache, ms, k)
  }

  /** Why writing the batch, its entries and the cache fails, if it does, in statement order. */
  ghost function RowsFailure(db: Db, b: BatchRow, rows: seq<EntryRow>, fails: set<Statement>): Option<CommitError> {
    var ms, cached := Moves(rows), CacheOf(db, b.head.pool);
    var db1 := db.(batches := db.batches + [b]);
    if InsertBatch in fails || !BatchInsertable(db, b) then Some(StoreFailure)
    else if exists i :: 0 <= i < |rows| && EntryFails(db1, rows, i, fails) then Some(StoreFailure)
    else if !DeltasFit(ms) then Some(DeltaOverflow)
    else if exists k :: k in Keys(ms) && UpsertFails(cached, ms, k, fails) then Some(StoreFailure)
    else None
  }

  /** The tables once those rows are written. */
  ghost function WithRows(db: Db, b: BatchRow, rows: seq<EntryRow>): Db
    requires forall k :: k in Keys(Moves(rows)) ==> UpsertFits(CacheOf(db, b.head.pool), Moves(rows), k)
  {
    db.(batches := db.batches + [b],
        entries := db.entries + rows,
        cache := db.cache[b.head.pool :=
          Upserted(CacheOf(db, b.head.pool), Moves(rows), b.head.seqNo, b.head.recordedAt)])
  }

  /** The audit row a commit appends, given the tables it sees. */
  function NextAudit(d: Digest, db: Db, req: CommitRequest, env: Env): AuditRow {
    var prev := ReadHead(db.meta, AUDIT_HEAD);
    AuditFor(d, req, env, MaxAuditSeq(db.audit) + 1, if prev.Ok? then prev.value else [])
  }

  /** Why writing the audit row, the event or a head fails, if it does. */
  function BooksFailure(d: Digest, db: Db, req: CommitRequest, env: Env): Option<CommitError> {
    if ReadHead(db.meta, AUDIT_HEAD).Err? then Some(BadHead)
    else if InsertAudit in env.fails || !AuditInsertable(db, NextAudit(d, db, req, env)) then Some(StoreFailure)
    else if InsertOutbox in env.fails || !OutboxInsertable(db, EventFor(req, env, db.lastEvent + 1)) then Some(StoreFailure)
    else if LedgerHead in env.fails || AuditHead in env.fails then Some(StoreFailure)
    else None
  }

  function WithBooks(d: Digest, db: Db, req: CommitRequest, env: Env, b: BatchRow): Db {
    var audit := NextAudit(d, db, req, env);
    db.(audit := db.audit + [audit],
        outbox := db.outbox + [EventFor(req, env, db.lastEvent + 1)],
        lastEvent := db.lastEvent + 1,
        meta := db.meta[HeadKey(req.pool) := EncodeHead(b.hash)][AUDIT_HEAD := EncodeHead(audit.hash)])
  }

  /** Why the write phase fails, if it does. */
  ghost function WriteFailure(d: Digest, db: Db, req: CommitRequest, env: Env, b: BatchRow, rows: seq<EntryRow>): Option<CommitError>
  {
    var failure := RowsFailure(db, b, rows, env.fails);
    if failure.Some? then failure
    else
      WrittenRowsFit(db, b, rows, env.fails);
      BooksFailure(d, WithRows(db, b, rows), req, env)
  }

  lemma WrittenRowsFit(db: Db, b: BatchRow, rows: seq<EntryRow>, fails: set<Statement>)
    requires RowsFailure(db, b, rows, fails).None?
    ensures forall k :: k in Keys(Moves(rows)) ==> UpsertFits(CacheOf(db, b.head.pool), Moves(rows), k)
  {
    forall k | k in Keys(Moves(rows)) ensures UpsertFits(CacheOf(db, b.head.pool), Moves(rows), k) {
      assert !UpsertFails(CacheOf(db, b.head.pool), Moves(rows), k, fails);
    }
  }

  /** The database after the five kinds of row and the two heads are written. */
  ghost function Written(d: Digest, db: Db, req: CommitRequest, env: Env, b: BatchRow, rows: seq<EntryRow>): Db
    requires WriteFailure(d, db, req, env, b, rows).None?
  {
    WrittenRowsFit(db, b, rows, env.fails);
    WithBooks(d, WithRows(db, b, rows), req, env, b)
  }

  ghost function NewBatch(d: Digest, db: Db, req: CommitRequest, env: Env): BatchRow {
    var prev := ReadHead(db.meta, HeadKey(req.pool));
    BatchFor(d, req, env, NextPoolSeq(db, req.pool), Sum(AllAmounts(ProposalMoves(req.proposal.entries))),
             if prev.Ok? then prev.value else [])
  }

  ghost function NewEntries(db: Db, req: CommitRequest, env: Env): seq<EntryRow> {
    EntriesFor(req, env, NextPoolSeq(db, req.pool))
  }

  /** Everything before the first write: a rule that refuses, or a head that does not parse. */
  ghost function Refusal(db: Db, req: CommitRequest): Option<CommitError> {
    var next := NextPoolSeq(db, req.pool);
    var v := Verdict(db, req.pool, next, next - 1, req.proposal);
    if v.Some? then v
    else if ReadHead(db.meta, HeadKey(req.pool)).Err? then Some(BadHead)
    else None
  }

  ghost predicate Writes(d: Digest, db: Db, req: CommitRequest, env: Env) {
    && ValidRequest(req) && !Replays(db, req) && Refusal(db, req).None?
    && (req.idempotencyKey.Some? ==> Lookup !in env.fails)
    && WriteFailure(d, db, req, env, NewBatch(d, db, req, env), NewEntries(db, req, env)).None?
    && EndTransaction !in env.fails
  }

  ghost predicate Replays(db: Db, req: CommitRequest) {
    req.idempotencyKey.Some? && FindByIdempotencyKey(db.batches, req.pool, req.idempotencyKey.value).Some?
  }

  function ReplayReceipt(b: BatchRow): Receipt {
    Receipt(b.head.id, b.head.seqNo, b.prevHash, b.hash, b.head.entryCount, b.head.netAmount, 0, 0, true)
  }

  /** What `write` returns, and the tables it leaves when it succeeds. */
  ghost function WriteResult(d: Digest, db: Db, req: CommitRequest, env: Env): Result<(Db, Receipt), CommitError> {
    if Refusal(db, req).Some? then Err(Refusal(db, req).value)
    else
      var b, rows := NewBatch(d, db, req, env), NewEntries(db, req, env);
      var failure := WriteFailure(d, db, req, env, b, rows);
      if failure.Some? then Err(failure.value)
      else Ok((Written(d, db, req, env, b, rows),
               Receipt(b.head.id, b.head.seqNo, b.prevHash, b.hash, b.head.entryCount, b.head.netAmount,
                       MaxAuditSeq(db.audit) + 1, db.lastEvent + 1, false)))
  }

  /** What happens inside the transaction. */
  ghost function InTransaction(d: Digest, db: Db, req: CommitRequest, env: Env): Result<(Db, Receipt), CommitError> {
    if req.idempotencyKey.Some? && Lookup in env.fails then Err(StoreFailure)
    else if Replays(db, req) then
      Ok((db, ReplayReceipt(FindByIdempotencyKey(db.batches, req.pool, req.idempotencyKey.value).value)))
    else WriteResult(d, db, req, env)
  }

  /** The whole call: the database it leaves and what it returns. */
  ghost function Commit(d: Digest, db: Db, req: CommitRequest, env: Env): (Db, Result<Receipt, CommitError>) {
    if !ValidRequest(req) then (db, Err(InvalidRequest))
    else match InTransaction(d, db, req, env)
      case Err(e) => (db, Err(e))
      case Ok((after, receipt)) =>
        if EndTransaction in env.fails then (db, Err(StoreFailure)) else (after, Ok(receipt))
  }

  /** A call either writes the whole batch or leaves the database as it was. */
  lemma AllOrNothing(d: Digest, db: Db, req: CommitRequest, env: Env)
    ensures Commit(d, db, req, env).0 ==
      if Writes(d, db, req, env) then Written(d, db, req, env, NewBatch(d, db, req, env), NewEntries(db, req, env)) else db
  {}
}
