/** The chain links (internal/ledger/hashchain.go): what is hashed, and that it is unambiguous. */
module HashChain {
  import opened Wrappers
  import opened Int64
  import opened Ordering
  import opened Rows
  import opened Queries
  import opened CommitSpec
  import opened Json

  // ---- the hash inputs ----

  const BATCH_NAMES: seq<string> := [
    "id", "pool_id", "seq", "kind", "strategy_id", "strategy_version", "config_snapshot_json", "rng_seed",
    "source", "source_ref", "actor_user_id", "actor_token_id", "actor_is_beneficiary", "reason",
    "reverses_batch_id", "effective_at", "recorded_at", "effective_day", "idempotency_key",
    "entry_count", "net_amount_cp"]

  const ENTRY_NAMES: seq<string> := [
    "id", "batch_id", "pool_id", "seq", "account_id", "character_id", "balance_kind", "amount_cp",
    "item_id", "item_award_id", "raid_id", "tick_id", "metadata_json"]

  const AUDIT_NAMES: seq<string> := [
    "id", "seq", "at", "actor_kind", "actor_label", "action", "resource_kind", "resource_id", "outcome", "ledger_batch_id"]

  /** A missing pointer hashes as null and not as "". */
  function OptStr(s: Option<string>): Value { if s.Some? then Str(s.value) else Null }

  function OptNum(n: Option<int>): Value { if n.Some? then Num(n.value) else Null }

  function BatchInput(h: BatchHeader): seq<Value> {
    [Str(h.id), Str(h.pool), Num(h.seqNo), Str(h.kind), Str(h.strategyId), Str(h.strategyVersion),
     Str(h.configSnapshot), OptNum(h.rngSeed), Str(h.source), OptStr(h.sourceRef), OptStr(h.actorUser),
     OptStr(h.actorToken), Num(h.actorIsBeneficiary), Str(h.reason), OptStr(h.reverses), Num(h.effectiveAt),
     Num(h.recordedAt), Str(h.effectiveDay), OptStr(h.idempotencyKey), Num(h.entryCount), Num(h.netAmount)]
  }

  function EntryInput(e: EntryRow): seq<Value> {
    [Str(e.id), Str(e.batch), Str(e.pool), Num(e.seqNo), Str(e.account), OptStr(e.character), Str(e.kind),
     Num(e.amount), OptStr(e.item), OptStr(e.itemAward), OptStr(e.raid), OptStr(e.tick), Str(e.metadata)]
  }

  function AuditInput(a: AuditBody): seq<Value> {
    [Str(a.id), Num(a.seqNo), Num(a.at), Str(a.actorKind), Str(a.actorLabel), Str(a.action),
     Str(a.resourceKind), OptStr(a.resourceId), Str(a.outcome), OptStr(a.ledgerBatch)]
  }

  function EntryInputs(es: seq<EntryRow>): (r: seq<seq<Value>>)
    ensures |r| == |es| && forall i :: 0 <= i < |es| ==> r[i] == EntryInput(es[i])
    ensures forall v :: v in r ==> |v| == |ENTRY_NAMES|
  {
    seq(|es|, i requires 0 <= i < |es| => EntryInput(es[i]))
  }

  function BatchText(h: BatchHeader): Text { Object(BATCH_NAMES, BatchInput(h)) }

  function EntriesText(es: seq<EntryRow>): Text { Array(ENTRY_NAMES, EntryInputs(es)) }

  function AuditText(a: AuditBody): Text { Object(AUDIT_NAMES, AuditInput(a)) }

  /** A batch as it is hashed: every column but the two of the chain itself, under its own name. */
  function BatchFields(h: BatchHeader): seq<Field> {
    [Field("id", Str(h.id)), Field("pool_id", Str(h.pool)), Field("seq", Num(h.seqNo)), Field("kind", Str(h.kind)),
     Field("strategy_id", Str(h.strategyId)), Field("strategy_version", Str(h.strategyVersion)),
     Field("config_snapshot_json", Str(h.configSnapshot)),
     Field("rng_seed", if h.rngSeed == None then Null else Num(h.rngSeed.value)),
     Field("source", Str(h.source)),
     Field("source_ref", if h.sourceRef == None then Null else Str(h.sourceRef.value)),
     Field("actor_user_id", if h.actorUser == None then Null else Str(h.actorUser.value)),
     Field("actor_token_id", if h.actorToken == None then Null else Str(h.actorToken.value)),
     Field("actor_is_beneficiary", Num(h.actorIsBeneficiary)), Field("reason", Str(h.reason)),
     Field("reverses_batch_id", if h.reverses == None then Null else Str(h.reverses.value)),
     Field("effective_at", Num(h.effectiveAt)), Field("recorded_at", Num(h.recordedAt)), Field("effective_day", Str(h.effectiveDay)),
     Field("idempotency_key", if h.idempotencyKey == None then Null else Str(h.idempotencyKey.value)),
     Field("entry_count", Num(h.entryCount)), Field("net_amount_cp", Num(h.netAmount))]
  }

  /** From `lo` on and before `hi` the fields are the names with the values. */
  predicate Names(fields: seq<Field>, names: seq<string>, values: seq<Value>, lo: nat, hi: nat) {
    |fields| == |names| == |values| && forall i :: lo <= i < hi && i < |fields| ==> fields[i] == Field(names[i], values[i])
  }

  lemma FirstFields(h: BatchHeader)
    ensures Names(BatchFields(h), BATCH_NAMES, BatchInput(h), 0, 7)
  {}

  lemma MiddleFields(h: BatchHeader)
    ensures Names(BatchFields(h), BATCH_NAMES, BatchInput(h), 7, 14)
  {}

  lemma LastFields(h: BatchHeader)
    ensures Names(BatchFields(h), BATCH_NAMES, BatchInput(h), 14, 21)
  {}

  lemma BatchTextIs(h: BatchHeader)
    ensures BatchText(h) == Spelled(BatchFields(h))
  {
    hide Object, Spelled, BatchFields, BatchInput;
    FirstFields(h);
    MiddleFields(h);
    LastFields(h);
    var names := BATCH_NAMES;
    ObjectIs(names, BatchInput(h));
    assert Listed(names, BatchInput(h)) == BatchFields(h);
  }

  function EntryFields(e: EntryRow): seq<Field> {
    [Field("id", Str(e.id)), Field("batch_id", Str(e.batch)), Field("pool_id", Str(e.pool)), Field("seq", Num(e.seqNo)),
     Field("account_id", Str(e.account)),
     Field("character_id", if e.character == None then Null else Str(e.character.value)),
     Field("balance_kind", Str(e.kind)), Field("amount_cp", Num(e.amount)),
     Field("item_id", if e.item == None then Null else Str(e.item.value)),
     Field("item_award_id", if e.itemAward == None then Null else Str(e.itemAward.value)),
     Field("raid_id", if e.raid == None then Null else Str(e.raid.value)),
     Field("tick_id", if e.tick == None then Null else Str(e.tick.value)),
     Field("metadata_json", Str(e.metadata))]
  }

  lemma EntryTextIs(e: EntryRow)
    ensures Object(ENTRY_NAMES, EntryInput(e)) == Spelled(EntryFields(e))
  {
    hide Object, Spelled;
    ObjectIs(ENTRY_NAMES, EntryInput(e));
    assert Listed(ENTRY_NAMES, EntryInput(e)) == EntryFields(e);
  }

  function AuditFields(a: AuditBody): seq<Field> {
    [Field("id", Str(a.id)), Field("seq", Num(a.seqNo)), Field("at", Num(a.at)), Field("actor_kind", Str(a.actorKind)),
     Field("actor_label", Str(a.actorLabel)), Field("action", Str(a.action)), Field("resource_kind", Str(a.resourceKind)),
     Field("resource_id", if a.resourceId == None then Null else Str(a.resourceId.value)),
     Field("outcome", Str(a.outcome)),
     Field("ledger_batch_id", if a.ledgerBatch == None then Null else Str(a.ledgerBatch.value))]
  }

  lemma AuditTextIs(a: AuditBody)
    ensures AuditText(a) == Spelled(AuditFields(a))
  {
    hide Object, Spelled;
    ObjectIs(AUDIT_NAMES, AuditInput(a));
    assert Listed(AUDIT_NAMES, AuditInput(a)) == AuditFields(a);
  }

  /** prev_hash, the batch and its entries, one after the other with nothing between. */
  function BatchPreimage(prev: Bytes, h: BatchHeader, es: seq<EntryRow>): Bytes {
    prev + Utf8(BatchText(h)) + Utf8(EntriesText(es))
  }

  function AuditPreimage(prev: Bytes, a: AuditBody): Bytes { prev + Utf8(AuditText(a)) }

  /** The two chains over one hash function. */
  function Chain(sha: Bytes -> Bytes): Digest {
    Digest((prev: Bytes, h: BatchHeader, es: seq<EntryRow>) => sha(BatchPreimage(prev, h, es)),
           (prev: Bytes, a: AuditBody) => sha(AuditPreimage(prev, a)))
  }

  // ---- the code ----

  /** crypto/sha256's running state: the bytes written so far. */
  class Hasher {
    const sha: Bytes -> Bytes
    var fed: Bytes

    constructor (sha: Bytes -> Bytes)
      ensures fed == [] && this.sha == sha
    {
      this.sha := sha;
      fed := [];
    }

    method Write(bytes: Bytes)
      modifies this
      ensures fed == old(fed) + bytes
    {
      fed := fed + bytes;
    }
  }

  /** `sort.Slice` by id, in place. */
  method SortById(a: array<EntryRow>)
    modifies a
    ensures a[..] == Sort(EntryIdLe, old(a[..]))
  {
    var sorted := Sort(EntryIdLe, a[..]);
    SortKeeps(EntryIdLe, a[..]);
    for i := 0 to a.Length
      invariant a[..i] == sorted[..i]
    {
      a[i] := sorted[i];
    }
    assert a[..] == a[..a.Length] && sorted[..a.Length] == sorted;
  }

  /** BatchHash: copy, sort, project each entry, and feed the three parts to the hash. */
  method BatchHash(sha: Bytes -> Bytes, prev: Bytes, h: BatchHeader, entries: seq<EntryRow>) returns (hash: Bytes)
    ensures hash == Link(Chain(sha), prev, h, entries)
  {
    hide Json.Array, Json.Object, Utf8;
    var sorted := new EntryRow[|entries|](i requires 0 <= i < |entries| => entries[i]);
    assert sorted[..] == entries;
    SortById(sorted);
    hash := Feed(sha, prev, h, sorted[..]);
  }

  method Feed(sha: Bytes -> Bytes, prev: Bytes, h: BatchHeader, sorted: seq<EntryRow>) returns (hash: Bytes)
    ensures hash == sha(BatchPreimage(prev, h, sorted))
  {
    hide Json.Array, Json.Object, Utf8, EntryInput, BatchInput;
    var inputs: seq<seq<Value>> := [];
    for i := 0 to |sorted|
      invariant |inputs| == i && forall k :: 0 <= k < i ==> inputs[k] == EntryInput(sorted[k])
    {
      inputs := inputs + [EntryInput(sorted[i])];
    }
    assert inputs == EntryInputs(sorted);
    var batchJson := Utf8(BatchText(h));
    var entriesJson := Utf8(Array(ENTRY_NAMES, inputs));
    var hasher := new Hasher(sha);
    hasher.Write(prev);
    hasher.Write(batchJson);
    hasher.Write(entriesJson);
    assert [] + prev == prev;
    hash := sha(hasher.fed);
  }

  /** AuditHash. */
  method AuditHash(sha: Bytes -> Bytes, prev: Bytes, a: AuditBody) returns (hash: Bytes)
    ensures hash == Chain(sha).audit(prev, a)
  {
    hide Utf8, AuditText;
    var hasher := new Hasher(sha);
    hasher.Write(prev);
    hasher.Write(Utf8(AuditText(a)));
    assert [] + prev == prev;
    assert hasher.fed == AuditPreimage(prev, a);
    hash := sha(hasher.fed);
  }

  // ---- the inputs hold every hashed column ----

  lemma BatchInputInjective(a: BatchHeader, b: BatchHeader)
    requires BatchInput(a) == BatchInput(b)
    ensures a == b
  {
    var x, y := BatchInput(a), BatchInput(b);
    assert forall i :: 0 <= i < 21 ==> x[i] == y[i];
    assert x[0] == y[0] && x[1] == y[1] && x[2] == y[2] && x[3] == y[3] && x[4] == y[4] && x[5] == y[5] && x[6] == y[6];
    assert x[7] == y[7] && x[8] == y[8] && x[9] == y[9] && x[10] == y[10] && x[11] == y[11] && x[12] == y[12] && x[13] == y[13];
    assert x[14] == y[14] && x[15] == y[15] && x[16] == y[16] && x[17] == y[17] && x[18] == y[18] && x[19] == y[19] && x[20] == y[20];
  }

  lemma EntryInputInjective(a: EntryRow, b: EntryRow)
    requires EntryInput(a) == EntryInput(b)
    ensures a == b
  {
    var x, y := EntryInput(a), EntryInput(b);
    assert x[0] == y[0] && x[1] == y[1] && x[2] == y[2] && x[3] == y[3] && x[4] == y[4] && x[5] == y[5] && x[6] == y[6];
    assert x[7] == y[7] && x[8] == y[8] && x[9] == y[9] && x[10] == y[10] && x[11] == y[11] && x[12] == y[12];
  }

  lemma AuditInputInjective(a: AuditBody, b: AuditBody)
    requires AuditInput(a) == AuditInput(b)
    ensures a == b
  {
    var x, y := AuditInput(a), AuditInput(b);
    assert x[0] == y[0] && x[1] == y[1] && x[2] == y[2] && x[3] == y[3] && x[4] == y[4];
    assert x[5] == y[5] && x[6] == y[6] && x[7] == y[7] && x[8] == y[8] && x[9] == y[9];
  }

  // ---- the framing ----

  /** Crockford's base 32: the digits and the capitals without I, L, O and U. */
  predicate IsCrockford(c: char) {
    '0' <= c <= '9' || ('A' <= c <= 'Z' && c != 'I' && c != 'L' && c != 'O' && c != 'U')
  }

  predicate IsUlid(s: string) { |s| == 26 && forall i :: 0 <= i < |s| ==> IsCrockford(s[i]) }

  predicate Linkable(prev: Bytes) { |prev| == 0 || |prev| == HASH_LENGTH }

  lemma CrockfordIsPlain(c: char)
    requires IsCrockford(c)
    ensures c as int < 0x80 && c != '{' && Escape(c) == [c]
  {}

  lemma {:induction false} PlainBody(s: string)
    requires forall i :: 0 <= i < |s| ==> IsCrockford(s[i])
    ensures Body(s) == s && Ascii(s)
  {
    if s != "" {
      CrockfordIsPlain(s[0]);
      PlainBody(s[1..]);
      assert s == [s[0]] + s[1..];
    }
  }

  const ID_OPENS: string := "{" + "\"id\"" + ":" + "\""

  lemma IdIsPlain()
    ensures Quoted("id") == "\"id\""
  {
    assert Body("id") == Escape('i') + Body("d") by { assert "id"[1..] == "d"; }
    assert Body("d") == Escape('d') + Body("") by { assert "d"[1..] == ""; }
    assert Body("id") == "id";
  }

  /** An object whose first field is a ULID named "id" has an id character 32 characters in. */
  lemma IdAt32(names: seq<string>, values: seq<Value>)
    requires |names| == |values| && 0 < |names| && names[0] == "id" && values[0].Str? && IsUlid(values[0].text)
    ensures |Utf8(Object(names, values))| > 32
    ensures Utf8(Object(names, values))[32] == values[0].text[25] as int
    ensures Utf8(Object(names, values))[32] != '{' as int
  {
    hide Escape, Body, Utf8;
    var id, rest := values[0].text, Fields(names, values, 1);
    PlainBody(id);
    IdIsPlain();
    var front := ID_OPENS + id;
    ObjectOpens(names, values);
    assert Ascii(front);
    Utf8Ascii(front);
    Utf8Append(front, "\"" + rest);
    assert front[32] == id[25];
    CrockfordIsPlain(id[25]);
  }

  lemma ObjectOpens(names: seq<string>, values: seq<Value>)
    requires |names| == |values| && 0 < |names| && names[0] == "id" && values[0].Str?
    requires Body(values[0].text) == values[0].text && Quoted("id") == "\"id\""
    ensures Object(names, values) == (ID_OPENS + values[0].text) + ("\"" + Fields(names, values, 1))
  {
    hide Body;
    var id, rest := values[0].text, Fields(names, values, 1);
    GlueOpens("{", Quoted("id"), ":", "\"", id, rest);
  }

  lemma GlueOpens(open: Text, name: Text, colon: Text, quote: Text, id: Text, rest: Text)
    ensures open + ("" + name + colon + (quote + id + quote) + rest) == ((open + name + colon + quote) + id) + (quote + rest)
  {}

  lemma ObjectOpensBrace(names: seq<string>, values: seq<Value>, rest: Bytes)
    requires |names| == |values|
    ensures |Utf8(Object(names, values))| > 0 && Utf8(Object(names, values))[0] == '{' as int
  {
    hide Fields;
    var t := Object(names, values);
    assert t[0] == '{' && Utf8(t) == Utf8Char('{') + Utf8(t[1..]);
  }

  /** With and without a previous hash, two preimages can only agree when the hashes are the same. */
  lemma PrevDelimits(prev: Bytes, other: Bytes, names: seq<string>, vs: seq<Value>, ws: seq<Value>, x: Bytes, y: Bytes)
    requires Linkable(prev) && Linkable(other) && |names| == |vs| == |ws| && 0 < |names| && names[0] == "id"
    requires vs[0].Str? && IsUlid(vs[0].text) && ws[0].Str? && IsUlid(ws[0].text)
    requires prev + (Utf8(Object(names, vs)) + x) == other + (Utf8(Object(names, ws)) + y)
    ensures prev == other && Utf8(Object(names, vs)) + x == Utf8(Object(names, ws)) + y
  {
    hide Utf8, Object, IsUlid;
    var a, b := Utf8(Object(names, vs)), Utf8(Object(names, ws));
    IdAt32(names, vs);
    IdAt32(names, ws);
    ObjectOpensBrace(names, vs, x);
    ObjectOpensBrace(names, ws, y);
    var s, t := prev + (a + x), other + (b + y);
    assert s[32] == if prev == [] then a[32] else a[0];
    assert t[32] == if other == [] then b[32] else b[0];
    assert |prev| == |other|;
    assert prev == s[..|prev|] && other == t[..|prev|];
    CancelPrefix(prev, a + x, b + y);
  }

  /** Of one batch the previous hash is determined by the preimage, whatever its length. */
  lemma PreimageFixesPrev(p: Bytes, q: Bytes, h: BatchHeader, es: seq<EntryRow>)
    requires BatchPreimage(p, h, es) == BatchPreimage(q, h, es)
    ensures p == q
  {
    hide Utf8, BatchText, EntriesText;
    CancelSuffix(p, q, Utf8(BatchText(h)) + Utf8(EntriesText(es)));
    assert BatchPreimage(p, h, es) == p + (Utf8(BatchText(h)) + Utf8(EntriesText(es)));
    assert BatchPreimage(q, h, es) == q + (Utf8(BatchText(h)) + Utf8(EntriesText(es)));
  }

  lemma CancelSuffix(p: Bytes, q: Bytes, rest: Bytes)
    ensures p + rest == q + rest ==> p == q
  {
    assert |p + rest| == |p| + |rest| && |q + rest| == |q| + |rest|;
    if p + rest == q + rest { assert p == (p + rest)[..|p|] && q == (q + rest)[..|q|]; }
  }

  /** The preimage determines all three of its parts. */
  lemma BatchPreimageInjective(prev: Bytes, other: Bytes, h: BatchHeader, g: BatchHeader, es: seq<EntryRow>, fs: seq<EntryRow>)
    requires Linkable(prev) && Linkable(other) && IsUlid(h.id) && IsUlid(g.id)
    requires BatchPreimage(prev, h, es) == BatchPreimage(other, g, fs)
    ensures prev == other && h == g && es == fs
  {
    hide Utf8, Json.Object, Json.Array, IsUlid;
    var a, b, x, y := BatchText(h), BatchText(g), EntriesText(es), EntriesText(fs);
    Assoc(prev, Utf8(a), Utf8(x));
    Assoc(other, Utf8(b), Utf8(y));
    PrevDelimits(prev, other, BATCH_NAMES, BatchInput(h), BatchInput(g), Utf8(x), Utf8(y));
    Utf8Append(a, x);
    Utf8Append(b, y);
    Utf8Injective(a + x, b + y);
    ObjectDelimits(BATCH_NAMES, BatchInput(h), BatchInput(g), x, y);
    BatchInputInjective(h, g);
    EntriesTextInjective(es, fs);
  }

  lemma EntriesTextInjective(es: seq<EntryRow>, fs: seq<EntryRow>)
    requires EntriesText(es) == EntriesText(fs)
    ensures es == fs
  {
    hide Json.Array, EntryInput;
    var x, y := EntriesText(es), EntriesText(fs);
    assert x + [] == x && y + [] == y;
    ArrayDelimits(ENTRY_NAMES, EntryInputs(es), EntryInputs(fs), [], []);
    forall i | 0 <= i < |es| ensures es[i] == fs[i] {
      assert EntryInputs(es)[i] == EntryInputs(fs)[i];
      EntryInputInjective(es[i], fs[i]);
    }
  }

  lemma AuditPreimageInjective(prev: Bytes, other: Bytes, a: AuditBody, b: AuditBody)
    requires Linkable(prev) && Linkable(other) && IsUlid(a.id) && IsUlid(b.id)
    requires AuditPreimage(prev, a) == AuditPreimage(other, b)
    ensures prev == other && a == b
  {
    hide Utf8, Json.Object, IsUlid;
    var x, y := AuditText(a), AuditText(b);
    assert Utf8(x) + [] == Utf8(x) && Utf8(y) + [] == Utf8(y);
    PrevDelimits(prev, other, AUDIT_NAMES, AuditInput(a), AuditInput(b), [], []);
    Utf8Injective(x, y);
    assert x + [] == x && y + [] == y;
    ObjectDelimits(AUDIT_NAMES, AuditInput(a), AuditInput(b), [], []);
    AuditInputInjective(a, b);
  }
}
