/** What the replay reports when one audit row of a clean ledger is rewritten in place. */
module AuditDamage {
  import opened Wrappers
  import opened Ordering
  import opened Rows
  import opened Queries
  import opened CommitSpec
  import opened VerifySpec
  import opened Attestation

  function SwapRow(r: AuditRow, c: AuditRow): AuditRow -> AuditRow { (x: AuditRow) => if x == r then c else x }

  /** The ledger with row `r` of audit_log overwritten by `c`. */
  function AuditRewritten(db: Db, r: AuditRow, c: AuditRow): Db { db.(audit := Map(SwapRow(r, c), db.audit)) }

  function AuditFinding(kind: FindingKind, seqNo: int): Finding { Finding(kind, "", seqNo, "", "", "") }

  ghost predicate HasAudit(db: Db, seqNo: int) { exists r :: r in db.audit && r.body.seqNo == seqNo }

  // ---- the walk of the rewritten log ----

  lemma AuditReplayMap(db: Db, r: AuditRow, c: AuditRow)
    requires c.body.seqNo == r.body.seqNo
    ensures AuditReplay(AuditRewritten(db, r, c)) == Map(SwapRow(r, c), AuditReplay(db))
  {
    SortMaps(AuditSeqLe, SwapRow(r, c), db.audit);
    FilterMaps((x: AuditRow) => x.body.seqNo > 0, SwapRow(r, c), AuditBySeq(db));
  }

  lemma AuditMembers(db: Db)
    ensures forall r :: r in AuditReplay(db) <==> r in db.audit && r.body.seqNo > 0
  {
    SortMembers(AuditSeqLe, db.audit);
    FilterMembers((x: AuditRow) => x.body.seqNo > 0, AuditBySeq(db));
  }

  /** In a clean ledger the row of seq n is the nth of the walk, and the walk meets it once. */
  lemma CleanAudit(d: Digest, db: Db, r: AuditRow)
    requires Clean(d, db) && r in db.audit && r.body.seqNo > 0
    ensures var rows, i := AuditReplay(db), r.body.seqNo - 1;
            && i < |rows| && rows[i] == r && (forall j :: 0 <= j < |rows| && j != i ==> rows[j] != r)
            && (forall j :: 0 <= j < |rows| ==> AuditRowHolds(d, rows, j))
            && (i + 1 < |rows| <==> HasAudit(db, r.body.seqNo + 1))
            && HeadHolds(db.meta, AUDIT_HEAD, AuditHashBefore(rows, |rows|))
  {
    hide AuditReplay, HeadHolds, PoolHolds, ReplayFits, Clean;
    var rows := AuditReplay(db);
    CleanMeansAttested(d, db);
    AuditMembers(db);
    var i :| 0 <= i < |rows| && rows[i] == r;
    assert forall j :: 0 <= j < |rows| ==> AuditRowHolds(d, rows, j);
    forall j | 0 <= j < |rows| ensures rows[j].body.seqNo == j + 1 { assert AuditRowHolds(d, rows, j); }
    if i + 1 < |rows| { assert rows[i + 1] in rows; }
    if HasAudit(db, i + 2) {
      var x :| x in db.audit && x.body.seqNo == i + 2;
      assert x in rows;
    }
  }

  ghost function AuditAt(d: Digest, rows: seq<AuditRow>, i: nat): seq<Finding>
    requires i < |rows|
  {
    AuditRowFindings(d, rows[i], AuditHashBefore(rows, i), AuditSeqWanted(rows, i))
  }

  /** Only rows `i` and `i + 1` have findings. */
  lemma {:induction false} AuditWalkOfTwo(d: Digest, rows: seq<AuditRow>, i: nat, n: nat)
    requires i < |rows| && n <= |rows|
    requires forall j :: 0 <= j < |rows| && j != i && j != i + 1 ==> AuditAt(d, rows, j) == []
    ensures AuditWalk(d, rows[..n]) == UpTo(d, rows, i, n)
  {
    hide AuditAt, UpTo;
    if n == 0 {
      UpToNone(d, rows, i);
    } else {
      AuditWalkOfTwo(d, rows, i, n - 1);
      AuditWalkNext(d, rows, n - 1);
      UpToNext(d, rows, i, n);
    }
  }

  ghost function UpTo(d: Digest, rows: seq<AuditRow>, i: nat, n: nat): seq<Finding>
    requires i < |rows| && n <= |rows|
  {
    if n <= i then [] else if n == i + 1 then AuditAt(d, rows, i) else AuditAt(d, rows, i) + AuditAt(d, rows, i + 1)
  }

  lemma UpToNone(d: Digest, rows: seq<AuditRow>, i: nat)
    requires i < |rows|
    ensures UpTo(d, rows, i, 0) == [] && AuditWalk(d, rows[..0]) == []
  {}

  lemma UpToNext(d: Digest, rows: seq<AuditRow>, i: nat, n: nat)
    requires i < |rows| && 0 < n <= |rows| && (n - 1 != i && n - 1 != i + 1 ==> AuditAt(d, rows, n - 1) == [])
    ensures UpTo(d, rows, i, n) == UpTo(d, rows, i, n - 1) + AuditAt(d, rows, n - 1)
  {
    hide AuditAt;
    assert [] + AuditAt(d, rows, n - 1) == AuditAt(d, rows, n - 1);
    assert UpTo(d, rows, i, n - 1) + [] == UpTo(d, rows, i, n - 1);
  }

  lemma AuditWalkNext(d: Digest, rows: seq<AuditRow>, n: nat)
    requires n < |rows|
    ensures AuditWalk(d, rows[..n + 1]) == AuditWalk(d, rows[..n]) + AuditAt(d, rows, n)
  {
    hide AuditRowFindings;
    assert rows[..n + 1][..n] == rows[..n];
  }

  /** What row `j` of the rewritten walk is reported for. */
  lemma RewrittenRow(d: Digest, rows: seq<AuditRow>, i: nat, c: AuditRow, j: nat)
    requires i < |rows| && j < |rows| && c.body.seqNo == rows[i].body.seqNo
    requires AuditRowHolds(d, rows, j) && (j > 0 ==> AuditRowHolds(d, rows, j - 1))
    ensures AuditAt(d, rows[i := c], j) ==
      if j == i then One(c.prevHash != rows[i].prevHash, AuditFinding(AuditPrevHashMismatch, i + 1))
                     + One(d.audit(c.prevHash, c.body) != c.hash, AuditFinding(AuditHashMismatch, i + 1))
      else if j == i + 1 then One(c.hash != rows[i].hash, AuditFinding(AuditPrevHashMismatch, i + 2))
      else []
  {}

  // ---- the report ----

  lemma {:induction false} SamePools(d: Digest, db: Db, after: Db, pools: seq<string>)
    requires after == db.(audit := after.audit)
    ensures PoolsFindings(d, after, pools) == PoolsFindings(d, db, pools)
  {
    hide Walk, HeadFindings, CacheFindings, Fold;
    if pools != [] { SamePools(d, db, after, pools[..|pools| - 1]); }
  }

  lemma OnlyTheAudit(d: Digest, db: Db, after: Db)
    requires Clean(d, db) && after == db.(audit := after.audit)
    ensures AllFindings(d, after) == AuditFindings(d, after)
  {
    hide PoolsFindings, AuditFindings;
    SamePools(d, db, after, Sort(StrLe, db.pools));
    assert PoolsFindings(d, after, Sort(StrLe, db.pools)) == [];
    assert [] + AuditFindings(d, after) == AuditFindings(d, after);
  }

  lemma Swapped(rows: seq<AuditRow>, i: nat, c: AuditRow)
    requires i < |rows| && forall j :: 0 <= j < |rows| && j != i ==> rows[j] != rows[i]
    ensures Map(SwapRow(rows[i], c), rows) == rows[i := c]
  {}

  /**
   * In a clean ledger, overwriting one audit row with any other of its seq is reported exactly so: the
   * link when its prev_hash changed, the hash when the row no longer hashes to what it stores, and,
   * when the stored hash changed, the link of the next row, or the head when there is none.
   */
  lemma AuditRewriteIsLocal(d: Digest, db: Db, r: AuditRow, c: AuditRow)
    requires Clean(d, db) && r in db.audit && r.body.seqNo > 0 && c.body.seqNo == r.body.seqNo
    ensures var seqNo := r.body.seqNo;
            AllFindings(d, AuditRewritten(db, r, c)) ==
              (if c.prevHash != r.prevHash then [AuditFinding(AuditPrevHashMismatch, seqNo)] else [])
              + (if d.audit(c.prevHash, c.body) != c.hash then [AuditFinding(AuditHashMismatch, seqNo)] else [])
              + (if c.hash == r.hash then []
                 else if HasAudit(db, seqNo + 1) then [AuditFinding(AuditPrevHashMismatch, seqNo + 1)]
                 else [AuditFinding(AuditHeadMismatch, seqNo)])
  {
    hide AuditReplay, Clean, AllFindings, AuditWalk, AuditRowHolds, HasAudit, AuditAt, HeadFindings, HeadHolds;
    var rows, i, after := AuditReplay(db), r.body.seqNo - 1, AuditRewritten(db, r, c);
    CleanAudit(d, db, r);
    OnlyTheAudit(d, db, after);
    AuditReplayMap(db, r, c);
    Swapped(rows, i, c);
    RewrittenWalk(d, rows, i, c);
    RewrittenHead(d, db, rows, i, c);
  }

  lemma RewrittenWalk(d: Digest, rows: seq<AuditRow>, i: nat, c: AuditRow)
    requires i < |rows| && c.body.seqNo == rows[i].body.seqNo
    requires forall j :: 0 <= j < |rows| ==> AuditRowHolds(d, rows, j)
    ensures AuditWalk(d, rows[i := c]) ==
      One(c.prevHash != rows[i].prevHash, AuditFinding(AuditPrevHashMismatch, i + 1))
      + One(d.audit(c.prevHash, c.body) != c.hash, AuditFinding(AuditHashMismatch, i + 1))
      + if i + 1 < |rows| then One(c.hash != rows[i].hash, AuditFinding(AuditPrevHashMismatch, i + 2)) else []
  {
    hide AuditAt, AuditWalk, AuditRowHolds;
    var now := rows[i := c];
    forall j | 0 <= j < |rows| && j != i && j != i + 1 ensures AuditAt(d, now, j) == [] { RewrittenRow(d, rows, i, c, j); }
    RewrittenRow(d, rows, i, c, i);
    if i + 1 < |rows| { RewrittenRow(d, rows, i, c, i + 1); }
    AuditWalkOfTwo(d, now, i, |rows|);
    assert now[..|rows|] == now;
  }

  /** The head names the last hash: it is wrong exactly when that one changed. */
  lemma RewrittenHead(d: Digest, db: Db, rows: seq<AuditRow>, i: nat, c: AuditRow)
    requires i < |rows| && AuditRowHolds(d, rows, |rows| - 1) && c.body.seqNo == rows[i].body.seqNo
    requires HeadHolds(db.meta, AUDIT_HEAD, AuditHashBefore(rows, |rows|))
    ensures var now, n := rows[i := c], |rows|;
      HeadFindings(db.meta, AUDIT_HEAD, AuditHashBefore(now, n), AuditFinding(AuditHeadMismatch, now[n - 1].body.seqNo))
        == One(i + 1 == n && c.hash != rows[i].hash, AuditFinding(AuditHeadMismatch, n))
  {
    hide ReadHead;
  }

  /** The log is evidence: overwriting what a row says, and nothing else, is one finding, at that row. */
  lemma AuditBodyIsOneFinding(d: Digest, db: Db, r: AuditRow, body: AuditBody)
    requires Clean(d, db) && r in db.audit && r.body.seqNo > 0 && body.seqNo == r.body.seqNo
    requires d.audit(r.prevHash, body) != d.audit(r.prevHash, r.body)
    ensures AllFindings(d, AuditRewritten(db, r, r.(body := body)))
         == [Finding(AuditHashMismatch, "", r.body.seqNo, "", "", "")]
  {
    hide AllFindings, Clean, AuditRewritten, AuditReplay, HeadHolds;
    StoredAuditHash(d, db, r);
    AuditRewriteIsLocal(d, db, r, r.(body := body));
  }

  lemma StoredAuditHash(d: Digest, db: Db, r: AuditRow)
    requires Clean(d, db) && r in db.audit && r.body.seqNo > 0
    ensures r.hash == d.audit(r.prevHash, r.body)
  {
    hide Clean, AuditReplay, HeadHolds, HasAudit;
    CleanAudit(d, db, r);
    assert AuditRowHolds(d, AuditReplay(db), r.body.seqNo - 1);
  }

  /** Overwriting a stored hash: the row does not hash to it, and what names the row no longer does. */
  lemma AuditRehashIsTwoFindings(d: Digest, db: Db, r: AuditRow, hash: Bytes)
    requires Clean(d, db) && r in db.audit && r.body.seqNo > 0 && hash != r.hash
    ensures AllFindings(d, AuditRewritten(db, r, r.(hash := hash))) ==
      [Finding(AuditHashMismatch, "", r.body.seqNo, "", "", ""),
       if HasAudit(db, r.body.seqNo + 1) then Finding(AuditPrevHashMismatch, "", r.body.seqNo + 1, "", "", "")
       else Finding(AuditHeadMismatch, "", r.body.seqNo, "", "", "")]
  {
    hide AllFindings, Clean, AuditRewritten, HasAudit;
    StoredAuditHash(d, db, r);
    AuditRewriteIsLocal(d, db, r, r.(hash := hash));
  }

  /** Overwriting a stored previous hash: the link, and the hash exactly when the row no longer hashes to what it stores. */
  lemma AuditRelinkIsLocal(d: Digest, db: Db, r: AuditRow, prev: Bytes)
    requires Clean(d, db) && r in db.audit && r.body.seqNo > 0 && prev != r.prevHash
    ensures var link := Finding(AuditPrevHashMismatch, "", r.body.seqNo, "", "", "");
            AllFindings(d, AuditRewritten(db, r, r.(prevHash := prev))) ==
              if d.audit(prev, r.body) == r.hash then [link]
              else [link, Finding(AuditHashMismatch, "", r.body.seqNo, "", "", "")]
  {
    hide AllFindings, Clean, AuditRewritten, HasAudit;
    AuditRewriteIsLocal(d, db, r, r.(prevHash := prev));
  }
}
