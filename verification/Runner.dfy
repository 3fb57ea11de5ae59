/**
 * The boot sequence (internal/migrate/runner.go): finish an owed restore, snapshot, apply one
 * migration at a time with every check after each, and put the snapshot back on any failure.
 */
module Runner {
  import opened Wrappers
  import opened Ordering
  import opened Blanks
  import opened Restore

  /** What of a database the runner looks at: what is pending, and the append-only state. */
  datatype Schema = Schema(pending: seq<string>, tables: seq<string>, missing: seq<string>)

  /** One turn of the loop: what applying did, and which of the checks after it returned nil. */
  datatype Turn = Turn(applied: bool, after: Image, enforced: bool, intact: bool, keysOk: bool, guardRead: bool)

  /** Taking the snapshot works, or fails with or without a torn archive left behind. */
  datatype Snapshotting = Taken | NotTaken(torn: bool)

  /** What every call into the store, the file system and the migrator answers during one boot. */
  datatype Plan = Plan(
    schema: Image -> Schema, sound: Image -> bool, ahead: Image -> bool,
    read: Fate, resume: Faults, opens: bool, statusReads: bool, auto: bool,
    path: string, snapshot: Snapshotting, migrator: bool, baseline: bool,
    turn: (nat, Image) -> Turn, versionReads: bool, stamp: Image -> Image, stamps: bool,
    closes: bool, undo: Faults)

  /** The migrator applies the first pending migration; the two version rows are not schema. */
  ghost predicate Honest(p: Plan) {
    && (forall k: nat, i: Image :: p.schema(i).pending != [] && p.turn(k, i).applied ==>
          p.schema(p.turn(k, i).after).pending == p.schema(i).pending[1..])
    && forall i: Image :: p.schema(p.stamp(i)) == p.schema(i)
  }

  datatype Outcome = Crashed | NotResumed | Refused | Served | FailedUpgrade(restored: bool)

  // ---- the loop, as a function ----

  function NotInSpec(want: seq<string>, have: seq<string>): seq<string> { Filter((s: string) => s !in have, want) }

  predicate ChecksPass(guard: Schema, found: Schema, t: Turn) {
    && t.enforced && t.intact && t.keysOk && t.guardRead
    && NotInSpec(guard.tables, found.tables) == [] && NotInSpec(found.missing, guard.missing) == []
  }

  datatype Climb = Climbed(image: Image) | Slipped(image: Image)

  ghost function ClimbFrom(p: Plan, k: nat, i: Image, guard: Schema): Climb
    requires Honest(p)
    decreases |p.schema(i).pending|
  {
    var t := p.turn(k, i);
    if !t.applied then Slipped(t.after)
    else if p.schema(i).pending == [] then Climbed(i)
    else if !ChecksPass(guard, p.schema(t.after), t) then Slipped(t.after)
    else ClimbFrom(p, k + 1, t.after, p.schema(t.after))
  }

  // ---- the boot, as a function ----

  function Checkpointed(d: Disk): Disk { d.(db := Live(d), wal := None) }

  /** Closing the last connection checkpoints the WAL; a failure to close is only logged. */
  function Closed(p: Plan, d: Disk): Disk { if p.closes then Checkpointed(d) else d }

  function Wrote(d: Disk, i: Image): Disk { d.(wal := Some(i)) }

  function Recorded(p: Plan, d: Disk): (Disk, Outcome) {
    (Closed(p, Wrote(d, p.stamp(Live(d)))), if p.stamps then Served else Refused)
  }

  function WithSnapshot(p: Plan, d: Disk): (Disk, bool) {
    if p.path in d.snapshots then (d, false)
    else match p.snapshot
      case NotTaken(torn) => (if torn then d.(snapshots := d.snapshots[p.path := Torn]) else d, false)
      case Taken => (Checkpointed(d).(snapshots := d.snapshots[p.path := Whole(Live(d))]), true)
  }

  ghost function Undone(p: Plan, d: Disk): (Disk, Outcome) {
    var (after, end) := RestoreResult(p.sound, Closed(p, d), p.path, p.undo);
    (after, match end case Completed => FailedUpgrade(true) case Stopped => FailedUpgrade(false) case Died => Crashed)
  }

  /** From an open database with something pending and permission to migrate. */
  ghost function Upgraded(p: Plan, d: Disk): (Disk, Outcome)
    requires Honest(p)
  {
    var (taken, ok) := WithSnapshot(p, d);
    if !ok || !p.migrator || !p.baseline then (Closed(p, taken), Refused)
    else match ClimbFrom(p, 0, Live(taken), p.schema(Live(taken)))
      case Slipped(i) => Undone(p, Wrote(taken, i))
      case Climbed(i) =>
        if !p.versionReads then (Closed(p, Wrote(taken, i)), Refused) else Recorded(p, Wrote(taken, i))
  }

  ghost function Opened(p: Plan, d: Disk): (Disk, Outcome)
    requires Honest(p)
  {
    if !p.statusReads || p.ahead(Live(d)) then (Closed(p, d), Refused)
    else if p.schema(Live(d)).pending == [] then Recorded(p, d)
    else if !p.auto then (Closed(p, d), Served)
    else Upgraded(p, d)
  }

  ghost function MigrateResult(p: Plan, d: Disk): (Disk, Outcome)
    requires Honest(p)
  {
    var (start, boot) := ResumeResult(p.sound, d, p.read, p.resume);
    match boot
    case Dead => (start, Crashed)
    case Refuses => (start, NotResumed)
    case Opens => if !p.opens then (start, Refused) else Opened(p, start)
  }

  // ---- the code ----

  /** `notIn`: what of `want` does not appear in `have`, in order. */
  method NotIn(want: seq<string>, have: seq<string>) returns (out: seq<string>)
    ensures out == NotInSpec(want, have)
  {
    var present: set<string> := {};
    for i := 0 to |have|
      invariant forall s :: s in present <==> s in have[..i]
    {
      present := present + {have[i]};
    }
    assert have[..|have|] == have;
    out := [];
    for i := 0 to |want|
      invariant out == NotInSpec(want[..i], have)
    {
      assert want[..i + 1][..i] == want[..i];
      if want[i] !in present { out := out + [want[i]]; }
    }
    assert want[..|want|] == want;
  }

  class Booter {
    const p: Plan
    const files: Files

    constructor (p: Plan, files: Files)
      requires files.sound == p.sound
      ensures this.p == p && this.files == files
    {
      this.p, this.files := p, files;
    }

    /** Opening creates a WAL, so it must not happen beside a file that is about to be replaced. */
    method Open()
      requires !files.open && files.marker.None?
      modifies files`open
      ensures files.open
    {
      files.open := true;
    }

    method Close()
      modifies files
      ensures !files.open && files.State() == Closed(p, old(files.State()))
    {
      files.open := false;
      if p.closes {
        if files.wal.Some? { files.db := files.wal.value; }
        files.wal := None;
      }
    }

    /** Statements committed while the store is open go to the WAL. */
    method Commit(i: Image)
      requires files.open
      modifies files`wal
      ensures files.State() == Wrote(old(files.State()), i)
    {
      files.wal := Some(i);
    }

    method RecordVersion() returns (out: Outcome)
      requires files.open
      modifies files
      ensures !files.open && (files.State(), out) == Recorded(p, old(files.State()))
    {
      Commit(p.stamp(Live(files.State())));
      Close();
      out := if p.stamps then Served else Refused;
    }

    /** `snapshot`: checkpoint, VACUUM INTO, compress to a file that must not exist yet. */
    method Snapshot() returns (ok: bool)
      requires files.open
      modifies files
      ensures files.open && (files.State(), ok) == WithSnapshot(p, old(files.State()))
    {
      if p.path in files.snapshots { return false; }
      match p.snapshot {
        case NotTaken(torn) =>
          if torn { files.snapshots := files.snapshots[p.path := Torn]; }
          return false;
        case Taken =>
          var live := Live(files.State());
          files.db, files.wal := live, None;
          files.snapshots := files.snapshots[p.path := Whole(live)];
          return true;
      }
    }

    /** `failed`: close, then restore. */
    method Failed() returns (out: Outcome)
      requires files.open && files.sound == p.sound
      modifies files
      ensures !files.open && (files.State(), out) == Undone(p, old(files.State()))
    {
      hide RestoreResult;
      Close();
      var end := files.Restore(p.path, p.undo);
      match end {
        case Completed => return FailedUpgrade(true);
        case Stopped => return FailedUpgrade(false);
        case Died => return Crashed;
      }
    }

    /** The apply-and-check loop; what it found last is the guard of the next turn. */
    method ApplyPending() returns (climbed: bool)
      requires Honest(p) && files.open
      modifies files`wal
      ensures files.open
      ensures var was := old(files.State());
              var climb := ClimbFrom(p, 0, Live(was), p.schema(Live(was)));
              climbed == climb.Climbed? && files.State() == Wrote(was, climb.image)
    {
      hide Honest, NotInSpec;
      ghost var was := files.State();
      var image := Live(files.State());
      var guard := p.schema(image);
      ghost var climb := ClimbFrom(p, 0, image, guard);
      var k := 0;
      while true
        invariant Honest(p) && climb == ClimbFrom(p, k, image, guard)
        decreases |p.schema(image).pending|
      {
        var t := p.turn(k, image);
        if !t.applied {
          Commit(t.after);
          return false;
        }
        if p.schema(image).pending == [] {
          Commit(image);
          return true;
        }
        var found := p.schema(t.after);
        var dropped := NotIn(guard.tables, found.tables);
        var lost := NotIn(found.missing, guard.missing);
        PendingShrinks(p, k, image);
        if !t.enforced || !t.intact || !t.keysOk || !t.guardRead || |dropped| > 0 || |lost| > 0 {
          Commit(t.after);
          return false;
        }
        image, guard, k := t.after, found, k + 1;
      }
    }

    /** `Migrate`. */
    method Migrate() returns (out: Outcome)
      requires Honest(p) && !files.open && files.sound == p.sound
      modifies files
      ensures !files.open && (files.State(), out) == MigrateResult(p, old(files.State()))
    {
      hide ResumeResult, Honest, ClimbFrom, RestoreResult;
      ghost var before := files.State();
      var boot := files.ResumeRestore(p.read, p.resume);
      OpensUnmarked(p.sound, before, p.read, p.resume);
      if boot.Dead? { return Crashed; }
      if boot.Refuses? { return NotResumed; }
      if !p.opens { return Refused; }
      Open();
      var live := Live(files.State());
      if !p.statusReads || p.ahead(live) {
        Close();
        return Refused;
      }
      if p.schema(live).pending == [] {
        out := RecordVersion();
        return;
      }
      if !p.auto {
        Close();
        return Served;
      }
      out := Upgrade();
    }

    method Upgrade() returns (out: Outcome)
      requires Honest(p) && files.open && files.sound == p.sound
      modifies files
      ensures !files.open && (files.State(), out) == Upgraded(p, old(files.State()))
    {
      hide Honest, ClimbFrom, RestoreResult;
      var ok := Snapshot();
      if !ok || !p.migrator || !p.baseline {
        Close();
        return Refused;
      }
      var climbed := ApplyPending();
      if !climbed {
        out := Failed();
        return;
      }
      if !p.versionReads {
        Close();
        return Refused;
      }
      out := RecordVersion();
    }
  }

  lemma PendingShrinks(p: Plan, k: nat, i: Image)
    requires Honest(p) && p.schema(i).pending != [] && p.turn(k, i).applied
    ensures |p.schema(p.turn(k, i).after).pending| < |p.schema(i).pending|
  {}

  /** The database is never opened while a restore is pending. */
  lemma OpensUnmarked(sound: Image -> bool, d: Disk, read: Fate, f: Faults)
    ensures ResumeResult(sound, d, read, f).1.Opens? ==> ResumeResult(sound, d, read, f).0.marker.None?
  {}

  // ---- what a finished climb means ----

  ghost predicate Rung(p: Plan, k: nat, below: Image, above: Image) {
    var t, was, found := p.turn(k, below), p.schema(below), p.schema(above);
    && t.applied && above == t.after && t.enforced && t.intact && t.keysOk && t.guardRead
    && was.pending != [] && found.pending == was.pending[1..]
    && (forall x :: x in was.tables ==> x in found.tables)
    && (forall x :: x in found.missing ==> x in was.missing)
  }

  /** From one image to another by applying every pending migration, each one checked. */
  ghost predicate Ladder(p: Plan, k: nat, images: seq<Image>) {
    && images != [] && p.schema(images[|images| - 1]).pending == []
    && forall j :: 0 <= j < |images| - 1 ==> Rung(p, k + j, images[j], images[j + 1])
  }

  lemma NoneNotIn(want: seq<string>, have: seq<string>)
    ensures NotInSpec(want, have) == [] <==> forall s :: s in want ==> s in have
  {
    var out := NotInSpec(want, have);
    FilterMembers((s: string) => s !in have, want);
    assert out != [] ==> out[0] in out;
    if s :| s in want && s !in have { assert s in out; }
  }

  /** The loop ends well exactly on a ladder of checked migrations that leaves nothing pending. */
  lemma {:induction false} ClimbIsLadder(p: Plan, k: nat, i: Image)
    requires Honest(p) && ClimbFrom(p, k, i, p.schema(i)).Climbed?
    ensures exists images :: Ladder(p, k, images) && images[0] == i
                             && images[|images| - 1] == ClimbFrom(p, k, i, p.schema(i)).image
    decreases |p.schema(i).pending|
  {
    hide NotInSpec;
    var t := p.turn(k, i);
    if p.schema(i).pending == [] {
      assert Ladder(p, k, [i]);
    } else {
      var found := p.schema(t.after);
      NoneNotIn(p.schema(i).tables, found.tables);
      NoneNotIn(found.missing, p.schema(i).missing);
      assert Rung(p, k, i, t.after);
      ClimbIsLadder(p, k + 1, t.after);
      var rest :| Ladder(p, k + 1, rest) && rest[0] == t.after
                  && rest[|rest| - 1] == ClimbFrom(p, k + 1, t.after, found).image;
      LadderCons(p, k, i, rest);
    }
  }

  lemma LadderCons(p: Plan, k: nat, i: Image, rest: seq<Image>)
    requires Ladder(p, k + 1, rest) && Rung(p, k, i, rest[0])
    ensures Ladder(p, k, [i] + rest)
  {
    hide Rung;
    var images := [i] + rest;
    forall j | 0 <= j < |images| - 1 ensures Rung(p, k + j, images[j], images[j + 1]) {
      if j > 0 { assert Rung(p, k + 1 + (j - 1), rest[j - 1], rest[j]); }
    }
  }

  /** Along a ladder no ledger table is ever dropped and no trigger is ever lost. */
  lemma {:induction false} LadderKeepsGuard(p: Plan, k: nat, images: seq<Image>, a: nat, b: nat)
    requires Ladder(p, k, images) && a <= b < |images|
    ensures forall x :: x in p.schema(images[a]).tables ==> x in p.schema(images[b]).tables
    ensures forall x :: x in p.schema(images[b]).missing ==> x in p.schema(images[a]).missing
  {
    if a < b {
      LadderKeepsGuard(p, k, images, a, b - 1);
      assert Rung(p, k + (b - 1), images[b - 1], images[b]);
    }
  }

  // ---- no mixed state ----

  /** Every pending migration was applied and checked between the two. */
  ghost predicate AllApplied(p: Plan, from: Image, to: Image) {
    exists images :: Ladder(p, 0, images) && images[0] == from && p.schema(to) == p.schema(images[|images| - 1])
  }

  /** The image a boot starts from, once whatever restore was owed is done. */
  ghost function StartOf(p: Plan, d: Disk): Disk { ResumeResult(p.sound, d, p.read, p.resume).0 }

  lemma ClosedKeepsLive(p: Plan, d: Disk)
    ensures Live(Closed(p, d)) == Live(d) && Closed(p, d).marker == d.marker
  {}

  lemma UndoneIsBefore(p: Plan, d: Disk, before: Image)
    requires p.path in d.snapshots && d.snapshots[p.path] == Whole(before)
    requires Undone(p, d).1 == FailedUpgrade(true)
    ensures Restored(Undone(p, d).0, before)
  {
    if p.undo.marker.Goes? && p.sound(before) {
      RestoreOwedOrDone(p.sound, Closed(p, d), p.path, before, p.undo);
    }
  }

  /**
   * Unless the process died or a restore is left unfinished, a boot leaves the schema it found or
   * the one with every pending migration applied and checked; a failed upgrade that reports it
   * restored leaves exactly the database it found, with no WAL and no marker; and a boot that is
   * refused for a blank or unreadable marker leaves everything as it was.
   */
  lemma NoMixedState(p: Plan, d: Disk)
    requires Honest(p)
    ensures var (after, out) := MigrateResult(p, d);
            var before := Live(StartOf(p, d));
            && (out.Served? || out.Refused? ==>
                  after.marker.None? &&
                  (p.schema(Live(after)) == p.schema(before) || AllApplied(p, before, Live(after))))
            && (out == FailedUpgrade(true) ==> Restored(after, before))
            && (out == NotResumed && !ResumeBegins(p, d) ==> after == d)
  {
    hide ResumeResult, RestoreResult, ClimbFrom, Honest, Ladder, AllApplied, ResumeBegins;
    OpensUnmarked(p.sound, d, p.read, p.resume);
    UnreadableStays(p, d);
    var (start, boot) := ResumeResult(p.sound, d, p.read, p.resume);
    if boot.Opens? && p.opens {
      ClosedKeepsLive(p, start);
      RecordedKeepsSchema(p, start);
      UpgradeIsWhole(p, start);
    }
  }

  /** The marker was read and names something: the boot goes on to restore it. */
  predicate ResumeBegins(p: Plan, d: Disk) {
    p.read.Goes? && d.marker.Some? && TrimSpace(d.marker.value) != ""
  }

  lemma UnreadableStays(p: Plan, d: Disk)
    ensures !ResumeBegins(p, d) ==> ResumeResult(p.sound, d, p.read, p.resume).0 == d
  {}

  /**
   * "Short of a crash" is needed: dying between a migration and the marker leaves the database
   * where the loop was, and the next boot opens it as it stands, with nothing pending to restore.
   */
  lemma CrashBeforeMarkerIsKept(p: Plan, d: Disk, later: Faults)
    requires Honest(p) && d.marker.None? && p.undo.marker == Dies(0)
    requires var (taken, ok) := WithSnapshot(p, d);
             ok && p.migrator && p.baseline && ClimbFrom(p, 0, Live(taken), p.schema(Live(taken))).Slipped?
    ensures var (after, out) := Upgraded(p, d);
            && out == Crashed
            && Live(after) == ClimbFrom(p, 0, Live(WithSnapshot(p, d).0), p.schema(Live(WithSnapshot(p, d).0))).image
            && ResumeResult(p.sound, after, Goes, later) == (after, Opens)
  {
    hide ClimbFrom, Honest;
  }

  lemma RecordedKeepsSchema(p: Plan, d: Disk)
    requires Honest(p)
    ensures p.schema(Live(Recorded(p, d).0)) == p.schema(Live(d)) && Recorded(p, d).0.marker == d.marker
  {}

  lemma UpgradeIsWhole(p: Plan, d: Disk)
    requires Honest(p) && d.marker.None?
    ensures var (after, out) := Upgraded(p, d);
            && (out.Served? || out.Refused? ==>
                  after.marker.None? &&
                  (p.schema(Live(after)) == p.schema(Live(d)) || AllApplied(p, Live(d), Live(after))))
            && (out == FailedUpgrade(true) ==> Restored(after, Live(d)))
  {
    hide RestoreResult, ClimbFrom, Honest, Ladder;
    var (taken, ok) := WithSnapshot(p, d);
    ClosedKeepsLive(p, taken);
    if ok && p.migrator && p.baseline {
      var climb := ClimbFrom(p, 0, Live(taken), p.schema(Live(taken)));
      var wrote := Wrote(taken, climb.image);
      match climb {
        case Slipped(_) =>
          if Undone(p, wrote).1 == FailedUpgrade(true) { UndoneIsBefore(p, wrote, Live(d)); }
        case Climbed(_) =>
          ClimbIsLadder(p, 0, Live(taken));
          ClosedKeepsLive(p, wrote);
          RecordedKeepsSchema(p, wrote);
      }
    }
  }
}
