/**
 * Putting a snapshot back, with a crash allowed at any point (internal/migrate/restore.go).
 *
 * Every file-system step either goes through, returns an error, or kills the process; the two steps
 * that write a file can get any part of the way first.
 */
module Restore {
  import opened Wrappers
  import opened Blanks

  /** The logical content of a database file. */
  type Image = seq<int>

  /** A compressed snapshot, or a half-written file in its place. */
  datatype Archive = Whole(image: Image) | Torn

  /** A -wal sibling holds what was committed since the last checkpoint, and replays on open. */
  datatype Disk = Disk(
    db: Image, wal: Option<Image>, shm: bool, marker: Option<string>, scratch: Option<Archive>,
    snapshots: map<string, Archive>)

  /** What a process that opened the database would read. */
  function Live(d: Disk): Image { if d.wal.Some? then d.wal.value else d.db }

  /** A step goes through; or it stops with an error, or dies, having got some of the way. */
  datatype Fate = Goes | Errs(extent: nat) | Dies(extent: nat)

  datatype Ending = Completed | Stopped | Died

  function EndOf(f: Fate): Ending {
    match f case Goes => Completed case Errs(_) => Stopped case Dies(_) => Died
  }

  datatype Faults = Faults(
    marker: Fate, wal: Fate, shm: Fate, clear: Fate, unpack: Fate, verify: Fate, rename: Fate, unmark: Fate)

  // ---- the two writes that can tear ----

  /** `os.WriteFile` truncates, then writes: an interrupted one leaves nothing, or a prefix. */
  function WithMarker(d: Disk, path: string, f: Fate): Disk {
    match f
    case Goes => d.(marker := Some(path))
    case Errs(n) => if n == 0 then d else d.(marker := Some(Prefix(path, n - 1)))
    case Dies(n) => if n == 0 then d else d.(marker := Some(Prefix(path, n - 1)))
  }

  function Prefix(s: string, n: nat): string { if n < |s| then s[..n] else s }

  predicate Unpacks(d: Disk, path: string) { path in d.snapshots && d.snapshots[path].Whole? }

  /**
   * Decompress: the source is opened before the scratch file is created, so a path that names nothing
   * leaves none. One that names a directory opens too, and then cannot be read: that is an error with
   * a torn scratch file, like any other that comes after the file was created.
   */
  function WithScratch(d: Disk, path: string, f: Fate): Disk {
    match f
    case Goes => if path in d.snapshots then d.(scratch := Some(d.snapshots[path])) else d
    case Errs(n) => if n == 0 then d else d.(scratch := Some(Torn))
    case Dies(n) => if n == 0 then d else d.(scratch := Some(Torn))
  }

  // ---- restore and resume, as functions of what goes wrong ----

  ghost function AfterUnpack(sound: Image -> bool, d: Disk, path: string, f: Faults): (Disk, Ending) {
    if !f.unpack.Goes? then (d, EndOf(f.unpack))
    else if !Unpacks(d, path) then (d, Stopped)
    else if !f.verify.Goes? then (d, EndOf(f.verify))
    else if !sound(d.snapshots[path].image) then (d, Stopped)
    else if !f.rename.Goes? then (d, EndOf(f.rename))
    else
      var moved := d.(db := d.snapshots[path].image, scratch := None);
      if f.unmark.Goes? then (moved.(marker := None), Completed) else (moved, EndOf(f.unmark))
  }

  ghost function RestoreResult(sound: Image -> bool, d: Disk, path: string, f: Faults): (Disk, Ending) {
    var marked := WithMarker(d, path, f.marker);
    if !f.marker.Goes? then (marked, EndOf(f.marker))
    else if !f.wal.Goes? then (marked, EndOf(f.wal))
    else
      var noWal := marked.(wal := None);
      if !f.shm.Goes? then (noWal, EndOf(f.shm))
      else
        var noShm := noWal.(shm := false);
        if !f.clear.Goes? then (noShm, EndOf(f.clear))
        else AfterUnpack(sound, WithScratch(noShm.(scratch := None), path, f.unpack), path, f)
  }

  /** What the next boot does before it opens the database. */
  datatype Boot = Opens | Refuses | Dead

  ghost function ResumeResult(sound: Image -> bool, d: Disk, read: Fate, f: Faults): (Disk, Boot) {
    if read.Dies? then (d, Dead)
    else if d.marker.None? then (d, if read.Goes? then Opens else Refuses)
    else if read.Errs? || TrimSpace(d.marker.value) == "" then (d, Refuses)
    else
      var (after, end) := RestoreResult(sound, d, TrimSpace(d.marker.value), f);
      (after, match end case Completed => Opens case Stopped => Refuses case Died => Dead)
  }

  // ---- the code ----

  class Files {
    const sound: Image -> bool
    var db: Image
    var wal: Option<Image>
    var shm: bool
    var marker: Option<string>
    var scratch: Option<Archive>
    var snapshots: map<string, Archive>
    var open: bool

    constructor (sound: Image -> bool, d: Disk)
      ensures State() == d && !open && this.sound == sound
    {
      this.sound := sound;
      db, wal, shm, marker, scratch, snapshots, open := d.db, d.wal, d.shm, d.marker, d.scratch, d.snapshots, false;
    }

    function State(): Disk
      reads this
    {
      Disk(db, wal, shm, marker, scratch, snapshots)
    }

    method WriteMarker(path: string, f: Fate)
      modifies this`marker
      ensures State() == WithMarker(old(State()), path, f)
    {
      match f {
        case Goes => marker := Some(path);
        case Errs(n) => if n > 0 { marker := Some(Prefix(path, n - 1)); }
        case Dies(n) => if n > 0 { marker := Some(Prefix(path, n - 1)); }
      }
    }

    method Decompress(path: string, f: Fate)
      modifies this`scratch
      ensures State() == WithScratch(old(State()), path, f)
    {
      match f {
        case Goes => if path in snapshots { scratch := Some(snapshots[path]); }
        case Errs(n) => if n > 0 { scratch := Some(Torn); }
        case Dies(n) => if n > 0 { scratch := Some(Torn); }
      }
    }

    /** `restore`: marker, siblings, scratch, verify, rename, marker. The store is closed first. */
    method Restore(path: string, f: Faults) returns (end: Ending)
      requires !open
      modifies this
      ensures (State(), end) == RestoreResult(sound, old(State()), path, f) && !open
    {
      WriteMarker(path, f.marker);
      if !f.marker.Goes? { return EndOf(f.marker); }
      if !f.wal.Goes? { return EndOf(f.wal); }
      wal := None;
      if !f.shm.Goes? { return EndOf(f.shm); }
      shm := false;
      if !f.clear.Goes? { return EndOf(f.clear); }
      scratch := None;
      Decompress(path, f.unpack);
      if !f.unpack.Goes? { return EndOf(f.unpack); }
      if scratch.None? || scratch.value.Torn? { return Stopped; }
      if !f.verify.Goes? { return EndOf(f.verify); }
      if !sound(scratch.value.image) { return Stopped; }
      if !f.rename.Goes? { return EndOf(f.rename); }
      db, scratch := scratch.value.image, None;
      if !f.unmark.Goes? { return EndOf(f.unmark); }
      marker := None;
      return Completed;
    }

    /** `resumeRestore`: before the database is opened, finish what a crash interrupted. */
    method ResumeRestore(read: Fate, f: Faults) returns (boot: Boot)
      requires !open
      modifies this
      ensures (State(), boot) == ResumeResult(sound, old(State()), read, f) && !open
    {
      if read.Dies? { return Dead; }
      if marker.None? { return if read.Goes? then Opens else Refuses; }
      if read.Errs? { return Refuses; }
      var path := TrimSpace(marker.value);
      if path == "" { return Refuses; }
      var end := Restore(path, f);
      match end {
        case Completed => return Opens;
        case Stopped => return Refuses;
        case Died => return Dead;
      }
    }
  }

  // ---- what one step of recovery keeps ----

  /** The marker is on disk and names a snapshot that unpacks to a sound image. */
  ghost predicate Owed(sound: Image -> bool, d: Disk, path: string, image: Image) {
    d.marker == Some(path) && path in d.snapshots && d.snapshots[path] == Whole(image) && sound(image)
  }

  /** The database is the snapshot: its file, with nothing left to replay, and nothing pending. */
  ghost predicate Restored(d: Disk, image: Image) {
    d.db == image && d.wal.None? && !d.shm && d.marker.None? && d.scratch.None?
  }

  /** Once the marker is down, a restore either completes or leaves the same restore owed. */
  lemma RestoreOwedOrDone(sound: Image -> bool, d: Disk, path: string, image: Image, f: Faults)
    requires path in d.snapshots && d.snapshots[path] == Whole(image) && sound(image) && f.marker.Goes?
    ensures var (after, end) := RestoreResult(sound, d, path, f);
            && after.snapshots == d.snapshots
            && (end.Completed? ==> Restored(after, image))
            && (!end.Completed? ==> Owed(sound, after, path, image))
  {}

  predicate AllGo(f: Faults) {
    f.marker.Goes? && f.wal.Goes? && f.shm.Goes? && f.clear.Goes? && f.unpack.Goes? && f.verify.Goes? && f.rename.Goes? && f.unmark.Goes?
  }

  /** A restore completes exactly when every step goes through and the snapshot unpacks to a sound image. */
  lemma CompletesIff(sound: Image -> bool, d: Disk, path: string, f: Faults)
    ensures var (after, end) := RestoreResult(sound, d, path, f);
      && (end == Completed <==> AllGo(f) && path in d.snapshots && d.snapshots[path].Whole? && sound(d.snapshots[path].image))
      && (end == Completed ==> after == Disk(d.snapshots[path].image, None, false, None, None, d.snapshots))
  {}

  /** The steps up to the scratch file went through: the marker is down and the siblings are gone. */
  predicate Cleared(f: Faults) { f.marker.Goes? && f.wal.Goes? && f.shm.Goes? && f.clear.Goes? }

  /**
   * What a restore that did not complete leaves of the database and of the scratch file: the old file
   * until the rename; nothing or a torn scratch file when unpacking it failed; and the unpacked snapshot
   * for inspection when it did not verify or could not be moved.
   */
  lemma StoppedLeaves(sound: Image -> bool, d: Disk, path: string, f: Faults)
    requires Cleared(f)
    ensures var after := RestoreResult(sound, d, path, f).0;
      && (!f.unpack.Goes? ==> after.db == d.db && after.scratch == if f.unpack.extent == 0 then None else Some(Torn))
      && (f.unpack.Goes? && path !in d.snapshots ==> after.db == d.db && after.scratch == None)
      && (f.unpack.Goes? && path in d.snapshots && !(Unpacks(d, path) && f.verify.Goes? && sound(d.snapshots[path].image) && f.rename.Goes?) ==>
            after.db == d.db && after.scratch == Some(d.snapshots[path]) && after.marker == Some(path))
      && (f.unpack.Goes? && Unpacks(d, path) && f.verify.Goes? && sound(d.snapshots[path].image) && f.rename.Goes? ==>
            after.db == d.snapshots[path].image && after.scratch == None)
  {}

  /** Before that nothing but the marker, the siblings and an old scratch file has changed. */
  lemma NotCleared(sound: Image -> bool, d: Disk, path: string, f: Faults)
    requires !Cleared(f)
    ensures var (after, end) := RestoreResult(sound, d, path, f);
      && end != Completed && after.db == d.db && after.scratch == d.scratch && after.snapshots == d.snapshots
      && (after.wal == d.wal || (f.marker.Goes? && f.wal.Goes? && after.wal == None))
      && (f.marker.Goes? && f.wal.Goes? ==> after.wal == None)
      && (f.marker.Goes? ==> after.marker == Some(path))
      && (!f.marker.Goes? ==> after.wal == d.wal && after.shm == d.shm)
  {}

  /** How a restore ends is how the first step that does not go through ends. */
  lemma EndIs(sound: Image -> bool, d: Disk, path: string, f: Faults)
    ensures RestoreResult(sound, d, path, f).1.Died? ==>
      || f.marker.Dies? || f.wal.Dies? || f.shm.Dies? || f.clear.Dies? || f.unpack.Dies? || f.verify.Dies? || f.rename.Dies? || f.unmark.Dies?
    ensures RestoreResult(sound, d, path, f).1.Stopped? && Unpacks(d, path) && sound(d.snapshots[path].image) ==>
      || f.marker.Errs? || f.wal.Errs? || f.shm.Errs? || f.clear.Errs? || f.unpack.Errs? || f.verify.Errs? || f.rename.Errs? || f.unmark.Errs?
  {}

  /** A boot goes on to open the database exactly when no marker is there, or the restore it names completes. */
  lemma ResumesIff(sound: Image -> bool, d: Disk, read: Fate, f: Faults)
    ensures ResumeResult(sound, d, read, f).1 == Opens <==>
      && read.Goes?
      && (d.marker == None ||
          (TrimSpace(d.marker.value) != "" && RestoreResult(sound, d, TrimSpace(d.marker.value), f).1 == Completed))
    ensures ResumeResult(sound, d, read, f).1 == Opens && d.marker == None ==> ResumeResult(sound, d, read, f).0 == d
  {
    hide RestoreResult;
  }

  /** What is read back from a torn marker is again a beginning of the path. */
  lemma TrimPrefix(path: string, n: nat) returns (k: nat)
    requires Trimmed(path) && n <= |path|
    ensures k <= n && TrimSpace(path[..n]) == path[..k]
  {
    k := TrimRightIsPrefix(path[..n]);
    assert path[..n][..k] == path[..k];
  }

  // ---- a marker that was rewritten and torn ----

  /** Writing the marker got far enough to truncate it and not far enough to finish it. */
  predicate Tears(f: Fate, path: string) {
    match f case Goes => false case Errs(n) => 0 < n <= |path| case Dies(n) => 0 < n <= |path|
  }

  ghost predicate TornMarker(d: Disk, path: string) {
    exists n: nat :: n < |path| && d.marker == Some(path[..n])
  }

  /** No proper beginning of the path is itself the path of a usable snapshot. */
  ghost predicate NoPrefixUnpacks(d: Disk, path: string) {
    forall n: nat :: n < |path| ==> !Unpacks(d, path[..n])
  }

  lemma TornStaysTorn(sound: Image -> bool, d: Disk, path: string, read: Fate, f: Faults)
    requires Trimmed(path) && TornMarker(d, path) && NoPrefixUnpacks(d, path)
    ensures var (after, boot) := ResumeResult(sound, d, read, f);
            !boot.Opens? && after.snapshots == d.snapshots && TornMarker(after, path)
  {
    var n: nat :| n < |path| && d.marker == Some(path[..n]);
    var k := TrimPrefix(path, n);
    var kept := path[..k];
    assert TrimSpace(d.marker.value) == kept;
    assert forall j: nat :: Prefix(kept, j) == path[..if j < k then j else k];
    assert !Unpacks(d, kept);
  }

  /** One boot over an owed restore opens only a restored database, and tears the marker or keeps it. */
  lemma BootOwed(sound: Image -> bool, d: Disk, path: string, image: Image, read: Fate, f: Faults)
    requires Owed(sound, d, path, image) && Trimmed(path)
    ensures var (after, boot) := ResumeResult(sound, d, read, f);
            && after.snapshots == d.snapshots
            && (boot.Opens? ==> Restored(after, image))
            && (!boot.Opens? ==> if read.Goes? && Tears(f.marker, path) then TornMarker(after, path)
                                 else Owed(sound, after, path, image))
  {
    TrimmedIsKept(path);
    if read.Goes? {
      if f.marker.Goes? {
        RestoreOwedOrDone(sound, d, path, image, f);
      } else {
        var n := f.marker.extent;
        assert n > 0 ==> Prefix(path, n - 1) == if n - 1 < |path| then path[..n - 1] else path;
      }
    }
  }

  // ---- any number of boots ----

  datatype Attempt = Attempt(read: Fate, faults: Faults)

  /** Boot after boot, until one gets as far as opening the database. */
  ghost function Boots(sound: Image -> bool, d: Disk, attempts: seq<Attempt>): (Disk, Boot) {
    if attempts == [] then (d, Dead)
    else
      var n := |attempts| - 1;
      var (before, boot) := Boots(sound, d, attempts[..n]);
      if boot.Opens? then (before, boot) else ResumeResult(sound, before, attempts[n].read, attempts[n].faults)
  }

  ghost predicate NoneTears(attempts: seq<Attempt>, path: string) {
    forall a :: a in attempts ==> !(a.read.Goes? && Tears(a.faults.marker, path))
  }

  /**
   * After the marker is written, whatever crashes or fails in however many boots: the first boot
   * that opens the database opens the snapshot, with no WAL and no marker beside it; until then the
   * restore is still owed, unless rewriting the marker was torn, and then no boot ever opens it.
   */
  lemma {:induction false} RecoveryIsSafe(sound: Image -> bool, d: Disk, path: string, image: Image, attempts: seq<Attempt>)
    requires Owed(sound, d, path, image) && Trimmed(path) && NoPrefixUnpacks(d, path)
    ensures var (after, boot) := Boots(sound, d, attempts);
            && after.snapshots == d.snapshots
            && (boot.Opens? ==> Restored(after, image))
            && (!boot.Opens? ==> if NoneTears(attempts, path) then Owed(sound, after, path, image)
                                 else TornMarker(after, path))
  {
    hide ResumeResult, Tears, Restored;
    if attempts != [] {
      var n := |attempts| - 1;
      assert attempts == attempts[..n] + [attempts[n]];
      RecoveryIsSafe(sound, d, path, image, attempts[..n]);
      var (before, boot) := Boots(sound, d, attempts[..n]);
      if !boot.Opens? {
        if NoneTears(attempts[..n], path) {
          BootOwed(sound, before, path, image, attempts[n].read, attempts[n].faults);
        } else {
          TornStaysTorn(sound, before, path, attempts[n].read, attempts[n].faults);
        }
      }
    }
  }

  const SMOOTH: Faults := Faults(Goes, Goes, Goes, Goes, Goes, Goes, Goes, Goes)

  /**
   * Re-running an interrupted restore is safe exactly as long as no boot was interrupted while it
   * rewrote the marker: then, and only then, a boot that meets no fault completes it.
   */
  lemma RecoversIff(sound: Image -> bool, d: Disk, path: string, image: Image, attempts: seq<Attempt>)
    requires Owed(sound, d, path, image) && Trimmed(path) && NoPrefixUnpacks(d, path)
    requires !Boots(sound, d, attempts).1.Opens?
    ensures Boots(sound, d, attempts + [Attempt(Goes, SMOOTH)]).1.Opens? <==> NoneTears(attempts, path)
  {
    hide Tears, Restored;
    RecoveryIsSafe(sound, d, path, image, attempts);
    var after := Boots(sound, d, attempts).0;
    assert (attempts + [Attempt(Goes, SMOOTH)])[..|attempts|] == attempts;
    if NoneTears(attempts, path) {
      TrimmedIsKept(path);
    } else {
      TornStaysTorn(sound, after, path, Goes, SMOOTH);
    }
  }

  /** A crash that tears the rewritten marker is enough: one boot, and the restore needs a hand. */
  lemma ResumeIsNotIdempotent(sound: Image -> bool, d: Disk, path: string, image: Image, later: seq<Attempt>)
    requires Owed(sound, d, path, image) && Trimmed(path) && NoPrefixUnpacks(d, path)
    ensures !Boots(sound, d, [Attempt(Goes, SMOOTH.(marker := Dies(1)))] + later).1.Opens?
  {
    var torn := Attempt(Goes, SMOOTH.(marker := Dies(1)));
    TornAtOnce(sound, d, path, image, torn);
    TornForGood(sound, d, path, image, torn, later);
  }

  lemma TornAtOnce(sound: Image -> bool, d: Disk, path: string, image: Image, torn: Attempt)
    requires Owed(sound, d, path, image) && Trimmed(path) && torn == Attempt(Goes, SMOOTH.(marker := Dies(1)))
    ensures Boots(sound, d, [torn]).1 == Dead && !NoneTears([torn], path)
  {
    TrimmedIsKept(path);
    assert [torn][..0] == [] && torn in [torn];
  }

  lemma {:induction false} TornForGood(sound: Image -> bool, d: Disk, path: string, image: Image, torn: Attempt, later: seq<Attempt>)
    requires Owed(sound, d, path, image) && Trimmed(path) && NoPrefixUnpacks(d, path)
    requires torn.read.Goes? && Tears(torn.faults.marker, path) && !Boots(sound, d, [torn]).1.Opens?
    ensures !Boots(sound, d, [torn] + later).1.Opens?
  {
    hide ResumeResult, Tears;
    if later == [] {
      assert [torn] + later == [torn];
    } else {
      var n := |later| - 1;
      TornForGood(sound, d, path, image, torn, later[..n]);
      var all := [torn] + later;
      assert all[..|all| - 1] == [torn] + later[..n];
      RecoveryIsSafe(sound, d, path, image, [torn] + later[..n]);
      assert torn in [torn] + later[..n];
      TornStaysTorn(sound, Boots(sound, d, [torn] + later[..n]).0, path, later[n].read, later[n].faults);
    }
  }

  /** The restore of a failed upgrade: done, owed, torn, or never begun and the disk as it was. */
  lemma RestoreOutcomes(sound: Image -> bool, d: Disk, path: string, image: Image, f: Faults)
    requires path in d.snapshots && d.snapshots[path] == Whole(image) && sound(image) && d.marker.None?
    ensures var (after, end) := RestoreResult(sound, d, path, f);
            && after.snapshots == d.snapshots
            && (end.Completed? ==> Restored(after, image))
            && (!end.Completed? ==>
                  Owed(sound, after, path, image) || TornMarker(after, path) || (!f.marker.Goes? && after == d))
  {
    if f.marker.Goes? {
      RestoreOwedOrDone(sound, d, path, image, f);
    } else {
      var n := f.marker.extent;
      assert n > 0 ==> Prefix(path, n - 1) == if n - 1 < |path| then path[..n - 1] else path;
    }
  }
}
