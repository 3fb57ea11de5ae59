/** What one boot of the migrator comes to, in terms of what it was asked and what it met. */
module BootOutcomes {
  import opened Wrappers
  import opened Restore
  import opened Runner

  /** Every pending migration applies and passes its checks, and then nothing is left to apply. */
  ghost predicate Climbs(p: Plan, images: seq<Image>) {
    Ladder(p, 0, images) && p.turn(|images| - 1, images[|images| - 1]).applied
  }

  ghost predicate CanClimb(p: Plan, from: Image) { exists images :: Climbs(p, images) && images[0] == from }

  /** The archive does not exist yet and can be written, the migrator loads, and the baseline reads. */
  predicate Prepared(p: Plan, d: Disk) { p.path !in d.snapshots && p.snapshot.Taken? && p.migrator && p.baseline }

  /** A ladder whose end is recognised is what the loop climbs. */
  lemma {:induction false} LadderIsClimb(p: Plan, k: nat, images: seq<Image>)
    requires Honest(p) && Ladder(p, k, images) && p.turn(k + |images| - 1, images[|images| - 1]).applied
    ensures ClimbFrom(p, k, images[0], p.schema(images[0])) == Climbed(images[|images| - 1])
    decreases |images|
  {
    hide NotInSpec;
    if |images| > 1 {
      var i, j := images[0], images[1];
      assert Rung(p, k + 0, i, j);
      NoneNotIn(p.schema(i).tables, p.schema(j).tables);
      NoneNotIn(p.schema(j).missing, p.schema(i).missing);
      LadderTail(p, k, images);
      LadderIsClimb(p, k + 1, images[1..]);
    }
  }

  lemma LadderTail(p: Plan, k: nat, images: seq<Image>)
    requires Ladder(p, k, images) && |images| > 1
    ensures Ladder(p, k + 1, images[1..])
  {
    hide Rung;
    var rest := images[1..];
    forall j | 0 <= j < |rest| - 1 ensures Rung(p, k + 1 + j, rest[j], rest[j + 1]) {
      assert Rung(p, k + (j + 1), images[j + 1], images[j + 2]);
    }
  }

  /** The loop ends well exactly when there is something to climb to the end of. */
  lemma ClimbedIff(p: Plan, from: Image)
    requires Honest(p)
    ensures ClimbFrom(p, 0, from, p.schema(from)).Climbed? <==> CanClimb(p, from)
  {
    hide ClimbFrom, Rung, Honest;
    if ClimbFrom(p, 0, from, p.schema(from)).Climbed? {
      var images := ClimbedFrom(p, 0, from);
      assert Climbs(p, images);
    }
    if CanClimb(p, from) {
      var images :| Climbs(p, images) && images[0] == from;
      LadderIsClimb(p, 0, images);
    }
  }

  lemma {:induction false} ClimbedFrom(p: Plan, k: nat, i: Image) returns (images: seq<Image>)
    requires Honest(p) && ClimbFrom(p, k, i, p.schema(i)).Climbed?
    ensures Ladder(p, k, images) && images[0] == i
    ensures p.turn(k + |images| - 1, images[|images| - 1]).applied
    decreases |p.schema(i).pending|
  {
    hide NotInSpec;
    var t := p.turn(k, i);
    if p.schema(i).pending == [] {
      images := [i];
    } else {
      var found := p.schema(t.after);
      NoneNotIn(p.schema(i).tables, found.tables);
      NoneNotIn(found.missing, p.schema(i).missing);
      assert Rung(p, k, i, t.after);
      var rest := ClimbedFrom(p, k + 1, t.after);
      LadderCons(p, k, i, rest);
      images := [i] + rest;
    }
  }

  /** The boot found no restore to finish, or finished it, and opened what was there. */
  ghost predicate Starts(p: Plan, d: Disk) { ResumeResult(p.sound, d, p.read, p.resume).1.Opens? && p.opens }

  /** Without a marker, a boot starts from the disk as it is. */
  lemma UnmarkedStarts(p: Plan, d: Disk)
    requires d.marker.None? && p.read.Goes?
    ensures StartOf(p, d) == d && (Starts(p, d) <==> p.opens)
  {}

  /** A database it cannot read, or that a newer binary wrote, is refused and left alone. */
  lemma RefusesWhatItMustNotTouch(p: Plan, d: Disk)
    requires Honest(p) && Starts(p, d) && (!p.statusReads || p.ahead(Live(StartOf(p, d))))
    ensures var (after, out) := MigrateResult(p, d);
            out == Refused && Live(after) == Live(StartOf(p, d)) && after.snapshots == StartOf(p, d).snapshots
  {
    hide ResumeResult, Upgraded;
  }

  /** With nothing pending the boot serves exactly when the version rows are written, and writes only those. */
  lemma NothingPending(p: Plan, d: Disk)
    requires Honest(p) && Starts(p, d) && p.statusReads && !p.ahead(Live(StartOf(p, d)))
    requires p.schema(Live(StartOf(p, d))).pending == []
    ensures var (after, out) := MigrateResult(p, d);
            && out == (if p.stamps then Served else Refused)
            && Live(after) == p.stamp(Live(StartOf(p, d))) && p.schema(Live(after)) == p.schema(Live(StartOf(p, d)))
            && after.snapshots == StartOf(p, d).snapshots
  {
    hide ResumeResult, Upgraded;
  }

  /** Pending migrations without the permission to run them: the boot serves what is there. */
  lemma PendingButForbidden(p: Plan, d: Disk)
    requires Honest(p) && Starts(p, d) && p.statusReads && !p.ahead(Live(StartOf(p, d)))
    requires p.schema(Live(StartOf(p, d))).pending != [] && !p.auto
    ensures var (after, out) := MigrateResult(p, d);
            out == Served && Live(after) == Live(StartOf(p, d)) && after.snapshots == StartOf(p, d).snapshots
  {
    hide ResumeResult, Upgraded;
  }

  /**
   * Pending migrations and the permission to run them. Unless all is prepared the database is not
   * touched; then, if every migration applies and passes, they are all applied and the boot serves
   * once the version is recorded; and if any does not, the boot does not serve.
   */
  lemma PendingAndAllowed(p: Plan, d: Disk)
    requires Honest(p) && Starts(p, d) && p.statusReads && !p.ahead(Live(StartOf(p, d)))
    requires p.schema(Live(StartOf(p, d))).pending != [] && p.auto
    ensures var start, (after, out) := StartOf(p, d), MigrateResult(p, d);
            && (!Prepared(p, start) ==> out == Refused && Live(after) == Live(start))
            && (Prepared(p, start) && CanClimb(p, Live(start)) ==>
                  && out == (if p.versionReads && p.stamps then Served else Refused)
                  && AllApplied(p, Live(start), Live(after))
                  && after.snapshots == start.snapshots[p.path := Whole(Live(start))])
            && (Prepared(p, start) && !CanClimb(p, Live(start)) ==> out.FailedUpgrade? || out.Crashed?)
  {
    hide ResumeResult, ClimbFrom, Honest, Ladder, RestoreResult, CanClimb;
    var start := StartOf(p, d);
    var taken := WithSnapshot(p, start).0;
    ClosedKeepsLive(p, taken);
    ClimbedIff(p, Live(start));
    if Prepared(p, start) && CanClimb(p, Live(start)) {
      ClimbIsLadder(p, 0, Live(start));
      var wrote := Wrote(taken, ClimbFrom(p, 0, Live(start), p.schema(Live(start))).image);
      ClosedKeepsLive(p, wrote);
      RecordedKeepsSchema(p, wrote);
    }
  }

  /** What a boot that was not prepared leaves under the snapshot's path: what was there, a torn archive, or the snapshot. */
  lemma UnpreparedLeaves(p: Plan, d: Disk)
    requires Honest(p) && Starts(p, d) && p.statusReads && !p.ahead(Live(StartOf(p, d)))
    requires p.schema(Live(StartOf(p, d))).pending != [] && p.auto && !Prepared(p, StartOf(p, d))
    ensures var was := StartOf(p, d).snapshots;
            MigrateResult(p, d).0.snapshots ==
              if p.path in was || p.snapshot == NotTaken(false) then was
              else if p.snapshot == NotTaken(true) then was[p.path := Torn]
              else was[p.path := Whole(Live(StartOf(p, d)))]
  {
    hide ResumeResult, ClimbFrom, Honest, RestoreResult;
  }

  /**
   * A migration that fails, or fails a check: the snapshot just taken is put back, and the boot says so
   * exactly when every step of that went through and the snapshot is sound.
   */
  lemma FailedUpgradeIs(p: Plan, d: Disk)
    requires Honest(p) && Starts(p, d) && p.statusReads && !p.ahead(Live(StartOf(p, d)))
    requires p.schema(Live(StartOf(p, d))).pending != [] && p.auto
    requires Prepared(p, StartOf(p, d)) && !CanClimb(p, Live(StartOf(p, d)))
    ensures var start, (after, out) := StartOf(p, d), MigrateResult(p, d);
            && (out == FailedUpgrade(true) <==> AllGo(p.undo) && p.sound(Live(start)))
            && (out == FailedUpgrade(true) ==> Restored(after, Live(start)) && after.snapshots[p.path] == Whole(Live(start)))
            && (out == Crashed || out == FailedUpgrade(true) || out == FailedUpgrade(false))
            && (out == Crashed <==> RestoreResult(p.sound, SlippedFrom(p, start), p.path, p.undo).1 == Died)
  {
    hide ResumeResult, ClimbFrom, Honest, Ladder, RestoreResult, CanClimb;
    var start := StartOf(p, d);
    ClimbedIff(p, Live(start));
    CompletesIff(p.sound, SlippedFrom(p, start), p.path, p.undo);
  }

  /** The disk when the restore begins: the store closed after the last migration that was tried. */
  ghost function SlippedFrom(p: Plan, start: Disk): Disk
    requires Honest(p)
  {
    Closed(p, Wrote(WithSnapshot(p, start).0, ClimbFrom(p, 0, Live(start), p.schema(Live(start))).image))
  }

  /** A boot that got as far as opening the store and did not restore has closed it, and then nothing is left in the WAL. */
  lemma StoreIsClosed(p: Plan, d: Disk)
    requires Honest(p) && Starts(p, d) && p.closes
    ensures var (after, out) := MigrateResult(p, d);
            out == Served || out == Refused ==> after.wal == None && after.db == Live(after)
  {
    hide ResumeResult, ClimbFrom, Honest, RestoreResult;
  }

  /** A boot serves exactly when it may leave the schema as it is, or can bring it up to date. */
  lemma ServesIff(p: Plan, d: Disk)
    requires Honest(p)
    ensures var start := StartOf(p, d);
            MigrateResult(p, d).1 == Served <==>
              && Starts(p, d) && p.statusReads && !p.ahead(Live(start))
              && (if p.schema(Live(start)).pending == [] then p.stamps
                  else p.auto ==> Prepared(p, start) && CanClimb(p, Live(start)) && p.versionReads && p.stamps)
  {
    hide MigrateResult, ResumeResult, CanClimb, Honest, AllApplied;
    var start := StartOf(p, d);
    if !Starts(p, d) {
      NotStarted(p, d);
    } else if !p.statusReads || p.ahead(Live(start)) {
      RefusesWhatItMustNotTouch(p, d);
    } else if p.schema(Live(start)).pending == [] {
      NothingPending(p, d);
    } else if p.auto {
      PendingAndAllowed(p, d);
    } else {
      PendingButForbidden(p, d);
    }
  }

  lemma NotStarted(p: Plan, d: Disk)
    requires Honest(p) && !Starts(p, d)
    ensures MigrateResult(p, d).0 == StartOf(p, d) && MigrateResult(p, d).1 != Served
  {
    hide ResumeResult;
  }
}
