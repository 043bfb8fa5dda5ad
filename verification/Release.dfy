/**
 * The release coordinator (backend/scripts/deploy_backend.py): stop, snapshot, apply,
 * promote, start and verify, with compensation when any command fails or is interrupted.
 *
 * A command that returns false raised: before its effect, part-way, or after it.  While
 * a Hub runs it keeps writing (`Activity`); only the gate changes DDL and ledger.
 */
module Release {
  import opened ReleaseGate
  import opened Text

  type Image = string

  datatype Command =
    | GatePreflight | GateValidate | Stop | GateSnapshot | GateApply
    | Promote(image: Image) | Start | VerifyRuntime(image: Image)
    | GateRestore | GateBackfillOld

  datatype View = View(running: set<Image>, tag: Image, db: Database)

  datatype Event = Event(command: Command, ok: bool, before: View, after: View)

  /** The recovery file, written once with O_EXCL. */
  datatype StateFile = Absent | Torn | Saved(snapshot: Snapshot)

  datatype Exit = Completed | Untouched | RolledBack | RecoveryFailed

  /**
   * From `earlier` to `log` the commands of the plan have run in order: all of them and each with
   * success if ok, and otherwise up to the first that failed.
   */
  predicate Ran(earlier: seq<Event>, log: seq<Event>, plan: seq<Command>, ok: bool) {
    && earlier <= log && |earlier| < |log| <= |earlier| + |plan| && (ok ==> |log| == |earlier| + |plan|)
    && (forall k | |earlier| <= k < |log| :: log[k].command == plan[k - |earlier|])
    && (forall k | |earlier| <= k < |log| :: log[k].ok <==> ok || k < |log| - 1)
  }

  lemma RanThen(a: seq<Event>, b: seq<Event>, c: seq<Event>, first: seq<Command>, second: seq<Command>, ok: bool)
    requires Ran(a, b, first, true) && Ran(b, c, second, ok)
    ensures Ran(a, c, first + second, ok)
  {
    forall k | |a| <= k < |c|
      ensures c[k].command == (first + second)[k - |a|] && (c[k].ok <==> ok || k < |c| - 1)
    {
      if k < |b| {
        assert c[k] == b[k];
      }
    }
  }

  /** Two commands in turn, or the first alone if it failed. */
  lemma RanBoth(a: seq<Event>, b: seq<Event>, c: seq<Event>, first: Command, second: Command, ok: bool)
    ensures Ran(a, b, [first], true) && Ran(b, c, [second], ok) ==> Ran(a, c, [first, second], ok)
    ensures Ran(a, b, [first], false) ==> Ran(a, b, [first, second], false)
  {
    if Ran(a, b, [first], true) && Ran(b, c, [second], ok) {
      RanThen(a, b, c, [first], [second], ok);
      assert [first] + [second] == [first, second];
    }
    if Ran(a, b, [first], false) {
      RanShort(a, b, [first], [second]);
      assert [first] + [second] == [first, second];
    }
  }

  lemma RanShort(a: seq<Event>, b: seq<Event>, first: seq<Command>, second: seq<Command>)
    requires Ran(a, b, first, false)
    ensures Ran(a, b, first + second, false)
  {
    forall k | |a| <= k < |b| ensures b[k].command == (first + second)[k - |a|] {
    }
  }

  /** No Hub runs against a capture it was not built for. */
  predicate Compatible(view: View, previous: Image, original: Capture, image: Image, migrated: Capture) {
    && view.running <= {previous, image}
    && (previous in view.running && image != previous ==> view.db.capture == original)
    && (image in view.running && image != previous ==> view.db.capture == migrated)
  }

  /** `after` is `before` once the rooms in `done` were projected. */
  ghost predicate ProjectedFrom(before: Database, after: Database, done: set<Room>) {
    && after.ledger == before.ledger && after.tables == before.tables && after.capture == before.capture
    && after.rooms == before.rooms
    && after.dirtyRooms == before.dirtyRooms - done
    && after.dirtyMessages == before.dirtyMessages - done
    && after.dirtyReaders == before.dirtyReaders - done
    && after.entries <= before.entries + done
    && (forall r | r in done && before.Eligible(r) :: r in after.summaries
          && after.summaries[r] == before.rooms[r].content)
    && (forall r | r in done && !before.Eligible(r) :: r !in after.summaries)
    && (forall r | r !in done :: (r in after.summaries <==> r in before.summaries)
                                 && (r in before.summaries ==> after.summaries[r] == before.summaries[r]))
    && (forall a | a in before.epochs :: a in after.epochs && after.epochs[a] == before.epochs[a])
  }

  lemma ProjectOne(db: Database, r: Room, found: map<Account, Epoch>, listed: bool, trimmed: set<Room>)
    requires r in db.dirtyRooms
    ensures ProjectedFrom(db, ProjectRoom(db, r, found, listed, trimmed), {r})
  {
  }

  lemma ProjectNone(db: Database)
    ensures ProjectedFrom(db, db, {})
  {
  }

  lemma Shrinks(before: set<Room>, after: set<Room>, r: Room)
    requires r in before && after == before - {r}
    ensures |after| < |before|
  {
    assert before == after + {r};
  }

  lemma ProjectMore(before: Database, mid: Database, after: Database, done: set<Room>, more: set<Room>)
    requires ProjectedFrom(before, mid, done) && ProjectedFrom(mid, after, more)
    ensures ProjectedFrom(before, after, done + more)
  {
  }

  /** Draining a queue that holds the whole backlog leaves no eligible room unprojected. */
  lemma DrainedBacklogIsProjected(before: Database, after: Database)
    requires Backlog(before) <= before.dirtyRooms && ProjectedFrom(before, after, before.dirtyRooms)
    ensures after.Projected()
  {
    forall r | r in after.rooms && after.Eligible(r)
      ensures r in after.summaries && after.summaries[r] == after.rooms[r].content
    {
      assert r in before.PersonalRooms();
    }
  }

  lemma EpochsStay(before: Database, after: Database)
    ensures (exists done :: ProjectedFrom(before, after, done)) ==> before.epochs.Items <= after.epochs.Items
  {
  }

  /** A drained queue of rooms leaves no message or reader queued exactly if each of them was of a queued room. */
  lemma QueuesDrainedExactly(before: Database, after: Database)
    requires ProjectedFrom(before, after, before.dirtyRooms)
    ensures after.QueuesEmpty() <==> before.QueuesAgree()
  {
    NothingLeft(before.dirtyMessages, before.dirtyRooms);
    NothingLeft(before.dirtyReaders, before.dirtyRooms);
  }

  lemma NothingLeft(rooms: set<Room>, done: set<Room>)
    ensures rooms - done == {} <==> rooms <= done
  {
    if rooms - done == {} {
      forall r | r in rooms ensures r in done {
        assert r !in rooms - done;
      }
    }
  }

  lemma {:induction false} LeastRoom(rooms: set<Room>) returns (least: Room)
    requires rooms != {}
    ensures least in rooms && forall r | r in rooms :: least <= r
  {
    var r :| r in rooms;
    if rooms == {r} {
      least := r;
    } else {
      least := LeastRoom(rooms - {r});
      if r < least {
        least := r;
      }
      assert rooms == (rooms - {r}) + {r};
    }
  }

  class Deployment {
    const oldImage: Image
    const image: Image                     // the candidate
    ghost const original: Database         // the database this release started from
    const ddl: Version -> Capture          // the capture each migration installs
    const expected: Image -> Capture       // the capture an image's validator accepts
    const smooth: bool                     // no command fails or is interrupted for reasons of its own
    var running: set<Image>
    var tag: Image
    var db: Database
    var locked: set<Room>                  // queue rows locked by transactions of a running Hub
    var stateFile: StateFile
    ghost var log: seq<Event>

    constructor (oldImage: Image, image: Image, tag: Image, db: Database,
                 ddl: Version -> Capture, expected: Image -> Capture, smooth: bool)
      ensures Valid() && running == {oldImage} && stateFile.Absent? && log == []
      ensures this.oldImage == oldImage && this.image == image && this.tag == tag && this.db == db
      ensures original == db && this.ddl == ddl && this.expected == expected && this.smooth == smooth
    {
      this.oldImage, this.image, this.tag, this.db := oldImage, image, tag, db;
      this.original, this.ddl, this.expected, this.smooth := db, ddl, expected, smooth;
      running, locked, stateFile, log := {oldImage}, {}, Absent, [];
    }

    ghost predicate Valid()
      reads this
    {
      && (running == {} ==> locked == {})
      && Compatible(Now(), oldImage, original.capture, image, expected(image))
      && forall i | 0 <= i < |log| :: Safe(log[i])
    }

    /** DDL and backlog commands run with every Hub stopped, and no command ends in a mismatch. */
    ghost predicate Safe(event: Event) {
      && Compatible(event.after, oldImage, original.capture, image, expected(image))
      && (event.command in {GateApply, GateRestore, GateBackfillOld} ==>
            event.before.running == event.after.running == {})
    }

    ghost function Now(): View
      reads this
    {
      View(running, tag, db)
    }

    ghost predicate SameDdl(other: Database)
      reads this
    {
      db.ledger == other.ledger && db.tables == other.tables && db.capture == other.capture
    }

    /** Appended by each command when it ends. */
    ghost predicate Logged(earlier: seq<Event>, command: Command, ok: bool, before: View)
      reads this
    {
      log == earlier + [Event(command, ok, before, Now())]
    }

    /** The last command has found exactly this image running. */
    ghost predicate EndsVerified(target: Image)
      reads this
    {
      log != [] && var last := log[|log| - 1];
      last.command == VerifyRuntime(target) && last.ok && last.after.running == {target}
    }

    /** Whatever a running Hub writes; nothing when none runs. */
    method Activity()
      requires Valid()
      modifies this`db, this`locked
      ensures Valid() && SameDdl(old(db)) && (running == {} ==> db == old(db) && locked == old(locked))
      ensures old(db).QueuesAgree() ==> db.QueuesAgree()
    {
      if running != {} {
        var written: Database := *;
        if db.QueuesAgree() && !written.QueuesAgree() {
          written := db;                       // the triggers keep it
        }
        db := written.(ledger := db.ledger, tables := db.tables, capture := db.capture);
        locked := *;
      }
    }

    // ----- The gate -----

    method Preflight() returns (ok: bool, needsMigration: bool)
      requires Valid()
      modifies this`db, this`locked, this`log
      ensures Valid() && SameDdl(old(db)) && Logged(old(log), GatePreflight, ok, old(Now()))
      ensures ok ==> needsMigration == (MIGRATION !in db.ledger || db.capture != expected(image))
      ensures ok ==> Supported(db.ledger)
      ensures smooth && Supported(db.ledger) ==> ok
      ensures old(db).QueuesAgree() ==> db.QueuesAgree()
    {
      ghost var before := Now();
      Activity();
      var result := PreflightOf(db, expected(image));
      Activity();
      ok :| smooth ==> ok;
      ok := ok && result.Accepted?;
      needsMigration := result.Accepted? && result.needsMigration;
      log := log + [Event(GatePreflight, ok, before, Now())];
    }

    method ValidateOld() returns (ok: bool)
      requires Valid()
      modifies this`db, this`locked, this`log
      ensures Valid() && SameDdl(old(db)) && Logged(old(log), GateValidate, ok, old(Now()))
      ensures ok ==> db.capture == expected(oldImage)
      ensures smooth && db.capture == expected(oldImage) ==> ok
      ensures old(db).QueuesAgree() ==> db.QueuesAgree()
    {
      ghost var before := Now();
      Activity();
      ok :| smooth ==> ok;
      ok := ok && db.capture == expected(oldImage);
      log := log + [Event(GateValidate, ok, before, Now())];
    }

    method SaveSnapshot() returns (ok: bool)
      requires Valid()
      modifies this`db, this`locked, this`stateFile, this`log
      ensures Valid() && SameDdl(old(db)) && (running == {} ==> db == old(db))
      ensures Logged(old(log), GateSnapshot, ok, old(Now()))
      ensures ok ==> old(stateFile).Absent? && db.capture.Complete()
                     && (running == {} ==> stateFile == Saved(TakeSnapshot(db)))
      ensures !old(stateFile).Absent? ==> stateFile == old(stateFile)
      ensures smooth && old(stateFile).Absent? && db.capture.Complete() ==> ok
    {
      ghost var before := Now();
      Activity();
      ok := false;
      if db.capture.Complete() && stateFile.Absent? {
        var snapshot := TakeSnapshot(db);
        var written :| smooth ==> written;
        if written {
          stateFile := Saved(snapshot);
          ok :| smooth ==> ok;
        } else {
          var created: bool := *;
          stateFile := if created then Torn else Absent;
        }
      }
      Activity();
      log := log + [Event(GateSnapshot, ok, before, Now())];
    }

    /** `project_pending(limit=1)`: rows that another transaction holds are skipped. */
    method ProjectPending() returns (count: nat, ghost room: Room)
      requires Valid()
      modifies this`db
      ensures Valid()
      ensures count == 0 ==> db == old(db) && old(db).dirtyRooms <= locked
      ensures count != 0 ==> count == 1 && room in old(db).dirtyRooms - locked
                             && ProjectedFrom(old(db), db, {room})
    {
      var queue := db.dirtyRooms - locked;
      if queue == {} {
        assert forall r | r in db.dirtyRooms :: r in locked || r in queue;
        return 0, 0;
      }
      ghost var least := LeastRoom(queue);
      var next :| next in queue && forall r | r in queue :: next <= r;
      var found: map<Account, Epoch> := *;
      var listed: bool := *;
      var trimmed: set<Room> := *;
      ProjectOne(db, next, found, listed, trimmed);
      db := ProjectRoom(db, next, found, listed, trimmed);
      return 1, next;
    }

    /** The drain loop.  With every Hub stopped it ends, and an undisturbed end means an empty queue. */
    method Backfill() returns (ok: bool)
      requires Valid() && running == {}
      modifies this`db
      ensures Valid()
      ensures exists done | done <= old(db).dirtyRooms :: ProjectedFrom(old(db), db, done)
      ensures ok ==> ProjectedFrom(old(db), db, old(db).dirtyRooms)
      ensures ok ==> (db.QueuesEmpty() <==> old(db).QueuesAgree())
      ensures smooth ==> ok
    {
      var total := 0;
      ghost var start, done := db, {};
      ProjectNone(db);
      while true
        invariant Valid() && done <= start.dirtyRooms && ProjectedFrom(start, db, done)
        decreases |db.dirtyRooms|
      {
        var goesOn :| smooth ==> goesOn;
        if !goesOn {
          return false;
        }
        ghost var mid := db;
        var count, room := ProjectPending();
        if count == 0 {
          break;
        }
        ProjectMore(start, mid, db, done, {room});
        done := done + {room};
        total := total + count;
        Shrinks(mid.dirtyRooms, db.dirtyRooms, room);
      }
      assert start.dirtyRooms == done;
      QueuesDrainedExactly(start, db);
      ok :| smooth ==> ok;
    }

    /** The ledger and capture of `earlier` after some prefix of its planned migrations. */
    ghost predicate SomePrefixOf(earlier: Database)
      reads this`db
    {
      SomePrefix(earlier, db.ledger, db.capture)
    }

    ghost predicate SomePrefix(earlier: Database, ledger: set<Version>, capture: Capture) {
      exists k: nat | k <= |Plan(earlier)| :: ReachedBy(earlier, k, ledger, capture)
    }

    ghost predicate ReachedBy(earlier: Database, k: nat, ledger: set<Version>, capture: Capture)
      requires k <= |Plan(earlier)|
    {
      && ledger == MigratedBy(earlier, Plan(earlier)[..k], ddl).ledger
      && capture == MigratedBy(earlier, Plan(earlier)[..k], ddl).capture
    }

    /** The migrations of `apply`, each in its own transaction; an error leaves a prefix. */
    method Migrations() returns (ok: bool)
      requires Valid() && running == {}
      modifies this`db
      ensures Valid() && SomePrefixOf(old(db)) && db.rooms == old(db).rooms && db.epochs == old(db).epochs
      ensures ok ==> {BASELINE, MIGRATION} <= db.ledger && Backlog(db) <= db.dirtyRooms
      ensures old(db).QueuesAgree() ==> db.QueuesAgree()
      ensures smooth ==> ok
      ensures ok ==> db.capture == FinalCapture(old(db))
    {
      ghost var start, plan := db, Plan(db);
      assert ReachedBy(start, 0, db.ledger, db.capture);
      ok :| smooth ==> ok;
      if !ok {
        return;
      }
      if BASELINE !in db.ledger {
        db := Migrate(db, BASELINE, ddl(BASELINE));
        assert plan[..1] == [BASELINE] && plan[..1][1..] == [];
        assert ReachedBy(start, 1, db.ledger, db.capture);
        ok :| smooth ==> ok;
        if !ok {
          return;
        }
      }
      ghost var before := db;
      db := Migrate(db, MIGRATION, ddl(MIGRATION));
      WholePlan(start);
      assert plan[..|plan|] == plan;
      assert ReachedBy(start, |plan|, db.ledger, db.capture);
      ok :| smooth ==> ok;
    }

    /** The capture that the whole plan leaves. */
    ghost function FinalCapture(earlier: Database): Capture {
      MigratedBy(earlier, Plan(earlier), ddl).capture
    }

    /** The migrations lead to the candidate's capture, and queues and capture are as they should be before. */
    ghost predicate CanMigrate(base: Database) {
      base.QueuesAgree() && base.capture.Complete() && FinalCapture(base) == expected(image)
    }

    lemma {:induction false} SameMigratedCapture(a: Database, b: Database, versions: seq<Version>)
      requires a.capture == b.capture
      ensures MigratedBy(a, versions, ddl).capture == MigratedBy(b, versions, ddl).capture
      decreases |versions|
    {
      if versions != [] {
        SameMigratedCapture(Migrate(a, versions[0], ddl(versions[0])), Migrate(b, versions[0], ddl(versions[0])),
                            versions[1..]);
      }
    }

    lemma WholePlan(earlier: Database)
      ensures MigratedBy(earlier, Plan(earlier), ddl)
              == (if BASELINE in earlier.ledger then Migrate(earlier, MIGRATION, ddl(MIGRATION))
                  else Migrate(Migrate(earlier, BASELINE, ddl(BASELINE)), MIGRATION, ddl(MIGRATION)))
    {
      var plan := Plan(earlier);
      if BASELINE in earlier.ledger {
        assert plan[1..] == [];
      } else {
        var first := Migrate(earlier, BASELINE, ddl(BASELINE));
        assert plan[1..] == [MIGRATION] && [MIGRATION][1..] == [];
        assert MigratedBy(first, [MIGRATION], ddl) == Migrate(first, MIGRATION, ddl(MIGRATION));
      }
    }

    /** Mode `apply`: migrate, check the capture, drain the queue, verify. */
    method Apply() returns (ok: bool)
      requires Valid() && running == {}
      modifies this`db, this`log
      ensures Valid() && SomePrefixOf(old(db)) && Logged(old(log), GateApply, ok, old(Now()))
      ensures ok ==> MIGRATION in db.ledger && db.capture == expected(image) && db.Projected() && db.QueuesEmpty()
                     && stateFile.Saved? && stateFile.snapshot.epochs.Items <= db.epochs.Items
      ensures smooth && CanMigrate(old(db)) && stateFile == Saved(TakeSnapshot(old(db))) ==> ok
    {
      ghost var before := Now();
      ok := Migrations();
      if ok && db.capture == expected(image) {
        ghost var migrated := db;
        ok := Backfill();
        if ok {
          DrainedBacklogIsProjected(migrated, db);
        }
        if stateFile.Saved? {
          VerifyExactly(db, stateFile.snapshot);
          EpochsStay(migrated, db);
        }
        ok := ok && stateFile.Saved? && Verify(db, stateFile.snapshot).Drained?;
        var delivered :| smooth ==> delivered;
        ok := ok && delivered;
      } else {
        ok := false;
      }
      log := log + [Event(GateApply, ok, before, Now())];
    }

    /** Mode `restore`: one transaction, so all of it or nothing. */
    method RestoreCapture() returns (ok: bool)
      requires Valid() && running == {}
      modifies this`db, this`log
      ensures Valid() && Logged(old(log), GateRestore, ok, old(Now()))
      ensures db == old(db) || (stateFile.Saved? && db == Restore(old(db), stateFile.snapshot))
      ensures ok ==> stateFile.Saved? && db == Restore(old(db), stateFile.snapshot)
      ensures smooth && stateFile.Saved? ==> ok
    {
      ghost var before := Now();
      ok := false;
      var committed :| smooth ==> committed;
      if committed && stateFile.Saved? {
        db := Restore(db, stateFile.snapshot);
        ok :| smooth ==> ok;
      }
      log := log + [Event(GateRestore, ok, before, Now())];
    }

    method BackfillOld() returns (ok: bool)
      requires Valid() && running == {}
      modifies this`db, this`log
      ensures Valid() && SameDdl(old(db)) && Logged(old(log), GateBackfillOld, ok, old(Now()))
      ensures ok && Backlog(old(db)) <= old(db).dirtyRooms ==> db.Projected()
      ensures ok ==> (db.QueuesEmpty() <==> old(db).QueuesAgree())
      ensures smooth ==> ok
    {
      ghost var before := Now();
      ok := Backfill();
      if ok && Backlog(before.db) <= before.db.dirtyRooms {
        DrainedBacklogIsProjected(before.db, db);
      }
      log := log + [Event(GateBackfillOld, ok, before, Now())];
    }

    // ----- The runtime -----

    /** An error may leave any of the containers running; success leaves none. */
    method StopHub() returns (ok: bool)
      requires Valid()
      modifies this`running, this`db, this`locked, this`log
      ensures Valid() && SameDdl(old(db)) && Logged(old(log), Stop, ok, old(Now()))
      ensures running <= old(running) && (ok ==> running == {})
      ensures old(running) == {} ==> db == old(db)
      ensures smooth ==> ok
      ensures old(db).QueuesAgree() ==> db.QueuesAgree()
    {
      ghost var before := Now();
      Activity();
      ok :| smooth ==> ok;
      if ok {
        running, locked := {}, {};
      } else {
        var still: set<Image> := *;
        running := running * still;
        if running == {} {
          locked := {};
        }
      }
      log := log + [Event(Stop, ok, before, Now())];
    }

    /** Pulls the tag and starts it; on an error old and new containers may be running. */
    method StartHub() returns (ok: bool)
      requires Valid()
      requires Compatible(View({tag}, tag, db), oldImage, original.capture, image, expected(image))
      modifies this`running, this`db, this`locked, this`log
      ensures Valid() && SameDdl(old(db)) && Logged(old(log), Start, ok, old(Now()))
      ensures running <= old(running) + {tag} && (ok ==> running == {tag})
      ensures smooth ==> ok
    {
      ghost var before := Now();
      ok :| smooth ==> ok;
      if ok {
        running := {tag};
      } else {
        var still: set<Image> := *;
        running := (running + {tag}) * still;
        if running == {} {
          locked := {};
        }
      }
      Activity();
      log := log + [Event(Start, ok, before, Now())];
    }

    /** At most 45 looks for every container running exactly this image and answering. */
    method VerifyHub(image: Image) returns (ok: bool, looks: nat)
      requires Valid()
      modifies this`db, this`locked, this`log
      ensures Valid() && SameDdl(old(db)) && Logged(old(log), VerifyRuntime(image), ok, old(Now()))
      ensures ok ==> running == {image}
      ensures smooth && running == {image} ==> ok
      ensures smooth ==> looks == if ok then 1 else 45
    {
      ghost var before := Now();
      ok, looks := false, 0;
      while looks < 45 && !ok
        invariant looks <= 45 && Valid() && SameDdl(old(db)) && log == old(log)
        invariant ok ==> running == {image}
        invariant smooth && running == {image} && looks > 0 ==> ok
        invariant smooth && ok ==> looks == 1
      {
        Activity();
        var healthy :| smooth ==> healthy;
        ok := healthy && running == {image};
        looks := looks + 1;
      }
      var goesOn :| smooth ==> goesOn;
      ok := ok && goesOn;
      log := log + [Event(VerifyRuntime(image), ok, before, Now())];
    }

    method PromoteImage(image: Image) returns (ok: bool)
      requires Valid()
      modifies this`tag, this`db, this`locked, this`log
      ensures Valid() && SameDdl(old(db)) && Logged(old(log), Promote(image), ok, old(Now()))
      ensures (tag == image || tag == old(tag)) && (ok ==> tag == image)
      ensures running == {} ==> db == old(db)
      ensures smooth ==> ok
    {
      ghost var before := Now();
      ok :| smooth ==> ok;
      var pushed: bool := *;
      if ok || pushed {
        tag := image;
      }
      Activity();
      log := log + [Event(Promote(image), ok, before, Now())];
    }

    // ----- The coordinator -----

    /** The ledger and the capture this release found. */
    ghost predicate DdlUntouched()
      reads this
    {
      db.ledger == original.ledger && db.capture == original.capture
    }

    /** A snapshot of `base`, whose DDL this release found, is on file; only planned migrations ran since. */
    ghost predicate Recoverable(base: Database)
      reads this
    {
      && base.ledger == original.ledger && base.capture == original.capture && base.capture.Complete()
      && stateFile == Saved(TakeSnapshot(base))
      && SomePrefixOf(base)
    }

    lemma StillCanMigrate(a: Database, b: Database)
      requires a.ledger == b.ledger && a.capture == b.capture && (a.QueuesAgree() ==> b.QueuesAgree())
      ensures CanMigrate(a) ==> CanMigrate(b)
    {
      SameMigratedCapture(a, b, Plan(a));
    }

    /** The candidate's schema is in place, its queue drained, and the last event says so. */
    ghost predicate Migrated()
      reads this
    {
      && MIGRATION in db.ledger && db.capture == expected(image) && db.Projected() && db.QueuesEmpty()
      && log != [] && log[|log| - 1].command == GateApply && log[|log| - 1].ok && log[|log| - 1].after == Now()
    }

    /** The old image's drain reached every personal room. */
    ghost predicate Redrained(event: Event) {
      event.command == GateBackfillOld && event.ok && event.after.db.Projected()
    }

    /** Snapshot and apply, once every Hub is stopped. */
    method SnapshotAndApply() returns (ok: bool, snapshotSaved: bool, ghost base: Database)
      requires Valid() && DdlUntouched() && stateFile.Absent? && running == {}
      modifies this`db, this`locked, this`stateFile, this`log
      ensures Valid() && Ran(old(log), log, [GateSnapshot, GateApply], ok)
      ensures snapshotSaved <==> |log| == |old(log)| + 2
      ensures ok ==> Migrated() && base.epochs.Items <= db.epochs.Items
      ensures if snapshotSaved then Recoverable(base) else DdlUntouched()
      ensures smooth && CanMigrate(old(db)) ==> ok
    {
      ghost var start := log;
      base, snapshotSaved := db, false;
      ok := SaveSnapshot();
      RanBoth(start, log, log, GateSnapshot, GateApply, false);
      if ok {
        ghost var saved := log;
        snapshotSaved := true;
        ok := Apply();
        RanBoth(start, saved, log, GateSnapshot, GateApply, ok);
      }
    }

    /** The maintenance window: stop, snapshot, apply. */
    method Maintain() returns (ok: bool, snapshotSaved: bool, ghost base: Database)
      requires Valid() && DdlUntouched() && stateFile.Absent? && running == {oldImage}
      modifies this`running, this`db, this`locked, this`stateFile, this`log
      ensures Valid() && running <= {oldImage} && Ran(old(log), log, [Stop, GateSnapshot, GateApply], ok)
      ensures snapshotSaved <==> |log| == |old(log)| + 3
      ensures ok ==> Migrated() && base.epochs.Items <= db.epochs.Items
      ensures if snapshotSaved then running == {} && Recoverable(base) else DdlUntouched()
      ensures smooth && CanMigrate(old(db)) ==> ok
    {
      ghost var start := log;
      base, snapshotSaved := db, false;
      ok := StopHub();
      StillCanMigrate(old(db), db);
      if ok {
        ghost var stopped := log;
        ok, snapshotSaved, base := SnapshotAndApply();
        RanThen(start, stopped, log, [Stop], [GateSnapshot, GateApply], ok);
        assert [Stop] + [GateSnapshot, GateApply] == [Stop, GateSnapshot, GateApply];
      }
    }

    /** Pin the tag to an image, start it and wait until it is what runs. */
    method RollOut(target: Image) returns (ok: bool)
      requires Valid()
      requires Compatible(View({target}, target, db), oldImage, original.capture, image, expected(image))
      modifies this`running, this`tag, this`db, this`locked, this`log
      ensures Valid() && SameDdl(old(db)) && Ran(old(log), log, [Promote(target), Start, VerifyRuntime(target)], ok)
      ensures ok ==> running == {target} && tag == target && EndsVerified(target)
      ensures smooth ==> ok
    {
      ok := PromoteImage(target);
      if ok {
        ok := StartHub();
      }
      if ok {
        var looks;
        ok, looks := VerifyHub(target);
      }
    }

    method RestoreAndDrain(ghost base: Database) returns (ok: bool)
      requires Valid() && Recoverable(base) && running == {}
      modifies this`db, this`log
      ensures Valid() && Ran(old(log), log, [GateRestore, GateBackfillOld], ok)
      ensures ok ==> DdlUntouched() && Redrained(log[|log| - 1])
      ensures smooth ==> ok
    {
      ghost var start := log;
      ok := RestoreBase(base);
      RanBoth(start, log, log, GateRestore, GateBackfillOld, false);
      if ok {
        ghost var restored := log;
        ok := DrainRestored();
        RanBoth(start, restored, log, GateRestore, GateBackfillOld, ok);
      }
    }

    /** Whichever migrations had committed, a restore that succeeds brings the old DDL back and queues all there is. */
    method RestoreBase(ghost base: Database) returns (ok: bool)
      requires Valid() && Recoverable(base) && running == {}
      modifies this`db, this`log
      ensures Valid() && Ran(old(log), log, [GateRestore], ok)
      ensures ok ==> DdlUntouched() && Backlog(db) <= db.dirtyRooms
      ensures smooth ==> ok
    {
      RestoredFrom(base, db);
      ok := RestoreCapture();
    }

    lemma RestoredFrom(base: Database, now: Database)
      requires base.capture.Complete() && SomePrefix(base, now.ledger, now.capture)
      ensures var back := Restore(now, TakeSnapshot(base));
              back.ledger == base.ledger && back.capture == base.capture && Backlog(back) <= back.dirtyRooms
    {
      var k: nat :| k <= |Plan(base)| && ReachedBy(base, k, now.ledger, now.capture);
      var mid := MigratedBy(base, Plan(base)[..k], ddl);
      assert now.(ledger := mid.ledger, capture := mid.capture) == now;
      RestoreUndoesAnyPrefix(base, k, ddl, now);
      assert Backlog(Restore(now, TakeSnapshot(base))) == Backlog(now);
    }

    /** The old image's drain of what a restore has queued. */
    method DrainRestored() returns (ok: bool)
      requires Valid() && running == {} && Backlog(db) <= db.dirtyRooms
      modifies this`db, this`log
      ensures Valid() && SameDdl(old(db)) && Ran(old(log), log, [GateBackfillOld], ok)
      ensures ok ==> Redrained(log[|log| - 1])
      ensures smooth ==> ok
    {
      ok := BackfillOld();
    }

    /** Restore, if there is something to restore from, and bring the old image back. */
    method BringBack(snapshotSaved: bool, ghost base: Database) returns (ok: bool)
      requires Valid() && running == {} && (if snapshotSaved then Recoverable(base) else DdlUntouched())
      modifies this`running, this`tag, this`db, this`locked, this`log
      ensures Valid()
      ensures Ran(old(log), log, (if snapshotSaved then [GateRestore, GateBackfillOld] else [])
                                 + [Promote(oldImage), Start, VerifyRuntime(oldImage)], ok)
      ensures ok ==> running == {oldImage} && tag == oldImage && DdlUntouched() && EndsVerified(oldImage)
      ensures ok && snapshotSaved ==> exists i | |old(log)| <= i < |log| :: Redrained(log[i])
      ensures !snapshotSaved ==> DdlUntouched()
      ensures smooth ==> ok
    {
      ghost var start, repair := log, [GateRestore, GateBackfillOld];
      ghost var rollout := [Promote(oldImage), Start, VerifyRuntime(oldImage)];
      if !snapshotSaved {
        ok := RollOut(oldImage);
        assert [] + rollout == rollout;
        return;
      }
      ok := RestoreAndDrain(base);
      ghost var drained := log;
      if ok {
        ok := RollOut(oldImage);
        RanThen(start, drained, log, repair, rollout, ok);
        assert log[|drained| - 1] == drained[|drained| - 1];
      } else {
        RanShort(start, drained, repair, rollout);
      }
    }

    /** The exception handler, as far as it gets. */
    method Recover(snapshotSaved: bool, ghost base: Database) returns (ok: bool)
      requires Valid() && (if snapshotSaved then Recoverable(base) else DdlUntouched())
      modifies this`running, this`tag, this`db, this`locked, this`log
      ensures Valid()
      ensures Ran(old(log), log, (if snapshotSaved then [Stop, GateRestore, GateBackfillOld] else [Stop])
                                 + [Promote(oldImage), Start, VerifyRuntime(oldImage)], ok)
      ensures ok ==> running == {oldImage} && tag == oldImage && DdlUntouched() && EndsVerified(oldImage)
      ensures ok && snapshotSaved ==> exists i | |old(log)| <= i < |log| :: Redrained(log[i])
      ensures !snapshotSaved ==> DdlUntouched()
      ensures smooth ==> ok
    {
      ghost var start := log;
      ok := StopHub();
      if ok {
        ghost var stopped := log;
        ok := BringBack(snapshotSaved, base);
        HandlerPlan(start, stopped, log, snapshotSaved, ok);
      } else {
        HandlerStops(start, log, snapshotSaved);
      }
    }

    lemma HandlerStops(start: seq<Event>, end: seq<Event>, saved: bool)
      requires Ran(start, end, [Stop], false)
      ensures Ran(start, end, (if saved then [Stop, GateRestore, GateBackfillOld] else [Stop])
                              + [Promote(oldImage), Start, VerifyRuntime(oldImage)], false)
    {
    }

    lemma HandlerPlan(start: seq<Event>, stopped: seq<Event>, end: seq<Event>, saved: bool, ok: bool)
      requires Ran(start, stopped, [Stop], true)
      requires Ran(stopped, end, (if saved then [GateRestore, GateBackfillOld] else [])
                                 + [Promote(oldImage), Start, VerifyRuntime(oldImage)], ok)
      ensures Ran(start, end, (if saved then [Stop, GateRestore, GateBackfillOld] else [Stop])
                              + [Promote(oldImage), Start, VerifyRuntime(oldImage)], ok)
    {
      var repair := if saved then [GateRestore, GateBackfillOld] else [];
      var rollout := [Promote(oldImage), Start, VerifyRuntime(oldImage)];
      RanThen(start, stopped, end, [Stop], repair + rollout, ok);
      Assoc([Stop], repair, rollout);
      assert [Stop] + repair == if saved then [Stop, GateRestore, GateBackfillOld] else [Stop];
    }

    /** The `try` block. */
    method Attempt(maintenance: bool) returns (ok: bool, changed: bool, snapshotSaved: bool, ghost base: Database)
      requires Valid() && DdlUntouched() && stateFile.Absent? && running == {oldImage}
      requires !maintenance ==> MIGRATION in db.ledger && db.capture == expected(image)
      modifies this
      ensures Valid()
      ensures changed ==> Ran(old(log), log, (if maintenance then [Stop, GateSnapshot, GateApply] else [])
                                             + [Promote(image), Start, VerifyRuntime(image)], ok)
      ensures !changed ==> !ok && Now() == old(Now()) && log == old(log)
      ensures ok ==> running == {image} && tag == image && EndsVerified(image)
      ensures ok ==> MIGRATION in db.ledger && db.capture == expected(image)
      ensures ok && maintenance ==> exists i | 0 <= i < |log| :: Upgraded(log[i], base)
      ensures if snapshotSaved then Recoverable(base) else DdlUntouched()
      ensures snapshotSaved <==> maintenance && |log| >= |old(log)| + 3
      ensures smooth ==> changed && (!maintenance || CanMigrate(old(db)) ==> ok)
    {
      changed, snapshotSaved, base, ok := false, false, db, false;
      var goesOn :| smooth ==> goesOn;
      if !goesOn {
        return;
      }
      changed := true;
      ok, snapshotSaved, base := TryBlock(maintenance);
    }

    /** What stands in it, once `changed` is set. */
    method TryBlock(maintenance: bool) returns (ok: bool, snapshotSaved: bool, ghost base: Database)
      requires Valid() && DdlUntouched() && stateFile.Absent? && running == {oldImage}
      requires !maintenance ==> MIGRATION in db.ledger && db.capture == expected(image)
      modifies this
      ensures Valid()
      ensures Ran(old(log), log, (if maintenance then [Stop, GateSnapshot, GateApply] else [])
                                 + [Promote(image), Start, VerifyRuntime(image)], ok)
      ensures ok ==> running == {image} && tag == image && EndsVerified(image)
      ensures ok ==> MIGRATION in db.ledger && db.capture == expected(image)
      ensures ok && maintenance ==> exists i | 0 <= i < |log| :: Upgraded(log[i], base)
      ensures if snapshotSaved then Recoverable(base) else DdlUntouched()
      ensures snapshotSaved <==> maintenance && |log| >= |old(log)| + 3
      ensures smooth && (!maintenance || CanMigrate(old(db))) ==> ok
    {
      ghost var start, window := log, [Stop, GateSnapshot, GateApply];
      ghost var rollout := [Promote(image), Start, VerifyRuntime(image)];
      snapshotSaved, base := false, db;
      if !maintenance {
        ok := FinishTry(base, snapshotSaved);
        assert [] + rollout == rollout;
        return;
      }
      ok, snapshotSaved, base := Maintain();
      ghost var applied := log;
      if !ok {
        RanShort(start, applied, window, rollout);
        return;
      }
      assert Upgraded(applied[|applied| - 1], base);
      ok := FinishTry(base, snapshotSaved);
      RanThen(start, applied, log, window, rollout, ok);
      assert log[|applied| - 1] == applied[|applied| - 1];
    }

    /** The candidate's rollout keeps whatever the handler will need. */
    method FinishTry(ghost base: Database, ghost snapshotSaved: bool) returns (ok: bool)
      requires Valid() && MIGRATION in db.ledger && db.capture == expected(image)
      requires if snapshotSaved then Recoverable(base) else DdlUntouched()
      modifies this`running, this`tag, this`db, this`locked, this`log
      ensures Valid() && Ran(old(log), log, [Promote(image), Start, VerifyRuntime(image)], ok)
      ensures ok ==> running == {image} && tag == image && EndsVerified(image)
      ensures MIGRATION in db.ledger && db.capture == expected(image)
      ensures if snapshotSaved then Recoverable(base) else DdlUntouched()
      ensures smooth ==> ok
    {
      ok := RollOut(image);
    }

    /** The apply event of a successful window: schema in place, all drained, no old epoch moved. */
    ghost predicate Upgraded(event: Event, base: Database) {
      && event.command == GateApply && event.ok
      && event.after.db.Projected() && event.after.db.QueuesEmpty()
      && base.epochs.Items <= event.after.db.epochs.Items
    }

    /** The running image was found to match its capture, after a preflight and before anything else. */
    ghost predicate Validated()
      reads this
    {
      && |log| >= 2 && log[0].command == GatePreflight && log[0].ok && log[1].command == GateValidate && log[1].ok
      && original.capture == expected(oldImage)
    }

    /** The log before the first event that the handler has added. */
    ghost function Tried(failed: nat): seq<Event>
      reads this
    {
      if failed < |log| then log[..failed + 1] else log
    }

    /**
     * One release.  The log and the final state meet `Valid` at every exit, so DDL and
     * backlog commands ran with every Hub stopped, and no Hub was ever left running
     * against a capture it was not built for, not even when the recovery itself failed.
     * `failed` is the place of the command whose failure called the handler.  Where no command fails by
     * itself, only a ledger or a capture that does not fit keeps the release from being completed, and
     * a recovery succeeds.
     */
    method Deploy() returns (exit: Exit, ghost maintenance: bool, ghost snapshotSaved: bool, ghost failed: nat,
                            ghost base: Database)
      requires Valid() && log == [] && DdlUntouched() && stateFile.Absent? && running == {oldImage}
      modifies this
      ensures Valid()
      ensures exit.Completed? ==>
                && running == {image} && tag == image && EndsVerified(image)
                && 18 in db.ledger && db.capture == expected(image)
                && Ran([], log, (if maintenance then [GatePreflight, GateValidate, Stop, GateSnapshot, GateApply]
                                 else [GatePreflight]) + [Promote(image), Start, VerifyRuntime(image)], true)
      ensures exit.Completed? ==>
                && maintenance == (18 !in original.ledger || original.capture != expected(image))
                && (maintenance ==> exists i | 0 <= i < |log| :: Upgraded(log[i], base))
      ensures exit.Untouched? ==>
                && running == {oldImage} && tag == old(tag) && DdlUntouched() && !snapshotSaved
                && forall i | 0 <= i < |log| :: log[i].command in {GatePreflight, GateValidate}
      ensures exit.RolledBack? || exit.RecoveryFailed? ==>
                && Ran([], Tried(failed),
                       (if maintenance then [GatePreflight, GateValidate, Stop, GateSnapshot, GateApply]
                        else [GatePreflight]) + [Promote(image), Start, VerifyRuntime(image)], false)
                && Ran(Tried(failed), log,
                       (if snapshotSaved then [Stop, GateRestore, GateBackfillOld] else [Stop])
                       + [Promote(oldImage), Start, VerifyRuntime(oldImage)], exit.RolledBack?)
      ensures exit.RolledBack? ==>
                && running == {oldImage} && tag == oldImage && DdlUntouched() && EndsVerified(oldImage)
                && (snapshotSaved ==> exists i | 0 <= i < |log| :: Redrained(log[i]))
      ensures !exit.Untouched? && maintenance ==> Validated()
      ensures !snapshotSaved ==> DdlUntouched()
      ensures snapshotSaved ==> Validated() && |log| > 4 && log[4].command == GateApply
      ensures !(17 in original.ledger || 16 in original.ledger) ==> exit.Untouched?
      ensures (exists v | v in original.ledger :: v > 18) ==> exit.Untouched?
      ensures smooth ==>
                if !Supported(original.ledger) || (maintenance && original.capture != expected(oldImage))
                then exit.Untouched?
                else exit.Completed? || (maintenance && !CanMigrate(old(db)) && exit.RolledBack?)
    {
      var ok, needsMigration := Prepare();
      StillCanMigrate(old(db), db);
      maintenance, snapshotSaved, failed, base := needsMigration, false, 0, db;
      if !ok {
        return Untouched, maintenance, snapshotSaved, failed, base;
      }
      exit, snapshotSaved, failed, base := TryOrRecover(needsMigration);
    }

    /** The `try` block and its handler. */
    method TryOrRecover(maintenance: bool)
      returns (exit: Exit, ghost snapshotSaved: bool, ghost failed: nat, ghost base: Database)
      requires Valid() && DdlUntouched() && stateFile.Absent? && running == {oldImage}
      requires !maintenance ==> MIGRATION in db.ledger && db.capture == expected(image)
      requires Ran([], log, if maintenance then [GatePreflight, GateValidate] else [GatePreflight], true)
      requires maintenance ==> Validated()
      modifies this
      ensures Valid() && old(log) <= log
      ensures exit.Completed? ==>
                && running == {image} && tag == image && EndsVerified(image)
                && MIGRATION in db.ledger && db.capture == expected(image)
                && Ran([], log, (if maintenance then [GatePreflight, GateValidate, Stop, GateSnapshot, GateApply]
                                 else [GatePreflight]) + [Promote(image), Start, VerifyRuntime(image)], true)
                && (maintenance ==> exists i | 0 <= i < |log| :: Upgraded(log[i], base))
      ensures exit.Untouched? ==> Now() == old(Now()) && log == old(log) && !snapshotSaved
      ensures exit.RolledBack? || exit.RecoveryFailed? ==>
                && Ran([], Tried(failed),
                       (if maintenance then [GatePreflight, GateValidate, Stop, GateSnapshot, GateApply]
                        else [GatePreflight]) + [Promote(image), Start, VerifyRuntime(image)], false)
                && Ran(Tried(failed), log,
                       (if snapshotSaved then [Stop, GateRestore, GateBackfillOld] else [Stop])
                       + [Promote(oldImage), Start, VerifyRuntime(oldImage)], exit.RolledBack?)
      ensures exit.RolledBack? ==>
                && running == {oldImage} && tag == oldImage && DdlUntouched() && EndsVerified(oldImage)
                && (snapshotSaved ==> exists i | 0 <= i < |log| :: Redrained(log[i]))
      ensures !snapshotSaved ==> DdlUntouched()
      ensures snapshotSaved ==> maintenance && |log| > 4 && log[4].command == GateApply
      ensures smooth ==> exit.Completed? || (maintenance && !CanMigrate(old(db)) && exit.RolledBack?)
    {
      failed := 0;
      ghost var prepared := log;
      var ok, changed, saved;
      ok, changed, saved, base := Attempt(maintenance);
      snapshotSaved := saved;
      if !changed {
        return Untouched, snapshotSaved, failed, base;
      }
      ghost var tried := log;
      TryPlan(prepared, tried, maintenance, ok);
      if ok {
        return Completed, snapshotSaved, failed, base;
      }
      exit, failed := Handle(saved, base);
      assert saved ==> log[4] == tried[4];
    }

    /** The handler, and what becomes of the release. */
    method Handle(snapshotSaved: bool, ghost base: Database) returns (exit: Exit, ghost failed: nat)
      requires Valid() && log != [] && (if snapshotSaved then Recoverable(base) else DdlUntouched())
      modifies this
      ensures Valid() && old(log) <= log && Tried(failed) == old(log) && (exit.RolledBack? || exit.RecoveryFailed?)
      ensures Ran(old(log), log, (if snapshotSaved then [Stop, GateRestore, GateBackfillOld] else [Stop])
                                 + [Promote(oldImage), Start, VerifyRuntime(oldImage)], exit.RolledBack?)
      ensures exit.RolledBack? ==>
                && running == {oldImage} && tag == oldImage && DdlUntouched() && EndsVerified(oldImage)
                && (snapshotSaved ==> exists i | 0 <= i < |log| :: Redrained(log[i]))
      ensures !snapshotSaved ==> DdlUntouched()
      ensures smooth ==> exit.RolledBack?
    {
      failed := |log| - 1;
      var ok := Recover(snapshotSaved, base);
      exit := if ok then RolledBack else RecoveryFailed;
    }

    lemma TryPlan(prepared: seq<Event>, end: seq<Event>, maintenance: bool, ok: bool)
      requires Ran([], prepared, if maintenance then [GatePreflight, GateValidate] else [GatePreflight], true)
      requires Ran(prepared, end, (if maintenance then [Stop, GateSnapshot, GateApply] else [])
                                  + [Promote(image), Start, VerifyRuntime(image)], ok)
      ensures Ran([], end, (if maintenance then [GatePreflight, GateValidate, Stop, GateSnapshot, GateApply]
                            else [GatePreflight]) + [Promote(image), Start, VerifyRuntime(image)], ok)
      ensures maintenance && |end| >= |prepared| + 3 ==> |end| > 4 && end[4].command == GateApply
    {
      var before := if maintenance then [GatePreflight, GateValidate] else [GatePreflight];
      var window := if maintenance then [Stop, GateSnapshot, GateApply] else [];
      var rollout := [Promote(image), Start, VerifyRuntime(image)];
      RanThen([], prepared, end, before, window + rollout, ok);
      Assoc(before, window, rollout);
      assert before + window == if maintenance then [GatePreflight, GateValidate, Stop, GateSnapshot, GateApply]
                                else [GatePreflight];
    }

    /** Preflight, and validation of the running image before a maintenance window. */
    method Prepare() returns (ok: bool, needsMigration: bool)
      requires Valid() && log == [] && DdlUntouched()
      modifies this`db, this`locked, this`log
      ensures Valid() && DdlUntouched()
      ensures forall i | 0 <= i < |log| :: log[i].command in {GatePreflight, GateValidate}
      ensures ok ==> Ran([], log, if needsMigration then [GatePreflight, GateValidate] else [GatePreflight], true)
      ensures ok ==> needsMigration == (MIGRATION !in original.ledger || original.capture != expected(image))
      ensures ok ==> Supported(original.ledger) && (needsMigration ==> Validated())
      ensures old(db).QueuesAgree() ==> db.QueuesAgree()
      ensures smooth && Supported(original.ledger) && (needsMigration ==> original.capture == expected(oldImage)) ==> ok
    {
      ok, needsMigration := Preflight();
      if ok && needsMigration {
        ok := ValidateOld();
      }
    }
  }
}
