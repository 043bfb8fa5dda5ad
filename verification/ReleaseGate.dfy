/**
 * The database side of a release (backend/scripts/conversation_release_gate.py): the
 * capture DDL, the migration ledger, the projection queue, and what snapshot, apply,
 * restore, backfill and verify do to them.
 */
module ReleaseGate {

  type Room = nat
  type Account = nat
  type Epoch = string
  type Content = nat

  /** Migration files, ordered as their names are. */
  type Version = nat
  const SPACE_KNOWLEDGE_BASE: Version := 16
  const BASELINE: Version := 17
  const MIGRATION: Version := 18

  datatype Table = Rooms | RoomMembers | MessageRecords | Agents | Users
  datatype Operation = Insert | Update | Delete

  /** One of the capture functions, and the trigger of the same name. */
  datatype CaptureName = CaptureName(table: Table, op: Operation)

  datatype Capture = Capture(functions: map<CaptureName, string>, triggers: map<CaptureName, string>) {
    /** What `snapshot` insists on before anything is changed. */
    predicate Complete() {
      |functions| == 15 && |triggers| == 15
    }
  }

  datatype RoomRow = RoomRow(inSpace: bool, supportDm: bool, content: Content)

  datatype Database = Database(
    ledger: set<Version>,
    tables: set<Version>,              // versions whose tables and columns exist
    capture: Capture,
    rooms: map<Room, RoomRow>,
    entries: set<Room>,                // rooms named in the personal directory
    dirtyRooms: set<Room>,
    dirtyMessages: set<Room>,
    dirtyReaders: set<Room>,
    summaries: map<Room, Content>,
    epochs: map<Account, Epoch>)
  {
    /** space_id IS NULL */
    function PersonalRooms(): set<Room> {
      set r | r in rooms && !rooms[r].inSpace
    }

    /** Personal rooms that have a summary of their own. */
    predicate Eligible(r: Room) {
      r in rooms && !rooms[r].inSpace && !rooms[r].supportDm
    }

    predicate QueuesEmpty() {
      dirtyRooms == {} && dirtyMessages == {} && dirtyReaders == {}
    }

    /** What the capture triggers keep: every queued message and reader is of a queued room. */
    predicate QueuesAgree() {
      dirtyMessages <= dirtyRooms && dirtyReaders <= dirtyRooms
    }

    /** No queued room, and every eligible room projected as it now stands. */
    predicate Projected() {
      && dirtyRooms == {}
      && forall r | r in rooms && !rooms[r].inSpace && !rooms[r].supportDm ::
           r in summaries && summaries[r] == rooms[r].content
    }
  }

  datatype Snapshot = Snapshot(capture: Capture, hadMigration: bool, hadBaseline: bool, epochs: map<Account, Epoch>)

  // ----- The fifteen names -----

  function NamesOf(t: Table): set<CaptureName> {
    {CaptureName(t, Insert), CaptureName(t, Update), CaptureName(t, Delete)}
  }

  function AllNames(): set<CaptureName> {
    NamesOf(Rooms) + NamesOf(RoomMembers) + NamesOf(MessageRecords) + NamesOf(Agents) + NamesOf(Users)
  }

  lemma NameIsListed(name: CaptureName)
    ensures name in AllNames()
  {
    assert name in NamesOf(name.table) by {
      match name.op case Insert => case Update => case Delete =>
    }
    match name.table case Rooms => case RoomMembers => case MessageRecords => case Agents => case Users =>
  }

  lemma FifteenNames()
    ensures |AllNames()| <= 15
  {
    forall t: Table ensures |NamesOf(t)| <= 3 {
      assert NamesOf(t) == {CaptureName(t, Insert), CaptureName(t, Update)} + {CaptureName(t, Delete)};
    }
  }

  lemma {:induction false} SubsetOfSameSize<T>(a: set<T>, b: set<T>)
    requires a <= b && |a| >= |b|
    ensures a == b
  {
    if !(b <= a) {
      var x :| x in b && x !in a;
      SizeOfSubset(a, b - {x});
    }
  }

  lemma {:induction false} SizeOfSubset<T>(a: set<T>, b: set<T>)
    requires a <= b
    ensures |a| <= |b|
  {
    if a != {} {
      var x :| x in a;
      SizeOfSubset(a - {x}, b - {x});
    }
  }

  /** Fifteen rows for these names are all of them. */
  lemma FifteenNamesAreAll(m: map<CaptureName, string>)
    requires |m| == 15
    ensures m.Keys == AllNames()
  {
    FifteenNames();
    forall name | name in m.Keys ensures name in AllNames() {
      NameIsListed(name);
    }
    assert |m.Keys| == |m|;
    SubsetOfSameSize(m.Keys, AllNames());
  }

  // ----- The modes of the gate -----

  datatype Preflight = Refused | Accepted(needsMigration: bool)

  /** A ledger that this release can start from: 016 or 017 installed, nothing newer than 018. */
  predicate Supported(ledger: set<Version>) {
    (BASELINE in ledger || SPACE_KNOWLEDGE_BASE in ledger) && forall v | v in ledger :: v <= MIGRATION
  }

  function PreflightOf(db: Database, expected: Capture): Preflight {
    if BASELINE !in db.ledger && SPACE_KNOWLEDGE_BASE !in db.ledger then Refused
    else if exists v | v in db.ledger :: v > MIGRATION then Refused
    else Accepted(MIGRATION !in db.ledger || db.capture != expected)
  }

  function TakeSnapshot(db: Database): Snapshot {
    Snapshot(db.capture, MIGRATION in db.ledger, BASELINE in db.ledger, db.epochs)
  }

  /** Personal rooms and directory entries, which both migrations and `restore` queue. */
  function Backlog(db: Database): set<Room> {
    db.PersonalRooms() + db.entries
  }

  /** Every room outside a space, and every room that is or was in a personal directory, is in the queue. */
  ghost predicate IsQueued(db: Database, queue: set<Room>) {
    && (forall r | r in db.rooms && !db.rooms[r].inSpace :: r in queue)
    && (forall r | r in db.entries :: r in queue)
  }

  /** One migration transaction: tables, capture, queue and ledger together. */
  function Migrate(db: Database, version: Version, capture: Capture): Database {
    db.(ledger := db.ledger + {version},
        tables := db.tables + {version},
        capture := Capture(db.capture.functions + capture.functions, db.capture.triggers + capture.triggers),
        dirtyRooms := db.dirtyRooms + Backlog(db))
  }

  /** The versions `apply` runs, in order. */
  function Plan(db: Database): seq<Version> {
    if BASELINE in db.ledger then [MIGRATION] else [BASELINE, MIGRATION]
  }

  /** The database after some of the planned migrations committed. */
  function MigratedBy(db: Database, versions: seq<Version>, ddl: Version -> Capture): Database
    decreases |versions|
  {
    if versions == [] then db
    else MigratedBy(Migrate(db, versions[0], ddl(versions[0])), versions[1..], ddl)
  }

  /** The one transaction of `restore`. */
  function Restore(db: Database, saved: Snapshot): Database {
    db.(capture := Capture(db.capture.functions + saved.capture.functions,
                           db.capture.triggers + saved.capture.triggers),
        ledger := db.ledger
                  - (if saved.hadMigration then {} else {MIGRATION})
                  - (if saved.hadBaseline then {} else {BASELINE}),
        dirtyRooms := db.dirtyRooms + Backlog(db))
  }

  /** What `project_pending` does for one queued room; old deleted entries, of any room, may be trimmed. */
  function ProjectRoom(db: Database, r: Room, found: map<Account, Epoch>, listed: bool, trimmed: set<Room>): Database {
    db.(dirtyRooms := db.dirtyRooms - {r},
        dirtyMessages := db.dirtyMessages - {r},
        dirtyReaders := db.dirtyReaders - {r},
        summaries := if db.Eligible(r) then db.summaries[r := db.rooms[r].content] else db.summaries - {r},
        entries := (if listed then db.entries + {r} else db.entries) - trimmed,
        epochs := found + db.epochs)                       // ON CONFLICT DO NOTHING
  }

  datatype Verdict = Drained | NotDrained | SummaryMissing | EpochChanged

  function Verify(db: Database, saved: Snapshot): Verdict {
    if db.dirtyRooms != {} || db.dirtyMessages != {} || db.dirtyReaders != {} then NotDrained
    else if exists r | r in db.rooms :: db.Eligible(r) && r !in db.summaries then SummaryMissing
    else if exists a | a in saved.epochs :: a !in db.epochs || db.epochs[a] != saved.epochs[a] then EpochChanged
    else Drained
  }

  // ----- What the modes guarantee -----

  /** `preflight` refuses a ledger without 016 and 017 or with a newer file, and asks for 018 or its capture. */
  lemma PreflightExactly(db: Database, expected: Capture)
    ensures PreflightOf(db, expected).Accepted?
            <==> !(16 !in db.ledger && 17 !in db.ledger) && forall v | v in db.ledger :: v <= 18
    ensures PreflightOf(db, expected).Accepted? && !PreflightOf(db, expected).needsMigration
            ==> 18 in db.ledger && db.capture == expected
    ensures PreflightOf(db, expected).Accepted? && 18 in db.ledger && db.capture == expected
            ==> !PreflightOf(db, expected).needsMigration
  {
  }

  /** `verify` passes exactly when nothing is queued, no summary is missing and no old epoch moved. */
  lemma VerifyExactly(db: Database, saved: Snapshot)
    ensures Verify(db, saved).Drained?
            <==> && db.dirtyRooms + db.dirtyMessages + db.dirtyReaders == {}
                 && (forall r | r in db.rooms && !db.rooms[r].inSpace && !db.rooms[r].supportDm :: r in db.summaries)
                 && saved.epochs.Items <= db.epochs.Items
  {
    if saved.epochs.Items <= db.epochs.Items {
      forall a | a in saved.epochs ensures a in db.epochs && db.epochs[a] == saved.epochs[a] {
        assert (a, saved.epochs[a]) in saved.epochs.Items;
      }
    }
  }

  /** Accounts that first appear during the backfill never make `verify` fail. */
  lemma NewAccountsPass(db: Database, saved: Snapshot, found: map<Account, Epoch>)
    requires Verify(db, saved).Drained?
    ensures Verify(db.(epochs := found + db.epochs), saved).Drained?
  {
  }

  /** The migrations that committed touch the ledger and the capture, and queue the backlog. */
  lemma {:induction false} MigratedByEffect(db: Database, versions: seq<Version>, ddl: Version -> Capture)
    ensures var mid := MigratedBy(db, versions, ddl);
            && mid.ledger == db.ledger + (set v | v in versions)
            && mid.capture.functions.Keys >= db.capture.functions.Keys
            && mid.capture.triggers.Keys >= db.capture.triggers.Keys
            && mid.rooms == db.rooms && mid.entries == db.entries && mid.epochs == db.epochs
            && mid.tables == db.tables + (set v | v in versions)
            && (versions != [] ==> IsQueued(db, mid.dirtyRooms) && Backlog(db) <= mid.dirtyRooms)
            && db.dirtyRooms <= mid.dirtyRooms
            && (versions != [] ==>
                  var last := ddl(versions[|versions| - 1]);
                  last.functions.Items <= mid.capture.functions.Items
                  && last.triggers.Items <= mid.capture.triggers.Items)
    decreases |versions|
  {
    if versions != [] {
      MigratedByEffect(Migrate(db, versions[0], ddl(versions[0])), versions[1..], ddl);
      assert (set v | v in versions) == {versions[0]} + set v | v in versions[1..];
    }
  }

  /**
   * Whichever prefix of the plan committed, and whatever was projected since, `restore`
   * brings back exactly the ledger and the capture of the snapshot and queues every
   * personal room and directory entry.
   */
  lemma RestoreUndoesAnyPrefix(db: Database, done: nat, ddl: Version -> Capture, now: Database)
    requires db.capture.Complete() && done <= |Plan(db)|
    ensures var mid := MigratedBy(db, Plan(db)[..done], ddl);
            var back := Restore(now.(ledger := mid.ledger, capture := mid.capture), TakeSnapshot(db));
            && back.ledger == db.ledger && back.capture == db.capture
            && IsQueued(now, back.dirtyRooms) && Backlog(now) <= back.dirtyRooms && back.tables == now.tables
  {
    MigratedByEffect(db, Plan(db)[..done], ddl);
    RestoreCapture(MigratedBy(db, Plan(db)[..done], ddl).capture, db.capture);
    PrefixOfPlan(db, done);
    LedgerComesBack(db.ledger, set v | v in Plan(db)[..done]);
  }

  lemma LedgerComesBack(ledger: set<Version>, added: set<Version>)
    requires forall v | v in added :: (v == BASELINE && BASELINE !in ledger) || v == MIGRATION
    ensures ledger + added - (if MIGRATION in ledger then {} else {MIGRATION})
                           - (if BASELINE in ledger then {} else {BASELINE}) == ledger
  {
  }

  /** A planned migration that the ledger already had is only ever 018. */
  lemma PrefixOfPlan(db: Database, done: nat)
    requires done <= |Plan(db)|
    ensures forall v | v in Plan(db)[..done] :: (v == BASELINE && BASELINE !in db.ledger) || v == MIGRATION
  {
  }

  /** Replacing all fifteen functions and triggers leaves nothing of what was there. */
  lemma RestoreCapture(now: Capture, saved: Capture)
    requires saved.Complete()
    ensures Capture(now.functions + saved.functions, now.triggers + saved.triggers) == saved
  {
    Overlay(now.functions, saved.functions);
    Overlay(now.triggers, saved.triggers);
  }

  lemma Overlay(now: map<CaptureName, string>, saved: map<CaptureName, string>)
    requires |saved| == 15
    ensures now + saved == saved
  {
    FifteenNamesAreAll(saved);
    forall name | name in now ensures name in saved {
      NameIsListed(name);
    }
  }
}
