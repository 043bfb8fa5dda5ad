/**
 * Crash-safe sending (cli/src/send-recovery.ts).
 *
 * The world is one send key: its lock file, its attempt file, every process that
 * was ever started for it, the requests on the network and the Hub's rows.  A step
 * is one effect of one process, a crash, a Hub step, or an operator removing the
 * lock of a dead process.  Requests are never lost from `sent`, so the Hub may take
 * one late, repeatedly or never; replies may be lost (`ReplyAmbiguous`) and a status
 * query may answer 404 at any time, even for a message the Hub already holds.
 */
module SendRecovery {
  import opened Wrappers

  type MessageId = nat
  type Payload = nat
  type Receiver = nat
  type Pid = nat

  /** How long a recovered result suppresses a repeat of the same command. */
  const RECOVERY_WINDOW_MS: nat := 15 * 60000

  datatype Delivery = Delivery(msgId: MessageId, status: string)

  /** The two optional fields that `recover` sets together. */
  datatype Recovery = Recovery(recoveredAt: nat, result: Delivery)

  /** The content of the attempt file. */
  datatype Attempt = Attempt(messageId: MessageId, prepared: Payload, recovery: Option<Recovery>) {
    /** A recovery stamped with time 0 counts as absent, as it does in the source's truth test. */
    predicate IsRecovered() {
      recovery.Some? && recovery.value.recoveredAt != 0
    }
  }

  datatype Request = Request(id: MessageId, payload: Payload)

  /** A message record: the Hub keeps at most one for each (msg_id, receiver_id). */
  datatype Row = Row(id: MessageId, receiver: Receiver, payload: Payload)

  datatype Outcome = Returned(id: MessageId) | Threw

  /** Where a process stands: the effect it performs next, with its locals. */
  datatype Proc =
    | Starting
    | ReadingFile
    | UnlinkingStale
    | ChoosingId
    | Preparing(id: MessageId)
    | SavingNew(attempt: Attempt)
    | Querying(attempt: Attempt, resendIfMissing: bool)
    | SavingRecovered(attempt: Attempt)
    | Sending(attempt: Attempt)
    | AwaitingReply(attempt: Attempt)
    | UnlinkingSent(attempt: Attempt)
    | Unlocking(outcome: Outcome)
    | Finished(outcome: Outcome)
    | Crashed
  {
    /** Between creating the lock file and removing it. */
    predicate Critical() {
      !Starting? && !Finished? && !Crashed?
    }
  }

  datatype World = World(
    explicitId: Option<MessageId>,      // options.messageId: part of the key, so the same for every process
    lock: Option<Pid>,                  // who created the lock file
    file: Option<Attempt>,
    procs: map<Pid, Proc>,
    sent: set<Request>,
    rows: seq<Row>,
    chosen: set<MessageId>,             // every id ever chosen for this key
    confirmed: set<MessageId>)          // ids a process has seen the Hub confirm

  datatype Action =
    | Arrive(p: Pid)
    | AcquireLock(p: Pid)
    | SeeLockHeld(p: Pid)
    | ReadFile(p: Pid, now: nat)
    | UnlinkStale(p: Pid)
    | ChooseId(p: Pid, random: MessageId)
    | Prepared(p: Pid, payload: Payload)
    | PrepareFailed(p: Pid)
    | SaveNew(p: Pid)
    | StatusFound(p: Pid, status: string, now: nat)
    | StatusNotFound(p: Pid)
    | StatusUnknown(p: Pid)
    | SaveRecovered(p: Pid)
    | Post(p: Pid)
    | ReplyOk(p: Pid)
    | ReplyRejected(p: Pid)
    | ReplyAmbiguous(p: Pid)
    | UnlinkSent(p: Pid)
    | Unlock(p: Pid)
    | FileError(p: Pid)
    | Crash(p: Pid)
    | RemoveDeadLock
    | HubAccept(request: Request, receiver: Receiver)
  {
    /** The process that acts; None for the Hub and the operator. */
    function Actor(): Option<Pid> {
      if RemoveDeadLock? || HubAccept? then None else Some(p)
    }

    /** It replaces or removes the attempt file. */
    predicate WritesFile() {
      UnlinkStale? || SaveNew? || SaveRecovered? || UnlinkSent?
    }

    /** Something an invocation may throw on, whatever it has done before. */
    predicate IsFailure() {
      SeeLockHeld? || PrepareFailed? || StatusUnknown? || ReplyRejected? || FileError?
    }
  }

  function Init(explicitId: Option<MessageId>): World {
    World(explicitId, None, None, map[], {}, [], {}, {})
  }

  predicate Stored(w: World, id: MessageId) {
    exists i | 0 <= i < |w.rows| :: w.rows[i].id == id
  }

  predicate HasRow(rows: seq<Row>, id: MessageId, receiver: Receiver) {
    exists i | 0 <= i < |rows| :: rows[i].id == id && rows[i].receiver == receiver
  }

  /** Whether an action can happen in a world. */
  predicate Enabled(w: World, a: Action) {
    match a
    case Arrive(p) => p !in w.procs
    case AcquireLock(p) => p in w.procs && w.procs[p].Starting? && w.lock.None?
    case SeeLockHeld(p) => p in w.procs && w.procs[p].Starting? && w.lock.Some?
    case ReadFile(p, _) => p in w.procs && w.procs[p].ReadingFile?
    case UnlinkStale(p) => p in w.procs && w.procs[p].UnlinkingStale?
    case ChooseId(p, random) => p in w.procs && w.procs[p].ChoosingId? && random !in w.chosen
    case Prepared(p, _) => p in w.procs && w.procs[p].Preparing?
    case PrepareFailed(p) => p in w.procs && w.procs[p].Preparing?
    case SaveNew(p) => p in w.procs && w.procs[p].SavingNew?
    case StatusFound(p, _, _) =>
      p in w.procs && w.procs[p].Querying? && Stored(w, w.procs[p].attempt.messageId)
    case StatusNotFound(p) => p in w.procs && w.procs[p].Querying?
    case StatusUnknown(p) => p in w.procs && w.procs[p].Querying?
    case SaveRecovered(p) => p in w.procs && w.procs[p].SavingRecovered?
    case Post(p) => p in w.procs && w.procs[p].Sending?
    case ReplyOk(p) =>
      p in w.procs && w.procs[p].AwaitingReply? && Stored(w, w.procs[p].attempt.messageId)
    case ReplyRejected(p) => p in w.procs && w.procs[p].AwaitingReply?
    case ReplyAmbiguous(p) => p in w.procs && w.procs[p].AwaitingReply?
    case UnlinkSent(p) => p in w.procs && w.procs[p].UnlinkingSent?
    case Unlock(p) => p in w.procs && w.procs[p].Unlocking?
    case FileError(p) => p in w.procs && TouchesFile(w.procs[p])
    case Crash(p) => p in w.procs && !w.procs[p].Finished? && !w.procs[p].Crashed?
    case RemoveDeadLock =>
      w.lock.Some? && w.lock.value in w.procs && w.procs[w.lock.value].Crashed?
    case HubAccept(r, _) => r in w.sent
  }

  /** Effects on the disk, each of which may throw instead. */
  predicate TouchesFile(proc: Proc) {
    proc.Starting? || proc.ReadingFile? || proc.UnlinkingStale? || proc.SavingNew?
    || proc.SavingRecovered? || proc.UnlinkingSent? || proc.Unlocking?
  }

  function AfterRead(file: Option<Attempt>, now: nat): Proc {
    match file
    case None => ChoosingId
    case Some(attempt) =>
      if !attempt.IsRecovered() then Querying(attempt, true)
      else if now - attempt.recovery.value.recoveredAt < RECOVERY_WINDOW_MS
      then Unlocking(Returned(attempt.recovery.value.result.msgId))
      else UnlinkingStale
  }

  /** Where a failing disk effect takes the process. */
  function AfterFileError(proc: Proc): Proc {
    if proc.Starting? then Finished(Threw)
    else if proc.UnlinkingSent? then Querying(proc.attempt, false)
    else if proc.Unlocking? then Crashed           // the lock file stays behind
    else Unlocking(Threw)
  }

  function Move(w: World, p: Pid, proc: Proc): World {
    w.(procs := w.procs[p := proc])
  }

  /** The world after an action. */
  function Do(w: World, a: Action): World
    requires Enabled(w, a)
  {
    match a
    case Arrive(p) => Move(w, p, Starting)
    case AcquireLock(p) => Move(w, p, ReadingFile).(lock := Some(p))
    case SeeLockHeld(p) => Move(w, p, Finished(Threw))
    case ReadFile(p, now) => Move(w, p, AfterRead(w.file, now))
    case UnlinkStale(p) => Move(w, p, ChoosingId).(file := None)
    case ChooseId(p, random) =>
      var id := if w.explicitId.Some? then w.explicitId.value else random;
      Move(w, p, Preparing(id)).(chosen := w.chosen + {id})
    case Prepared(p, payload) => Move(w, p, SavingNew(Attempt(w.procs[p].id, payload, None)))
    case PrepareFailed(p) => Move(w, p, Unlocking(Threw))
    case SaveNew(p) =>
      var attempt := w.procs[p].attempt;
      Move(w, p, Sending(attempt)).(file := Some(attempt))
    case StatusFound(p, status, now) =>
      var attempt := w.procs[p].attempt;
      var recovered := attempt.(recovery := Some(Recovery(now, Delivery(attempt.messageId, status))));
      Move(w, p, SavingRecovered(recovered)).(confirmed := w.confirmed + {attempt.messageId})
    case StatusNotFound(p) =>
      var Querying(attempt, resendIfMissing) := w.procs[p];
      Move(w, p, if resendIfMissing then Sending(attempt) else Unlocking(Threw))
    case StatusUnknown(p) => Move(w, p, Unlocking(Threw))
    case SaveRecovered(p) =>
      var attempt := w.procs[p].attempt;
      Move(w, p, Unlocking(Returned(attempt.messageId))).(file := Some(attempt))
    case Post(p) =>
      var attempt := w.procs[p].attempt;
      Move(w, p, AwaitingReply(attempt)).(sent := w.sent + {Request(attempt.messageId, attempt.prepared)})
    case ReplyOk(p) =>
      var attempt := w.procs[p].attempt;
      Move(w, p, UnlinkingSent(attempt)).(confirmed := w.confirmed + {attempt.messageId})
    case ReplyRejected(p) => Move(w, p, Unlocking(Threw))
    case ReplyAmbiguous(p) => Move(w, p, Querying(w.procs[p].attempt, false))
    case UnlinkSent(p) => Move(w, p, Unlocking(Returned(w.procs[p].attempt.messageId))).(file := None)
    case Unlock(p) => Move(w, p, Finished(w.procs[p].outcome)).(lock := None)
    case FileError(p) => Move(w, p, AfterFileError(w.procs[p]))
    case Crash(p) => Move(w, p, Crashed)
    case RemoveDeadLock => w.(lock := None)
    case HubAccept(r, receiver) =>
      if HasRow(w.rows, r.id, receiver) then w
      else w.(rows := w.rows + [Row(r.id, receiver, r.payload)])
  }

  // ----- Runs -----

  /** Every action of the run is enabled where it happens. */
  predicate IsRun(w: World, run: seq<Action>)
    decreases |run|
  {
    run == [] || (Enabled(w, run[0]) && IsRun(Do(w, run[0]), run[1..]))
  }

  function After(w: World, run: seq<Action>): World
    requires IsRun(w, run)
    decreases |run|
  {
    if run == [] then w else After(Do(w, run[0]), run[1..])
  }

  lemma {:induction false} RunsCompose(w: World, first: seq<Action>, second: seq<Action>)
    requires IsRun(w, first) && IsRun(After(w, first), second)
    ensures IsRun(w, first + second)
    ensures After(w, first + second) == After(After(w, first), second)
    decreases |first|
  {
    if first == [] {
      assert first + second == second;
    } else {
      RunsCompose(Do(w, first[0]), first[1..], second);
      assert (first + second)[1..] == first[1..] + second;
    }
  }

  lemma {:induction false} RunsSplit(w: World, first: seq<Action>, second: seq<Action>)
    requires IsRun(w, first + second)
    ensures IsRun(w, first) && IsRun(After(w, first), second)
    decreases |first|
  {
    if first == [] {
      assert first + second == second;
    } else {
      assert (first + second)[1..] == first[1..] + second;
      RunsSplit(Do(w, first[0]), first[1..], second);
    }
  }

  // ----- The invariant -----

  /** What the disk and the Hub owe to a process standing at `proc`. */
  predicate ProcInv(w: World, proc: Proc) {
    match proc
    case UnlinkingStale => w.file.Some? && w.file.value.IsRecovered()
    case ChoosingId => w.file.None?
    case Preparing(id) => w.file.None? && IdInv(w, id)
    case SavingNew(attempt) => w.file.None? && IdInv(w, attempt.messageId) && attempt.recovery.None?
    case Querying(attempt, _) => w.file == Some(attempt) && !attempt.IsRecovered()
    case SavingRecovered(attempt) =>
      && w.file.Some? && w.file.value.messageId == attempt.messageId && w.file.value.prepared == attempt.prepared
      && attempt.messageId in w.confirmed
      && attempt.recovery.Some? && attempt.recovery.value.result.msgId == attempt.messageId
    case Sending(attempt) => w.file == Some(attempt) && !attempt.IsRecovered()
    case AwaitingReply(attempt) =>
      w.file == Some(attempt) && !attempt.IsRecovered() && Request(attempt.messageId, attempt.prepared) in w.sent
    case UnlinkingSent(attempt) =>
      w.file == Some(attempt) && !attempt.IsRecovered() && attempt.messageId in w.confirmed
    case Unlocking(outcome) => outcome.Returned? ==> outcome.id in w.confirmed
    case Finished(outcome) => outcome.Returned? ==> outcome.id in w.confirmed
    case _ => true
  }

  /** An id not yet on disk: the caller's id, or a random one that nothing was sent under. */
  predicate IdInv(w: World, id: MessageId) {
    && id in w.chosen
    && (w.explicitId.None? ==> forall r | r in w.sent :: r.id != id)
  }

  predicate DiskInv(w: World) {
    w.file.Some? ==>
      var attempt := w.file.value;
      && attempt.messageId in w.chosen
      && (attempt.IsRecovered() ==>
            && attempt.messageId in w.confirmed
            && attempt.recovery.value.result.msgId == attempt.messageId)
      && (w.explicitId.None? ==>
            forall r | r in w.sent && r.id == attempt.messageId :: r.payload == attempt.prepared)
  }

  /** A request not yet confirmed is the one the attempt file holds. */
  predicate SentInv(w: World) {
    forall r | r in w.sent ::
      && r.id in w.chosen
      && (r.id in w.confirmed || (w.file.Some? && r == Request(w.file.value.messageId, w.file.value.prepared)))
  }

  predicate HubInv(w: World) {
    && (forall id | id in w.confirmed :: Stored(w, id))
    && (forall i | 0 <= i < |w.rows| :: Request(w.rows[i].id, w.rows[i].payload) in w.sent)
    && (forall i, j | 0 <= i < j < |w.rows| ::
          w.rows[i].id != w.rows[j].id || w.rows[i].receiver != w.rows[j].receiver)
  }

  predicate LockInv(w: World) {
    && (w.lock.Some? ==>
          w.lock.value in w.procs && !w.procs[w.lock.value].Starting? && !w.procs[w.lock.value].Finished?)
    && (forall p | p in w.procs && w.procs[p].Critical() :: w.lock == Some(p))
  }

  /** Every request under one id carries the same payload. */
  predicate PayloadsAgree(w: World) {
    forall r, s | r in w.sent && s in w.sent && r.id == s.id :: r.payload == s.payload
  }

  ghost predicate Inv(w: World) {
    && LockInv(w) && DiskInv(w) && SentInv(w) && HubInv(w)
    && (w.explicitId.None? ==> PayloadsAgree(w))
    && (forall p | p in w.procs :: ProcInv(w, w.procs[p]))
  }

  /** Only these steps change who holds the lock. */
  predicate MovesLock(a: Action) {
    a.AcquireLock? || a.Unlock? || a.RemoveDeadLock?
  }

  lemma LockMoves(w: World, a: Action)
    requires LockInv(w) && Enabled(w, a) && MovesLock(a)
    ensures LockInv(Do(w, a))
  {
  }

  lemma LockStays(w: World, a: Action)
    requires LockInv(w) && Enabled(w, a) && !MovesLock(a)
    ensures LockInv(Do(w, a))
  {
    var after := Do(w, a);
    assert after.lock == w.lock;
    forall q | q in after.procs && after.procs[q].Critical() ensures after.lock == Some(q) {
      if a.Actor() != Some(q) {
        OthersStay(w, a, q);
      }
    }
  }

  lemma LockStep(w: World, a: Action)
    requires LockInv(w) && Enabled(w, a)
    ensures LockInv(Do(w, a))
  {
    if MovesLock(a) {
      LockMoves(w, a);
    } else {
      LockStays(w, a);
    }
  }

  lemma HubStep(w: World, a: Action)
    requires HubInv(w) && Enabled(w, a)
    ensures HubInv(Do(w, a))
  {
    var after := Do(w, a);
    forall id | Stored(w, id) ensures Stored(after, id) {
      var i :| 0 <= i < |w.rows| && w.rows[i].id == id;
      assert after.rows[i] == w.rows[i];
    }
  }

  lemma DiskStep(w: World, a: Action)
    requires Inv(w) && Enabled(w, a)
    ensures DiskInv(Do(w, a)) && SentInv(Do(w, a))
  {
    if a.WritesFile() {
      FileStep(w, a);
    } else {
      WireStep(w, a);
    }
  }

  lemma FileStep(w: World, a: Action)
    requires Inv(w) && Enabled(w, a) && a.WritesFile()
    ensures DiskInv(Do(w, a)) && SentInv(Do(w, a))
  {
  }

  lemma WireStep(w: World, a: Action)
    requires Inv(w) && Enabled(w, a) && !a.WritesFile()
    ensures DiskInv(Do(w, a)) && SentInv(Do(w, a))
  {
  }

  lemma AgreeStep(w: World, a: Action)
    requires Inv(w) && Enabled(w, a)
    ensures w.explicitId.None? ==> PayloadsAgree(Do(w, a))
  {
  }

  lemma ActorStep(w: World, a: Action)
    requires Inv(w) && Enabled(w, a) && a.Actor().Some?
    ensures ProcInv(Do(w, a), Do(w, a).procs[a.p])
  {
    if a.WritesFile() {
      ActorWrites(w, a);
    } else {
      ActorTalks(w, a);
    }
  }

  lemma ActorWrites(w: World, a: Action)
    requires Inv(w) && Enabled(w, a) && a.WritesFile()
    ensures ProcInv(Do(w, a), Do(w, a).procs[a.p])
  {
  }

  lemma ActorTalks(w: World, a: Action)
    requires Inv(w) && Enabled(w, a) && a.Actor().Some? && !a.WritesFile()
    ensures ProcInv(Do(w, a), Do(w, a).procs[a.p])
  {
  }

  /** Who writes the attempt file holds the lock, so the others owe nothing to the file. */
  lemma OthersWrite(w: World, a: Action, q: Pid)
    requires Inv(w) && Enabled(w, a) && q in w.procs && a.Actor() != Some(q)
    requires a.WritesFile()
    ensures ProcInv(Do(w, a), w.procs[q])
  {
    assert w.procs[a.p].Critical() && w.lock == Some(a.p);
    assert !w.procs[q].Critical();
  }

  /** Nobody sends or confirms while another process holds the lock. */
  lemma OthersTalk(w: World, a: Action, q: Pid)
    requires Inv(w) && Enabled(w, a) && q in w.procs && a.Actor() != Some(q)
    requires !a.WritesFile()
    ensures ProcInv(Do(w, a), w.procs[q])
  {
    var after := Do(w, a);
    assert after.file == w.file && after.explicitId == w.explicitId;
    assert w.chosen <= after.chosen && w.confirmed <= after.confirmed && w.sent <= after.sent;
    if a.Post? {
      assert w.procs[a.p].Critical() && !w.procs[q].Critical();
    } else {
      assert after.sent == w.sent;
    }
  }

  lemma OthersStep(w: World, a: Action, q: Pid)
    requires Inv(w) && Enabled(w, a) && q in w.procs && a.Actor() != Some(q)
    ensures ProcInv(Do(w, a), w.procs[q])
  {
    if a.WritesFile() {
      OthersWrite(w, a, q);
    } else {
      OthersTalk(w, a, q);
    }
  }

  lemma OthersStay(w: World, a: Action, q: Pid)
    requires Enabled(w, a) && q in Do(w, a).procs && a.Actor() != Some(q)
    ensures q in w.procs && Do(w, a).procs[q] == w.procs[q]
  {
  }

  lemma ProcsStep(w: World, a: Action, q: Pid)
    requires Inv(w) && Enabled(w, a) && q in Do(w, a).procs
    ensures ProcInv(Do(w, a), Do(w, a).procs[q])
  {
    if a.Actor() == Some(q) {
      ActorStep(w, a);
    } else {
      OthersStay(w, a, q);
      OthersStep(w, a, q);
    }
  }

  /** Every step keeps the invariant. */
  lemma InvStep(w: World, a: Action)
    requires Inv(w) && Enabled(w, a)
    ensures Inv(Do(w, a)) && Do(w, a).explicitId == w.explicitId
  {
    LockStep(w, a);
    HubStep(w, a);
    DiskStep(w, a);
    AgreeStep(w, a);
    forall q | q in Do(w, a).procs ensures ProcInv(Do(w, a), Do(w, a).procs[q]) {
      ProcsStep(w, a, q);
    }
  }

  lemma {:induction false} RunKeepsInv(w: World, run: seq<Action>)
    requires Inv(w) && IsRun(w, run)
    ensures Inv(After(w, run)) && After(w, run).explicitId == w.explicitId
    decreases |run|
  {
    if run != [] {
      InvStep(w, run[0]);
      RunKeepsInv(Do(w, run[0]), run[1..]);
    }
  }

  /** Worlds that some run of any number of processes leads to. */
  ghost predicate Reachable(w: World) {
    exists run :: IsRun(Init(w.explicitId), run) && After(Init(w.explicitId), run) == w
  }

  lemma ReachableInv(w: World)
    requires Reachable(w)
    ensures Inv(w)
  {
    var run :| IsRun(Init(w.explicitId), run) && After(Init(w.explicitId), run) == w;
    RunKeepsInv(Init(w.explicitId), run);
  }

  // ----- What every run guarantees -----

  /** At most one live process is between taking the lock and releasing it. */
  lemma MutualExclusion(w: World, p: Pid, q: Pid)
    requires Reachable(w) && p in w.procs && q in w.procs
    requires w.procs[p].Critical() && w.procs[q].Critical()
    ensures p == q
  {
    ReachableInv(w);
  }

  /** Nobody else touches the attempt file, the lock or the wire meanwhile. */
  lemma LockHolderIsAlone(w: World, p: Pid, a: Action)
    requires Reachable(w) && p in w.procs && w.procs[p].Critical()
    requires Enabled(w, a) && a.Actor() != Some(p)
    ensures Do(w, a).file == w.file && Do(w, a).lock == w.lock && Do(w, a).sent == w.sent
    ensures Do(w, a).procs[p] == w.procs[p]
  {
    ReachableInv(w);
  }

  /** A fresh id is chosen only when the Hub has confirmed every id sent before. */
  lemma NewIdOnlyWhenAllConfirmed(w: World, a: Action)
    requires Reachable(w) && Enabled(w, a) && a.ChooseId?
    ensures forall r | r in w.sent :: r.id in w.confirmed && Stored(w, r.id)
    ensures w.explicitId.None? ==> forall r | r in w.sent :: r.id != Do(w, a).procs[a.p].id
  {
    ReachableInv(w);
    InvStep(w, a);
  }

  /** All unconfirmed requests are one request, and the attempt file holds it. */
  lemma AtMostOneUnresolved(w: World, r: Request, s: Request)
    requires Reachable(w) && r in w.sent && s in w.sent
    requires r.id !in w.confirmed && s.id !in w.confirmed
    ensures r == s
    ensures w.file.Some? && w.file.value.messageId == r.id && w.file.value.prepared == r.payload
  {
    ReachableInv(w);
  }

  /** The attempt is on disk, with the same id and payload, before any POST of it. */
  lemma DurableBeforeSend(w: World, a: Action)
    requires Reachable(w) && Enabled(w, a) && a.Post?
    ensures w.file.Some?
    ensures Do(w, a).sent == w.sent + {Request(w.file.value.messageId, w.file.value.prepared)}
    ensures w.file.value.messageId in w.chosen
  {
    ReachableInv(w);
  }

  /** A fresh, recovered or cached result names a message the Hub holds. */
  lemma ReturnsAreStored(w: World, p: Pid)
    requires Reachable(w) && p in w.procs
    requires w.procs[p].Unlocking? || w.procs[p].Finished?
    requires w.procs[p].outcome.Returned?
    ensures w.procs[p].outcome.id in w.confirmed && Stored(w, w.procs[p].outcome.id)
  {
    ReachableInv(w);
    assert ProcInv(w, w.procs[p]);
  }

  /** However often an id is resent, a receiver gets it once; random ids fix the content too. */
  lemma OneCopyPerReceiver(w: World, i: nat, j: nat)
    requires Reachable(w) && i < |w.rows| && j < |w.rows| && w.rows[i].id == w.rows[j].id
    ensures w.rows[i].receiver == w.rows[j].receiver ==> i == j
    ensures w.explicitId.None? ==> w.rows[i].payload == w.rows[j].payload
    ensures exists r | r in w.sent :: r.id == w.rows[i].id && r.payload == w.rows[i].payload
  {
    ReachableInv(w);
    assert Request(w.rows[i].id, w.rows[i].payload) in w.sent;
    assert Request(w.rows[j].id, w.rows[j].payload) in w.sent;
  }

  // ----- One invocation sends at most once and always ends -----

  /** How far a process has come; every action of its own takes it further. */
  function Progress(proc: Proc): nat {
    match proc
    case Starting => 0
    case ReadingFile => 1
    case UnlinkingStale => 2
    case ChoosingId => 3
    case Preparing(_) => 4
    case SavingNew(_) => 5
    case Querying(_, resendIfMissing) => if resendIfMissing then 6 else 10
    case Sending(_) => 7
    case AwaitingReply(_) => 8
    case UnlinkingSent(_) => 9
    case SavingRecovered(_) => 11
    case Unlocking(_) => 12
    case Finished(_) => 13
    case Crashed => 13
  }

  /** How many actions of a run satisfy a test. */
  function Count(run: seq<Action>, test: Action -> bool): nat {
    if run == [] then 0 else (if test(run[0]) then 1 else 0) + Count(run[1..], test)
  }

  function MostSteps(w: World, p: Pid): nat
    ensures MostSteps(w, p) <= 14
  {
    if p in w.procs then 13 - Progress(w.procs[p]) else 14
  }

  function MostPosts(w: World, p: Pid): nat {
    if p in w.procs && Progress(w.procs[p]) > 7 then 0 else 1
  }

  lemma ActorProgresses(w: World, a: Action, p: Pid)
    requires Enabled(w, a)
    ensures a.Actor() == Some(p) ==> MostSteps(Do(w, a), p) < MostSteps(w, p)
    ensures a.Actor() != Some(p) ==> MostSteps(Do(w, a), p) == MostSteps(w, p)
    ensures MostPosts(Do(w, a), p) + (if a == Post(p) then 1 else 0) <= MostPosts(w, p)
  {
    if a.Actor() != Some(p) && p in Do(w, a).procs {
      OthersStay(w, a, p);
    }
  }

  /** In every run an invocation takes at most 14 steps, and at most one of them is a POST. */
  lemma {:induction false} InvocationIsBounded(w: World, run: seq<Action>, p: Pid)
    requires IsRun(w, run)
    ensures Count(run, (a: Action) => a.Actor() == Some(p)) <= MostSteps(w, p)
    ensures Count(run, (a: Action) => a == Post(p)) <= MostPosts(w, p)
    decreases |run|
  {
    if run != [] {
      ActorProgresses(w, run[0], p);
      InvocationIsBounded(Do(w, run[0]), run[1..], p);
    }
  }

  /**
   * Reading the file ends an invocation exactly if it holds a recovery less than 15 minutes old;
   * then the invocation will not send, and its result is a message the Hub holds.
   */
  lemma CachedExactlyWithinWindow(w: World, p: Pid, now: nat)
    requires Reachable(w) && Enabled(w, ReadFile(p, now))
    ensures var next := Do(w, ReadFile(p, now));
            && (next.procs[p].Unlocking?
                <==> w.file.Some? && w.file.value.IsRecovered()
                      && now < w.file.value.recovery.value.recoveredAt + 900_000)
            && (next.procs[p].Unlocking? ==>
                  && next.procs[p].outcome == Returned(w.file.value.messageId)
                  && MostPosts(next, p) == 0 && Stored(w, w.file.value.messageId))
  {
    ReachableInv(w);
  }

  predicate HasThrown(w: World, p: Pid) {
    p in w.procs && (w.procs[p] == Unlocking(Threw) || w.procs[p] == Finished(Threw))
  }

  /** An invocation that has sent its request and not yet heard of it. */
  predicate HasPosted(w: World, p: Pid) {
    p in w.procs
    && (w.procs[p].AwaitingReply? || w.procs[p].UnlinkingSent? || (w.procs[p].Querying? && !w.procs[p].resendIfMissing))
  }

  /**
   * Step i of the run explains why p throws: a failure, or a 404 for a request that p had sent in
   * this invocation.  A 404 before its first POST is no reason to throw.
   */
  predicate Explains(run: seq<Action>, i: nat, p: Pid, posted: bool) {
    && i < |run| && run[i].Actor() == Some(p)
    && (run[i].IsFailure() || (run[i].StatusNotFound? && (posted || Post(p) in run[..i])))
  }

  lemma {:induction false} ThrowsFrom(w: World, run: seq<Action>, p: Pid, posted: bool) returns (i: nat)
    requires IsRun(w, run) && !HasThrown(w, p) && HasThrown(After(w, run), p) && (HasPosted(w, p) ==> posted)
    ensures Explains(run, i, p, posted)
    decreases |run|
  {
    assert run != [];
    var next := Do(w, run[0]);
    if HasThrown(next, p) {
      ThrowingStep(w, run[0], p);
      i := 0;
    } else {
      if HasPosted(next, p) {
        PostingStep(w, run[0], p);
      }
      var later := ThrowsFrom(next, run[1..], p, posted || run[0] == Post(p));
      i := later + 1;
      assert run[..i] == [run[0]] + run[1..][..later];
    }
  }

  lemma ThrowingStep(w: World, a: Action, p: Pid)
    requires Enabled(w, a) && !HasThrown(w, p) && HasThrown(Do(w, a), p)
    ensures a.Actor() == Some(p) && (a.IsFailure() || (a.StatusNotFound? && HasPosted(w, p)))
  {
  }

  lemma PostingStep(w: World, a: Action, p: Pid)
    requires Enabled(w, a) && HasPosted(Do(w, a), p)
    ensures HasPosted(w, p) || a == Post(p)
  {
    if a.Actor() != Some(p) {
      OthersStay(w, a, p);
    }
  }

  /** An invocation throws only after something it met has failed, or a 404 for what it has itself sent. */
  lemma ThrowsOnlyOnFailure(w: World, run: seq<Action>, p: Pid)
    requires IsRun(w, run) && p !in w.procs && HasThrown(After(w, run), p)
    ensures exists i :: Explains(run, i, p, false)
  {
    var i := ThrowsFrom(w, run, p, false);
  }

  // ----- What an invocation can bring about -----

  lemma {:induction false} Extend(w: World, run: seq<Action>, a: Action)
    requires IsRun(w, run) && Enabled(After(w, run), a)
    ensures IsRun(w, run + [a]) && After(w, run + [a]) == Do(After(w, run), a)
  {
    RunsCompose(w, run, [a]);
  }

  lemma {:induction false} PostedInRun(w: World, run: seq<Action>, p: Pid)
    requires IsRun(w, run) && HasPosted(After(w, run), p)
    ensures HasPosted(w, p) || Post(p) in run
    decreases |run|
  {
    if run != [] {
      PostedInRun(Do(w, run[0]), run[1..], p);
      if HasPosted(Do(w, run[0]), p) {
        PostingStep(w, run[0], p);
      }
    }
  }

  /** The rows after the Hub has taken a request for a receiver. */
  function Taken(rows: seq<Row>, r: Request, receiver: Receiver): seq<Row> {
    if HasRow(rows, r.id, receiver) then rows else rows + [Row(r.id, receiver, r.payload)]
  }

  /**
   * Wherever a run has led an invocation that looks for a saved attempt and has sent nothing yet, it
   * can still send exactly what the file holds and return its id; then lock and file are gone.
   */
  lemma SavedAttemptCanBeResent(explicitId: Option<MessageId>, past: seq<Action>, p: Pid, receiver: Receiver)
    returns (run: seq<Action>)
    requires IsRun(Init(explicitId), past) && Post(p) !in past
    requires var w := After(Init(explicitId), past); p in w.procs && w.procs[p].Querying?
    ensures var w := After(Init(explicitId), past);
            && w.file.Some? && IsRun(w, run)
            && var request := Request(w.file.value.messageId, w.file.value.prepared);
            After(w, run)
            == w.(lock := None, file := None, procs := w.procs[p := Finished(Returned(request.id))],
                  sent := w.sent + {request}, confirmed := w.confirmed + {request.id},
                  rows := Taken(w.rows, request, receiver))
  {
    var w := After(Init(explicitId), past);
    RunKeepsInv(Init(explicitId), past);
    assert ProcInv(w, w.procs[p]);
    if HasPosted(w, p) {
      PostedInRun(Init(explicitId), past, p);
    }
    run := ResendFrom(w, p, receiver);
  }

  /** From a 404 for a saved attempt on. */
  lemma ResendFrom(w: World, p: Pid, receiver: Receiver) returns (run: seq<Action>)
    requires p in w.procs && w.procs[p].Querying? && w.procs[p].resendIfMissing
    ensures IsRun(w, run)
    ensures var request := Request(w.procs[p].attempt.messageId, w.procs[p].attempt.prepared);
            After(w, run)
            == w.(lock := None, file := None, procs := w.procs[p := Finished(Returned(request.id))],
                  sent := w.sent + {request}, confirmed := w.confirmed + {request.id},
                  rows := Taken(w.rows, request, receiver))
  {
    run := [];
    Extend(w, run, StatusNotFound(p)); run := run + [StatusNotFound(p)];
    Extend(w, run, Post(p)); run := run + [Post(p)];
    var rest := CompleteDelivery(After(w, run), p, receiver);
    RunsCompose(w, run, rest);
    run := run + rest;
  }

  /** From its POST on: the Hub takes the request and says so. */
  lemma CompleteDelivery(w: World, p: Pid, receiver: Receiver) returns (run: seq<Action>)
    requires p in w.procs && w.procs[p].AwaitingReply?
    requires Request(w.procs[p].attempt.messageId, w.procs[p].attempt.prepared) in w.sent
    ensures IsRun(w, run)
    ensures var request := Request(w.procs[p].attempt.messageId, w.procs[p].attempt.prepared);
            After(w, run)
            == w.(lock := None, file := None, procs := w.procs[p := Finished(Returned(request.id))],
                  confirmed := w.confirmed + {request.id}, rows := Taken(w.rows, request, receiver))
  {
    var request := Request(w.procs[p].attempt.messageId, w.procs[p].attempt.prepared);
    run := [];
    Extend(w, run, HubAccept(request, receiver)); run := run + [HubAccept(request, receiver)];
    TakenIsStored(w.rows, request, receiver);
    Extend(w, run, ReplyOk(p)); run := run + [ReplyOk(p)];
    Extend(w, run, UnlinkSent(p)); run := run + [UnlinkSent(p)];
    Extend(w, run, Unlock(p)); run := run + [Unlock(p)];
  }

  lemma TakenIsStored(rows: seq<Row>, r: Request, receiver: Receiver)
    ensures exists i | 0 <= i < |Taken(rows, r, receiver)| :: Taken(rows, r, receiver)[i].id == r.id
  {
    if HasRow(rows, r.id, receiver) {
      var i :| 0 <= i < |rows| && rows[i].id == r.id && rows[i].receiver == receiver;
      assert Taken(rows, r, receiver)[i].id == r.id;
    } else {
      assert Taken(rows, r, receiver)[|rows|].id == r.id;
    }
  }

  /** A message that the Hub already holds is found: nothing is sent, and the recovery is saved with its time. */
  lemma StoredMessageCanBeFound(w: World, p: Pid, status: string, now: nat) returns (run: seq<Action>)
    requires Reachable(w) && p in w.procs && w.procs[p].Querying? && w.file.Some? && Stored(w, w.file.value.messageId)
    ensures IsRun(w, run)
    ensures var id, prepared := w.file.value.messageId, w.file.value.prepared;
            After(w, run)
            == w.(lock := None, file := Some(Attempt(id, prepared, Some(Recovery(now, Delivery(id, status))))),
                  procs := w.procs[p := Finished(Returned(id))], confirmed := w.confirmed + {id})
  {
    ReachableInv(w);
    assert ProcInv(w, w.procs[p]);
    run := RecoverFrom(w, p, status, now);
  }

  /** From a status that was found on. */
  lemma RecoverFrom(w: World, p: Pid, status: string, now: nat) returns (run: seq<Action>)
    requires p in w.procs && w.procs[p].Querying? && Stored(w, w.procs[p].attempt.messageId)
    ensures IsRun(w, run) && Post(p) !in run
    ensures var attempt := w.procs[p].attempt;
            var id := attempt.messageId;
            After(w, run)
            == w.(lock := None, file := Some(attempt.(recovery := Some(Recovery(now, Delivery(id, status))))),
                  procs := w.procs[p := Finished(Returned(id))], confirmed := w.confirmed + {id})
  {
    run := [];
    Extend(w, run, StatusFound(p, status, now)); run := run + [StatusFound(p, status, now)];
    Extend(w, run, SaveRecovered(p)); run := run + [SaveRecovered(p)];
    Extend(w, run, Unlock(p)); run := run + [Unlock(p)];
  }

  /** A lost reply is no loss: what the Hub holds is found under the same id, with no second POST. */
  lemma LostReplyCanBeRecovered(w: World, p: Pid, status: string, now: nat) returns (run: seq<Action>)
    requires Reachable(w) && p in w.procs && w.procs[p].AwaitingReply? && w.file.Some?
    requires Stored(w, w.file.value.messageId)
    ensures IsRun(w, run) && Post(p) !in run
    ensures After(w, run).sent == w.sent && After(w, run).lock == None
    ensures p in After(w, run).procs && After(w, run).procs[p] == Finished(Returned(w.file.value.messageId))
  {
    ReachableInv(w);
    assert ProcInv(w, w.procs[p]);
    run := [];
    Extend(w, run, ReplyAmbiguous(p)); run := run + [ReplyAmbiguous(p)];
    var rest := RecoverFrom(After(w, run), p, status, now);
    RunsCompose(w, run, rest);
    run := run + rest;
  }

  /**
   * With the lock free and no attempt on file, or a recovery older than 15 minutes, a new invocation can
   * send its payload under its id and return it; then lock and file are gone.
   */
  lemma NewMessageCanBeSent(w: World, p: Pid, random: MessageId, payload: Payload, receiver: Receiver, now: nat)
    returns (run: seq<Action>)
    requires w.lock.None? && p !in w.procs && random !in w.chosen
    requires w.file.Some? ==>
               w.file.value.IsRecovered() && now >= w.file.value.recovery.value.recoveredAt + 15 * 60 * 1000
    ensures IsRun(w, run)
    ensures var request := Request(if w.explicitId.Some? then w.explicitId.value else random, payload);
            After(w, run)
            == w.(file := None, procs := w.procs[p := Finished(Returned(request.id))],
                  sent := w.sent + {request}, chosen := w.chosen + {request.id},
                  confirmed := w.confirmed + {request.id}, rows := Taken(w.rows, request, receiver))
  {
    run := StartSending(w, p, random, payload, now);
    var rest := CompleteDelivery(After(w, run), p, receiver);
    RunsCompose(w, run, rest);
    run := run + rest;
  }

  /** The same up to the choice of an id. */
  lemma StartChoosing(w: World, p: Pid, now: nat) returns (run: seq<Action>)
    requires w.lock.None? && p !in w.procs
    requires w.file.Some? ==>
               w.file.value.IsRecovered() && now >= w.file.value.recovery.value.recoveredAt + 15 * 60 * 1000
    ensures IsRun(w, run)
    ensures After(w, run) == w.(lock := Some(p), file := None, procs := w.procs[p := ChoosingId])
  {
    run := [];
    Extend(w, run, Arrive(p)); run := run + [Arrive(p)];
    Extend(w, run, AcquireLock(p)); run := run + [AcquireLock(p)];
    Extend(w, run, ReadFile(p, now)); run := run + [ReadFile(p, now)];
    if w.file.Some? {
      Extend(w, run, UnlinkStale(p)); run := run + [UnlinkStale(p)];
    }
  }

  /** The same up to its POST. */
  lemma StartSending(w: World, p: Pid, random: MessageId, payload: Payload, now: nat) returns (run: seq<Action>)
    requires w.lock.None? && p !in w.procs && random !in w.chosen
    requires w.file.Some? ==>
               w.file.value.IsRecovered() && now >= w.file.value.recovery.value.recoveredAt + 15 * 60 * 1000
    ensures IsRun(w, run)
    ensures var id := if w.explicitId.Some? then w.explicitId.value else random;
            var attempt := Attempt(id, payload, None);
            After(w, run)
            == w.(lock := Some(p), file := Some(attempt), procs := w.procs[p := AwaitingReply(attempt)],
                  sent := w.sent + {Request(id, payload)}, chosen := w.chosen + {id})
  {
    run := StartChoosing(w, p, now);
    Extend(w, run, ChooseId(p, random)); run := run + [ChooseId(p, random)];
    Extend(w, run, Prepared(p, payload)); run := run + [Prepared(p, payload)];
    Extend(w, run, SaveNew(p)); run := run + [SaveNew(p)];
    Extend(w, run, Post(p)); run := run + [Post(p)];
  }

  /**
   * When the lock's holder has crashed with an attempt on file that is not recovered, a new invocation
   * can, once the dead lock is removed, send just this attempt and return its id.
   */
  lemma CrashedAttemptCanBeResent(explicitId: Option<MessageId>, past: seq<Action>, dead: Pid, p: Pid,
                                  receiver: Receiver, now: nat)
    returns (run: seq<Action>)
    requires IsRun(Init(explicitId), past) && p !in After(Init(explicitId), past).procs && p != dead
    requires var w := After(Init(explicitId), past);
             && w.lock == Some(dead) && dead in w.procs && w.procs[dead].Crashed?
             && w.file.Some? && !w.file.value.IsRecovered()
    ensures var w := After(Init(explicitId), past);
            var request := Request(w.file.value.messageId, w.file.value.prepared);
            && IsRun(w, run)
            && After(w, run)
               == w.(lock := None, file := None, procs := w.procs[p := Finished(Returned(request.id))],
                     sent := w.sent + {request}, confirmed := w.confirmed + {request.id},
                     rows := Taken(w.rows, request, receiver))
  {
    var w := After(Init(explicitId), past);
    run := [];
    Extend(w, run, RemoveDeadLock); run := run + [RemoveDeadLock];
    Extend(w, run, Arrive(p)); run := run + [Arrive(p)];
    Extend(w, run, AcquireLock(p)); run := run + [AcquireLock(p)];
    Extend(w, run, ReadFile(p, now)); run := run + [ReadFile(p, now)];
    var rest := ResendFrom(After(w, run), p, receiver);
    RunsCompose(w, run, rest);
    run := run + rest;
  }

  // ----- One id, one payload: exactly when the caller leaves the id to the program -----

  /** Repeating an explicit id after its delivery sends new content under the old id. */
  lemma ExplicitIdCarriesTwoPayloads(id: MessageId) returns (run: seq<Action>)
    ensures IsRun(Init(Some(id)), run)
    ensures !PayloadsAgree(After(Init(Some(id)), run))
  {
    var w := Init(Some(id));
    run := NewMessageCanBeSent(w, 0, 0, 1, 7, 0);
    var rest := NewMessageCanBeSent(After(w, run), 1, id + 1, 2, 7, 0);
    RunsCompose(w, run, rest);
    run := run + rest;
    assert Request(id, 1) in After(w, run).sent && Request(id, 2) in After(w, run).sent;
  }

  /** No run ever sends two payloads under one id exactly when no explicit id was given. */
  lemma PayloadsAgreeExactlyWithoutExplicitId(explicitId: Option<MessageId>)
    ensures (forall run | IsRun(Init(explicitId), run) :: PayloadsAgree(After(Init(explicitId), run)))
            <==> explicitId.None?
  {
    if explicitId.None? {
      forall run | IsRun(Init(explicitId), run) ensures PayloadsAgree(After(Init(explicitId), run)) {
        RunKeepsInv(Init(explicitId), run);
      }
    } else {
      var run := ExplicitIdCarriesTwoPayloads(explicitId.value);
      assert IsRun(Init(explicitId), run);
    }
  }

  /** Even then the second payload waits until the first was confirmed. */
  lemma SecondPayloadOnlyAfterConfirmation(w: World, r: Request, s: Request)
    requires Reachable(w) && r in w.sent && s in w.sent && r.id == s.id && r.payload != s.payload
    ensures r.id in w.confirmed && Stored(w, r.id)
  {
    ReachableInv(w);
  }
}
