/**
 * Expiry workers beside the rest of the hub: every interleaving of the transactions of
 * backend/hub/expiry.py with those that send, poll, acknowledge, renew, recall, settle, receipt
 * or give up a message.
 *
 * A worker loads its batch first and commits one record at a time.  The handlers that load a
 * record without a lock and write it later are two steps, `Load` and `Finish`; the ORM writes a
 * state only if it differs from the loaded one.  What is one UPDATE, or reads under a row lock,
 * is one step.
 */
module ExpiryRuns {
  import opened Wrappers
  import opened Expiry

  /** What a handler does to the record it has loaded. */
  datatype Effect =
    | Ack                          // POST /inbox/ack, and the inbox of the dashboard
    | GiveUp                       // a cloud agent cancels the message
    | AckReceipt                   // POST /hub/receipt, for a record in any state
    | ResultReceipt
    | ErrorReceipt(code: Error)
  {
    function Target(): State {
      match this
      case Ack => Delivered
      case GiveUp => Failed
      case AckReceipt => Acked
      case ResultReceipt => Done
      case ErrorReceipt(_) => Failed
    }

    predicate IsReceipt() {
      AckReceipt? || ResultReceipt? || ErrorReceipt?
    }

    /** The WHERE of the handler's query. */
    predicate Loads(state: State) {
      IsReceipt() || state.Queued? || state.Processing?
    }

    function Kind(): string {
      if AckReceipt? then "ack" else if ResultReceipt? then "result" else "error"
    }
  }

  /** A handler between its query and its commit. */
  datatype Pending = Pending(i: nat, loaded: State, effect: Effect) {
    predicate Writes(state: State) {
      effect.Target() == state && loaded != state
    }
  }

  datatype World = World(
    records: seq<Record>,
    batches: seq<seq<nat>>,     // what each worker has loaded and not yet committed
    pending: seq<Pending>,
    now: Time)

  datatype Step =
    | Tick(to: Time)
    | Send(record: Record)
    | Poll(i: nat, ack: bool)                  // GET /inbox, under row locks
    | Renew(i: nat)                            // POST /inbox/lease/renew
    | Recall(i: nat)
    | Settle(i: nat)                           // POST /hub/stream-end
    | Load(i: nat, effect: Effect)
    | Finish(k: nat, id: MsgId, ttl: int)      // `id` and `ttl` of the receipt's own record
    | Drop(k: nat)                             // an error, or a receipt stored before
    | ReclaimAll
    | Select(worker: nat, selected: seq<nat>)
    | Commit(worker: nat, uuid: MsgId)
    | Abort(worker: nat)                       // a crash, or an error after a commit

  function Init(workers: nat, now: Time): World {
    World([], seq(workers, _ => []), [], now)
  }

  /** A message as a sender stores it: never a TTL notice, which only the worker writes. */
  predicate Fresh(r: Record) {
    && !r.state.Processing? && !r.state.Failed? && r.lastError.NoError? && r.nextRetryAt.None? && !r.recalled
    && r.ttlFailures == 0
    && (r.envelope.Object? ==> r.envelope.ttlNoticeFor.None?)
  }

  ghost predicate Enabled(w: World, s: Step) {
    match s
    case Tick(to) => w.now <= to
    case Send(record) => Fresh(record)
    case Poll(i, _) => i < |w.records| && w.records[i].state.Queued? && !w.records[i].recalled
    case Renew(i) => i < |w.records| && w.records[i].state.Processing?
    case Recall(i) => i < |w.records|
    case Settle(i) => i < |w.records| && !w.records[i].state.Done? && !w.records[i].state.Failed?
    case Load(i, effect) => i < |w.records| && effect.Loads(w.records[i].state)
    case Finish(k, _, _) => k < |w.pending| && w.pending[k].i < |w.records|
    case Drop(k) => k < |w.pending|
    case ReclaimAll => true
    case Select(worker, selected) =>
      worker < |w.batches| && w.batches[worker] == [] && IsSelection(w.records, w.now, selected)
    case Commit(worker, _) =>
      worker < |w.batches| && w.batches[worker] != [] && w.batches[worker][0] < |w.records|
    case Abort(worker) => worker < |w.batches|
  }

  function Edit(w: World, i: nat, r: Record): World
    requires i < |w.records|
  {
    w.(records := w.records[i := r])
  }

  /** The record after a handler's commit. */
  function Applied(r: Record, p: Pending): Record {
    var state := if p.Writes(p.effect.Target()) then p.effect.Target() else r.state;
    match p.effect
    case Ack => r.(state := state, nextRetryAt := None)
    case GiveUp => r.(state := state, lastError := OtherError)
    case ErrorReceipt(code) => r.(state := state, lastError := code)
    case _ => r.(state := state)
  }

  /** A queued receipt. */
  function Receipt(kind: string, id: MsgId, from: AgentId, to: AgentId, ttl: int, now: Time): Record {
    Record(id, from, to, Queued, Object(kind, None), ttl, now, None, false, NoError, 0)
  }

  /** A receipt on its way to the sender. */
  function ReceiptFor(r: Record, effect: Effect, id: MsgId, ttl: int, now: Time): Record {
    Receipt(effect.Kind(), id, r.receiver, r.sender, ttl, now)
  }

  /** Handler k is done. */
  function Without(pending: seq<Pending>, k: nat): seq<Pending>
    requires k < |pending|
  {
    pending[..k] + pending[k + 1..]
  }

  function Finished(w: World, k: nat, id: MsgId, ttl: int): World
    requires k < |w.pending| && w.pending[k].i < |w.records|
  {
    var p := w.pending[k];
    var r := w.records[p.i];
    var receipts := if p.effect.IsReceipt() then [ReceiptFor(r, p.effect, id, ttl, w.now)] else [];
    w.(records := w.records[p.i := Applied(r, p)] + receipts, pending := Without(w.pending, k))
  }

  ghost function Next(w: World, s: Step): World
    requires Enabled(w, s)
  {
    match s
    case Tick(to) => w.(now := to)
    case Send(record) => w.(records := w.records + [record.(createdAt := w.now)])
    case Poll(i, ack) =>
      if ack then Edit(w, i, w.records[i].(state := Delivered, nextRetryAt := None))
      else Edit(w, i, w.records[i].(state := Processing, nextRetryAt := Some(w.now + LEASE_SECONDS)))
    case Renew(i) => Edit(w, i, w.records[i].(nextRetryAt := Some(w.now + LEASE_SECONDS)))
    case Recall(i) => Edit(w, i, w.records[i].(recalled := true))
    case Settle(i) => Edit(w, i, w.records[i].(state := Done, nextRetryAt := None))
    case Load(i, effect) => w.(pending := w.pending + [Pending(i, w.records[i].state, effect)])
    case Finish(k, id, ttl) => Finished(w, k, id, ttl)
    case Drop(k) => w.(pending := Without(w.pending, k))
    case ReclaimAll => w.(records := Reclaim(w.records, w.now))
    case Select(worker, selected) => w.(batches := w.batches[worker := selected])
    case Commit(worker, uuid) =>
      var i := w.batches[worker][0];
      if Raises(w.records[i]) then w.(batches := w.batches[worker := []])
      else w.(records := FailOne(w.records, i, w.now, uuid), batches := w.batches[worker := w.batches[worker][1..]])
    case Abort(worker) => w.(batches := w.batches[worker := []])
  }

  /** The record this step fails for its TTL. */
  ghost predicate Expires(w: World, s: Step, i: nat) {
    s.Commit? && s.worker < |w.batches| && w.batches[s.worker] != [] && w.batches[s.worker][0] == i
    && i < |w.records| && !Raises(w.records[i])
  }

  /** The step in which a handler commits another state of record i than it loaded and than `keep`. */
  predicate Replaces(w: World, s: Step, i: nat, keep: State) {
    s.Finish? && s.k < |w.pending| && w.pending[s.k].i == i
    && var p := w.pending[s.k]; p.effect.Target() != keep && p.Writes(p.effect.Target())
  }

  // ----- Single steps -----

  /** A failed message stays failed exactly unless a handler overwrites it. */
  lemma FailedLostExactlyByHandler(w: World, s: Step, i: nat)
    requires Enabled(w, s) && i < |w.records| && w.records[i].state.Failed?
    ensures i < |Next(w, s).records|
    ensures !Next(w, s).records[i].state.Failed? <==> Replaces(w, s, i, Failed)
  {
  }

  /** A delivered one exactly until a worker commits an older copy, a handler overwrites it or its turn is settled. */
  lemma DeliveredLostExactly(w: World, s: Step, i: nat)
    requires Enabled(w, s) && i < |w.records| && w.records[i].state.Delivered?
    ensures i < |Next(w, s).records|
    ensures !Next(w, s).records[i].state.Delivered?
            <==> Expires(w, s, i) || Replaces(w, s, i, Delivered) || s == Settle(i)
  {
  }

  /** A lease ends only by the holder, by giving the message up, or after its deadline. */
  lemma NoLeaseReclaimedEarly(w: World, s: Step, i: nat)
    requires Enabled(w, s) && i < |w.records| && w.records[i].state.Processing?
    requires Next(w, s).records[i].state.Queued?
    ensures s.ReclaimAll? && w.records[i].nextRetryAt.Some? && w.records[i].nextRetryAt.value <= w.now
  {
  }

  /** What the commit of handler k stores, if its record is still in the state that it loaded. */
  lemma HandlerExactly(w: World, k: nat, id: MsgId, ttl: int)
    requires k < |w.pending| && w.pending[k].i < |w.records|
    requires w.records[w.pending[k].i].state == w.pending[k].loaded
    ensures var p := w.pending[k];
            var r, after := w.records[p.i], Next(w, Finish(k, id, ttl)).records;
            match p.effect
            case Ack => after == w.records[p.i := r.(state := Delivered, nextRetryAt := None)]
            case GiveUp => after == w.records[p.i := r.(state := Failed, lastError := OtherError)]
            case AckReceipt =>
              after == w.records[p.i := r.(state := Acked)] + [Receipt("ack", id, r.receiver, r.sender, ttl, w.now)]
            case ResultReceipt =>
              after == w.records[p.i := r.(state := Done)] + [Receipt("result", id, r.receiver, r.sender, ttl, w.now)]
            case ErrorReceipt(code) =>
              after == w.records[p.i := r.(state := Failed, lastError := code)]
                       + [Receipt("error", id, r.receiver, r.sender, ttl, w.now)]
  {
  }

  /** In one tick a message whose lease and TTL are both over is requeued and then expired. */
  lemma ReclaimedMessageExpiresInTheSameTick(records: seq<Record>, now: Time, i: nat)
    requires i < |records| && LeaseOver(records[i], now) && !records[i].recalled
    requires records[i].createdAt + records[i].ttl <= now
    ensures Expired(Reclaim(records, now)[i], now)
  {
  }

  // ----- One notice for each message that expired -----

  /** A worker has failed it for its TTL, whatever became of it since. */
  predicate TtlFailed(r: Record) {
    r.ttlFailures > 0
  }

  /** A notice to `to` about message `id`; both are any value when absent. */
  predicate NoticeAbout(r: Record, id: Option<MsgId>, to: Option<AgentId>) {
    && r.envelope.Object? && r.envelope.ttlNoticeFor.Some?
    && (id.Some? ==> r.envelope.ttlNoticeFor == id)
    && (to.Some? ==> r.receiver == to.value)
  }

  /** An expired message `id` of `from` that calls for a notice. */
  predicate Noticeable(r: Record, id: Option<MsgId>, from: Option<AgentId>) {
    && TtlFailed(r) && WantsNotice(r)
    && (id.Some? ==> r.msgId == id.value)
    && (from.Some? ==> r.sender == from.value)
  }

  function NoticeCount(records: seq<Record>, id: Option<MsgId>, to: Option<AgentId>): nat {
    Count(records, (r: Record) => NoticeAbout(r, id, to))
  }

  function ExpiryCount(records: seq<Record>, id: Option<MsgId>, from: Option<AgentId>): nat {
    Count(records, (r: Record) => Noticeable(r, id, from))
  }

  /** As many notices as noticeable expiries: in all, for each message, for each sender, for each pair. */
  ghost predicate Balanced(records: seq<Record>) {
    forall id: Option<MsgId>, agent: Option<AgentId> ::
      NoticeCount(records, id, agent) == ExpiryCount(records, id, agent)
  }

  lemma {:induction false} CountPointwise(a: seq<Record>, b: seq<Record>, test: Record -> bool)
    requires |a| == |b| && forall i | 0 <= i < |a| :: test(a[i]) == test(b[i])
    ensures Count(a, test) == Count(b, test)
  {
    if a != [] {
      CountPointwise(a[1..], b[1..], test);
    }
  }

  lemma {:induction false} CountMonotone(a: seq<Record>, fewer: Record -> bool, more: Record -> bool)
    requires forall i | 0 <= i < |a| && fewer(a[i]) :: more(a[i])
    ensures Count(a, fewer) <= Count(a, more)
  {
    if a != [] {
      CountMonotone(a[1..], fewer, more);
    }
  }

  /** Changes that touch neither the history of expiries nor who wrote what keep every count. */
  lemma SameCounts(a: seq<Record>, b: seq<Record>)
    requires Balanced(a) && |a| == |b|
    requires forall i | 0 <= i < |a| ::
               && TtlFailed(a[i]) == TtlFailed(b[i]) && a[i].envelope == b[i].envelope
               && a[i].msgId == b[i].msgId && a[i].sender == b[i].sender && a[i].receiver == b[i].receiver
    ensures Balanced(b)
  {
    forall id: Option<MsgId>, agent: Option<AgentId> ensures NoticeCount(b, id, agent) == ExpiryCount(b, id, agent) {
      assert NoticeCount(a, id, agent) == ExpiryCount(a, id, agent);
      CountPointwise(a, b, (r: Record) => NoticeAbout(r, id, agent));
      CountPointwise(a, b, (r: Record) => Noticeable(r, id, agent));
    }
  }

  lemma AppendKeepsBalance(records: seq<Record>, r: Record)
    requires Balanced(records) && !TtlFailed(r) && !NoticeAbout(r, None, None)
    ensures Balanced(records + [r])
  {
    forall id: Option<MsgId>, agent: Option<AgentId>
      ensures NoticeCount(records + [r], id, agent) == ExpiryCount(records + [r], id, agent)
    {
      assert NoticeCount(records, id, agent) == ExpiryCount(records, id, agent);
      CountOfAppend(records, r, (r: Record) => NoticeAbout(r, id, agent));
      CountOfAppend(records, r, (r: Record) => Noticeable(r, id, agent));
    }
  }

  /** Committing an expiry keeps the balance exactly when the message had not expired with a notice before. */
  lemma FailOneBalanceExactly(records: seq<Record>, i: nat, now: Time, uuid: MsgId)
    requires Balanced(records) && i < |records|
    ensures Balanced(FailOne(records, i, now, uuid)) <==> !Noticeable(records[i], None, None)
  {
    var after := FailOne(records, i, now, uuid);
    forall id: Option<MsgId>, agent: Option<AgentId>
      ensures NoticeCount(after, id, agent) - ExpiryCount(after, id, agent)
              == if Noticeable(records[i], id, agent) then 1 else 0
    {
      CountOfFailOne(records, i, now, uuid, (r: Record) => NoticeAbout(r, id, agent));
      CountOfFailOne(records, i, now, uuid, (r: Record) => Noticeable(r, id, agent));
      assert NoticeCount(records, id, agent) == ExpiryCount(records, id, agent);
    }
    if Noticeable(records[i], None, None) {
      assert NoticeCount(after, None, None) != ExpiryCount(after, None, None);
    } else {
      assert forall id: Option<MsgId>, agent: Option<AgentId> ::
            NoticeCount(after, id, agent) == ExpiryCount(after, id, agent);
    }
  }

  /** What has expired is out of the queue for good. */
  predicate OutOfQueue(records: seq<Record>) {
    forall i | 0 <= i < |records| && TtlFailed(records[i]) :: !records[i].state.Queued? && !records[i].state.Processing?
  }

  /** Nothing that a worker has loaded has expired before. */
  predicate LoadedAfresh(w: World) {
    forall b | 0 <= b < |w.batches| ::
      && (forall k | 0 <= k < |w.batches[b]| ::
            w.batches[b][k] < |w.records| && !TtlFailed(w.records[w.batches[b][k]]))
      && (forall j, k | 0 <= j < k < |w.batches[b]| :: w.batches[b][j] != w.batches[b][k])
  }

  /** With at most one worker. */
  ghost predicate Inv(w: World) {
    |w.batches| <= 1 && Balanced(w.records) && OutOfQueue(w.records) && LoadedAfresh(w)
  }

  lemma OutOfQueueStep(w: World, s: Step)
    requires OutOfQueue(w.records) && Enabled(w, s)
    ensures OutOfQueue(Next(w, s).records)
  {
  }

  /** Only a worker's commit makes a record one that has expired. */
  lemma ExpiredOnlyByCommit(w: World, s: Step, i: nat)
    requires Enabled(w, s) && i < |w.records| && !TtlFailed(w.records[i])
    ensures i < |Next(w, s).records| && (TtlFailed(Next(w, s).records[i]) <==> Expires(w, s, i))
  {
  }

  lemma LoadedStep(w: World, s: Step)
    requires |w.batches| <= 1 && OutOfQueue(w.records) && LoadedAfresh(w) && Enabled(w, s)
    ensures LoadedAfresh(Next(w, s))
  {
    var next := Next(w, s);
    forall b, k | 0 <= b < |next.batches| && 0 <= k < |next.batches[b]|
      ensures next.batches[b][k] < |next.records| && !TtlFailed(next.records[next.batches[b][k]])
    {
      var i := next.batches[b][k];
      assert i < |w.records| && !TtlFailed(w.records[i]) && !Expires(w, s, i);
      ExpiredOnlyByCommit(w, s, i);
    }
  }

  lemma FinishKeepsBalance(w: World, k: nat, id: MsgId, ttl: int)
    requires Balanced(w.records) && k < |w.pending| && w.pending[k].i < |w.records|
    ensures Balanced(Finished(w, k, id, ttl).records)
  {
    var p := w.pending[k];
    var r := w.records[p.i];
    var edited := w.records[p.i := Applied(r, p)];
    SameCounts(w.records, edited);
    if p.effect.IsReceipt() {
      AppendKeepsBalance(edited, ReceiptFor(r, p.effect, id, ttl, w.now));
    } else {
      assert edited + [] == edited;
    }
  }

  lemma BalanceStep(w: World, s: Step)
    requires Inv(w) && Enabled(w, s)
    ensures Balanced(Next(w, s).records)
  {
    match s
    case Send(record) => AppendKeepsBalance(w.records, record.(createdAt := w.now));
    case Commit(worker, uuid) =>
      var i := w.batches[worker][0];
      FailOneBalanceExactly(w.records, i, w.now, uuid);
    case Finish(k, id, ttl) => FinishKeepsBalance(w, k, id, ttl);
    case Tick(_) =>
    case Select(_, _) =>
    case Load(_, _) =>
    case Drop(_) =>
    case Abort(_) =>
    case _ => SameCounts(w.records, Next(w, s).records);
  }

  lemma InvStep(w: World, s: Step)
    requires Inv(w) && Enabled(w, s)
    ensures Inv(Next(w, s))
  {
    BalanceStep(w, s);
    OutOfQueueStep(w, s);
    LoadedStep(w, s);
  }

  // ----- Runs -----

  ghost predicate IsRun(w: World, run: seq<Step>)
    decreases |run|
  {
    run == [] || (Enabled(w, run[0]) && IsRun(Next(w, run[0]), run[1..]))
  }

  ghost function After(w: World, run: seq<Step>): World
    requires IsRun(w, run)
    decreases |run|
  {
    if run == [] then w else After(Next(w, run[0]), run[1..])
  }

  lemma {:induction false} RunKeepsInv(w: World, run: seq<Step>)
    requires Inv(w) && IsRun(w, run)
    ensures Inv(After(w, run))
    decreases |run|
  {
    if run != [] {
      InvStep(w, run[0]);
      RunKeepsInv(Next(w, run[0]), run[1..]);
    }
  }

  lemma InitInv(workers: nat, now: Time)
    requires workers <= 1
    ensures Inv(Init(workers, now))
  {
    forall id: Option<MsgId>, agent: Option<AgentId> ensures NoticeCount([], id, agent) == ExpiryCount([], id, agent) {
    }
  }

  // ----- How long a lease lasts -----

  /** Leased at least until then, or out of the queue for good. */
  predicate HeldUntil(records: seq<Record>, i: nat, until: Time) {
    && i < |records|
    && match records[i].state
    case Processing => records[i].nextRetryAt.Some? && records[i].nextRetryAt.value >= until
    case Queued => false
    case _ => true
  }

  /** Every handler loaded a record that its query lets through. */
  predicate LoadedRightly(w: World) {
    forall k | 0 <= k < |w.pending| :: w.pending[k].effect.Loads(w.pending[k].loaded)
  }

  lemma LoadedRightlyStep(w: World, s: Step)
    requires Enabled(w, s) && LoadedRightly(w)
    ensures LoadedRightly(Next(w, s))
  {
  }

  lemma HeldStep(w: World, s: Step, i: nat, until: Time)
    requires Enabled(w, s) && LoadedRightly(w)
    requires HeldUntil(w.records, i, until) && w.now < until <= w.now + LEASE_SECONDS
    ensures HeldUntil(Next(w, s).records, i, until)
  {
  }

  lemma {:induction false} ClockRises(w: World, run: seq<Step>)
    requires IsRun(w, run)
    ensures w.now <= After(w, run).now
    decreases |run|
  {
    if run != [] {
      ClockRises(Next(w, run[0]), run[1..]);
    }
  }

  lemma {:induction false} HeldInRun(w: World, run: seq<Step>, i: nat, until: Time)
    requires IsRun(w, run) && LoadedRightly(w)
    requires HeldUntil(w.records, i, until) && After(w, run).now < until <= w.now + LEASE_SECONDS
    ensures HeldUntil(After(w, run).records, i, until)
    decreases |run|
  {
    if run != [] {
      ClockRises(w, run);
      ClockRises(Next(w, run[0]), run[1..]);
      HeldStep(w, run[0], i, until);
      LoadedRightlyStep(w, run[0]);
      HeldInRun(Next(w, run[0]), run[1..], i, until);
    }
  }

  lemma {:induction false} RightlyInRun(w: World, run: seq<Step>)
    requires IsRun(w, run) && LoadedRightly(w)
    ensures LoadedRightly(After(w, run))
    decreases |run|
  {
    if run != [] {
      LoadedRightlyStep(w, run[0]);
      RightlyInRun(Next(w, run[0]), run[1..]);
    }
  }

  /** In any run, for two minutes after a poll or a renewal the message is not in the queue, whatever else happens. */
  lemma LeaseIsHonoured(workers: nat, before: seq<Step>, s: Step, run: seq<Step>, i: nat)
    requires IsRun(Init(workers, 0), before) && Enabled(After(Init(workers, 0), before), s)
    requires s == Poll(i, false) || s == Renew(i)
    requires IsRun(Next(After(Init(workers, 0), before), s), run)
    requires After(Next(After(Init(workers, 0), before), s), run).now < After(Init(workers, 0), before).now + 120
    ensures var records := After(Next(After(Init(workers, 0), before), s), run).records;
            i < |records| && !records[i].state.Queued?
  {
    var w := After(Init(workers, 0), before);
    RightlyInRun(Init(workers, 0), before);
    LoadedRightlyStep(w, s);
    HeldInRun(Next(w, s), run, i, w.now + 120);
  }

  // ----- What is not lost, and what is -----

  /** A handler whose record was put into the state it writes before it was loaded writes no state. */
  lemma SameStateIsNotWritten(w: World, k: nat, id: MsgId, ttl: int)
    requires k < |w.pending| && w.pending[k].i < |w.records| && w.pending[k].effect.AckReceipt?
    ensures var i := w.pending[k].i;
            Next(w, Finish(k, id, ttl)).records[i].state
            == if w.pending[k].loaded.Acked? then w.records[i].state else Acked
  {
  }

  /** A handler that drops out, and a worker that meets an envelope that is no object, change no record. */
  lemma WhatIsDropped(w: World, s: Step)
    requires Enabled(w, s)
    ensures s.Drop? ==> Next(w, s).records == w.records && |Next(w, s).pending| == |w.pending| - 1
    ensures s.Commit? && w.records[w.batches[s.worker][0]].envelope.NotAnObject? ==>
              Next(w, s).records == w.records && Next(w, s).batches == w.batches[s.worker := []]
    ensures s.Settle? ==> Next(w, s).records == w.records[s.i := w.records[s.i].(state := Done, nextRetryAt := None)]
  {
  }

  /** Recalled, and loaded by no worker. */
  predicate OutOfReach(w: World, i: nat) {
    && i < |w.records| && w.records[i].recalled
    && (forall b, k | 0 <= b < |w.batches| && 0 <= k < |w.batches[b]| :: w.batches[b][k] != i)
  }

  lemma OutOfReachStep(w: World, s: Step, i: nat)
    requires OutOfReach(w, i) && Enabled(w, s)
    ensures OutOfReach(Next(w, s), i) && Next(w, s).records[i].ttlFailures == w.records[i].ttlFailures
  {
  }

  lemma {:induction false} OutOfReachInRun(w: World, run: seq<Step>, i: nat)
    requires OutOfReach(w, i) && IsRun(w, run)
    ensures OutOfReach(After(w, run), i) && After(w, run).records[i].ttlFailures == w.records[i].ttlFailures
    decreases |run|
  {
    if run != [] {
      OutOfReachStep(w, run[0], i);
      OutOfReachInRun(Next(w, run[0]), run[1..], i);
    }
  }

  /** A message that is recalled before any worker has loaded it never expires. */
  lemma RecalledNeverExpires(w: World, run: seq<Step>, i: nat)
    requires Enabled(w, Recall(i)) && IsRun(Next(w, Recall(i)), run)
    requires forall b, k | 0 <= b < |w.batches| && 0 <= k < |w.batches[b]| :: w.batches[b][k] != i
    ensures var after := After(Next(w, Recall(i)), run).records;
            i < |after| && after[i].recalled && after[i].ttlFailures == w.records[i].ttlFailures
  {
    OutOfReachInRun(Next(w, Recall(i)), run, i);
  }

  // ----- How long a failure lasts -----

  /** Record i is failed in every world of the run. */
  ghost predicate AlwaysFailed(w: World, run: seq<Step>, i: nat)
    requires IsRun(w, run)
    decreases |run|
  {
    && i < |w.records| && w.records[i].state.Failed?
    && (run == [] || AlwaysFailed(Next(w, run[0]), run[1..], i))
  }

  /** Some step of the run overwrites the failure of record i. */
  ghost predicate IsReplaced(w: World, run: seq<Step>, i: nat)
    requires IsRun(w, run)
    decreases |run|
  {
    run != [] && (Replaces(w, run[0], i, Failed) || IsReplaced(Next(w, run[0]), run[1..], i))
  }

  /** In every run a failed message stays failed if and only if no handler overwrites it with another state. */
  lemma {:induction false} FailedForeverExactly(w: World, run: seq<Step>, i: nat)
    requires IsRun(w, run) && i < |w.records| && w.records[i].state.Failed?
    ensures AlwaysFailed(w, run, i) <==> !IsReplaced(w, run, i)
    decreases |run|
  {
    if run != [] {
      FailedLostExactlyByHandler(w, run[0], i);
      if !Replaces(w, run[0], i, Failed) {
        FailedForeverExactly(Next(w, run[0]), run[1..], i);
      } else {
        assert !AlwaysFailed(Next(w, run[0]), run[1..], i);
      }
    }
  }

  /** An ack or result receipt for record i is committed in this step. */
  predicate Receipts(w: World, s: Step, i: nat) {
    s.Finish? && s.k < |w.pending| && w.pending[s.k].i == i
    && (w.pending[s.k].effect.AckReceipt? || w.pending[s.k].effect.ResultReceipt?)
  }

  ghost predicate IsReceipted(w: World, run: seq<Step>, i: nat)
    requires IsRun(w, run)
    decreases |run|
  {
    run != [] && (Receipts(w, run[0], i) || IsReceipted(Next(w, run[0]), run[1..], i))
  }

  /** Every handler of record i loaded it as failed. */
  predicate LoadedAsFailed(w: World, i: nat) {
    forall k | 0 <= k < |w.pending| && w.pending[k].i == i ::
      w.pending[k].loaded.Failed? && w.pending[k].effect.IsReceipt()
  }

  lemma StillLoadedAsFailed(w: World, s: Step, i: nat)
    requires Enabled(w, s) && i < |w.records| && w.records[i].state.Failed? && LoadedAsFailed(w, i)
    ensures LoadedAsFailed(Next(w, s), i)
    ensures Replaces(w, s, i, Failed) <==> Receipts(w, s, i)
  {
  }

  /** If no handler was under way when it failed: it stays failed if and only if no ack or result receipt follows. */
  lemma {:induction false} FailedUntilReceipt(w: World, run: seq<Step>, i: nat)
    requires IsRun(w, run) && i < |w.records| && w.records[i].state.Failed? && LoadedAsFailed(w, i)
    ensures AlwaysFailed(w, run, i) <==> !IsReceipted(w, run, i)
    decreases |run|
  {
    if run != [] {
      FailedLostExactlyByHandler(w, run[0], i);
      StillLoadedAsFailed(w, run[0], i);
      if !Replaces(w, run[0], i, Failed) {
        FailedUntilReceipt(Next(w, run[0]), run[1..], i);
      } else {
        assert !AlwaysFailed(Next(w, run[0]), run[1..], i);
      }
    }
  }

  /** With at most one worker there are never more notices than messages that can call for one. */
  lemma NoticesAreBounded(workers: nat, run: seq<Step>)
    requires workers <= 1 && IsRun(Init(workers, 0), run)
    ensures var records := After(Init(workers, 0), run).records;
            NoticeCount(records, None, None) <= Count(records, (r: Record) => IsMessage(r))
  {
    InitInv(workers, 0);
    RunKeepsInv(Init(workers, 0), run);
    var records := After(Init(workers, 0), run).records;
    assert NoticeCount(records, None, None) == ExpiryCount(records, None, None);
    CountMonotone(records, (r: Record) => Noticeable(r, None, None), (r: Record) => IsMessage(r));
  }

  // ----- What a notice is about -----

  /** A message that has expired, of the notice's receiver; never an ack, a result or an error. */
  predicate IsSource(r: Record, n: Record) {
    && r.envelope.Object? && r.envelope.kind !in {"ack", "result", "error"} && r.ttlFailures > 0
    && n.envelope.Object? && n.envelope.ttlNoticeFor == Some(r.msgId) && n.receiver == r.sender
  }

  ghost predicate HasSource(records: seq<Record>, n: Record) {
    exists i | 0 <= i < |records| :: IsSource(records[i], n)
  }

  ghost predicate AllSourced(records: seq<Record>) {
    forall k | 0 <= k < |records| && NoticeAbout(records[k], None, None) :: HasSource(records, records[k])
  }

  /** Records only gain history, and new ones are no notices. */
  ghost predicate Continues(before: seq<Record>, after: seq<Record>) {
    && |before| <= |after|
    && (forall i | 0 <= i < |before| ::
          && after[i].envelope == before[i].envelope && after[i].msgId == before[i].msgId
          && after[i].sender == before[i].sender && after[i].receiver == before[i].receiver
          && after[i].ttlFailures >= before[i].ttlFailures)
  }

  lemma SourcesStay(before: seq<Record>, after: seq<Record>)
    requires AllSourced(before) && Continues(before, after)
    requires forall k | |before| <= k < |after| && NoticeAbout(after[k], None, None) :: HasSource(after, after[k])
    ensures AllSourced(after)
  {
    forall k | 0 <= k < |before| && NoticeAbout(after[k], None, None) ensures HasSource(after, after[k]) {
      var i :| 0 <= i < |before| && IsSource(before[i], before[k]);
      assert IsSource(after[i], after[k]);
    }
  }

  lemma SourcedStep(w: World, s: Step)
    requires AllSourced(w.records) && Enabled(w, s)
    ensures AllSourced(Next(w, s).records)
  {
    var after := Next(w, s).records;
    RecordsContinue(w, s);
    NewRecordsAreSourced(w, s);
    SourcesStay(w.records, after);
  }

  lemma RecordsContinue(w: World, s: Step)
    requires Enabled(w, s)
    ensures Continues(w.records, Next(w, s).records)
  {
  }

  lemma NewRecordsAreSourced(w: World, s: Step)
    requires Enabled(w, s)
    ensures var after := Next(w, s).records;
            forall k | |w.records| <= k < |after| && NoticeAbout(after[k], None, None) :: HasSource(after, after[k])
  {
    if s.Commit? {
      var i, after := w.batches[s.worker][0], Next(w, s).records;
      if !Raises(w.records[i]) && WantsNotice(w.records[i]) {
        assert IsSource(after[i], after[|w.records|]);
      }
    }
  }

  lemma {:induction false} SourcedInRun(w: World, run: seq<Step>)
    requires AllSourced(w.records) && IsRun(w, run)
    ensures AllSourced(After(w, run).records)
    decreases |run|
  {
    if run != [] {
      SourcedStep(w, run[0]);
      SourcedInRun(Next(w, run[0]), run[1..]);
    }
  }

  /**
   * In every run of any number of workers each notice is about a message that has expired and was its
   * receiver's own, and never about an ack, a result or an error.
   */
  lemma NoticesAreAboutMessages(workers: nat, run: seq<Step>, k: nat)
    requires IsRun(Init(workers, 0), run) && k < |After(Init(workers, 0), run).records|
    requires NoticeAbout(After(Init(workers, 0), run).records[k], None, None)
    ensures var records := After(Init(workers, 0), run).records; HasSource(records, records[k])
  {
    SourcedInRun(Init(workers, 0), run);
  }

  // ----- Runs that surprise -----

  lemma Prepend(w: World, s: Step, next: World, run: seq<Step>) returns (longer: seq<Step>)
    requires Enabled(w, s) && Next(w, s) == next && IsRun(next, run)
    ensures IsRun(w, longer) && After(w, longer) == After(next, run)
  {
    longer := [s] + run;
    assert longer[1..] == run;
  }

  function Sample(state: State): Record {
    Record(7, "ag_1", "ag_2", state, Object("message", None), 10, 0, None, false, NoError, 0)
  }

  /** The sample message, expired at time 10, loaded by the first `loaded` of the workers. */
  function Loaded(workers: nat, loaded: nat, records: seq<Record>): World {
    World(records, seq(workers, b => if b < loaded then [0] else []), [], 10)
  }

  lemma SampleIsSelected()
    ensures IsSelection([Sample(Queued)], 10, [0])
  {
  }

  /** Two workers that loaded the same message each send a notice. */
  lemma TwoWorkersNotifyTwice(workers: nat)
    requires workers >= 2
    ensures exists run :: IsRun(Init(workers, 0), run) && !Balanced(After(Init(workers, 0), run).records)
  {
    var queued := [Sample(Queued)];
    var once := FailOne(queued, 0, 10, 1);
    var twice := FailOne(once, 0, 10, 2);
    SampleIsSelected();
    var both := Loaded(workers, 2, queued);
    var first := World(once, both.batches[0 := []], [], 10);
    var second := World(twice, first.batches[1 := []], [], 10);
    var run: seq<Step> := [];
    var one: seq<nat> := [0];
    assert one[1..] == [] && both.batches[0] == one && both.batches[1] == one;
    assert Next(first, Commit(1, 2)) == second;
    run := Prepend(first, Commit(1, 2), second, run);
    assert Next(both, Commit(0, 1)) == first;
    run := Prepend(both, Commit(0, 1), first, run);
    run := LoadBoth(workers, run);
    assert !Balanced(twice) by {
      TwiceIsUnbalanced();
    }
  }

  /** A run of one worker up to the moment when the sample message is loaded. */
  lemma LoadSample(rest: seq<Step>) returns (run: seq<Step>)
    requires IsRun(World([Sample(Queued)], [[0]], [], 10), rest)
    ensures IsRun(Init(1, 0), run)
    ensures After(Init(1, 0), run) == After(World([Sample(Queued)], [[0]], [], 10), rest)
  {
    SampleIsSelected();
    var none: seq<nat>, one: seq<nat> := [], [0];
    var sent, late := World([Sample(Queued)], [none], [], 0), World([Sample(Queued)], [none], [], 10);
    var loaded := World([Sample(Queued)], [one], [], 10);
    assert Init(1, 0).batches == [none];
    run := Prepend(late, Select(0, one), loaded, rest);
    run := Prepend(sent, Tick(10), late, run);
    run := Prepend(Init(1, 0), Send(Sample(Queued)), sent, run);
  }

  /** One worker is enough to turn a delivered message into a failed one. */
  lemma DeliveredMessageCanFail()
    ensures exists before, after ::
              && IsRun(Init(1, 0), before) && IsRun(After(Init(1, 0), before), after)
              && |After(Init(1, 0), before).records| == 1 && After(Init(1, 0), before).records[0].state.Delivered?
              && After(After(Init(1, 0), before), after).records != []
              && After(After(Init(1, 0), before), after).records[0].state.Failed?
  {
    var none: seq<nat>, one: seq<nat> := [], [0];
    assert one[1..] == none;
    var loaded := World([Sample(Queued)], [one], [], 10);
    var delivered := World([Sample(Delivered)], [one], [], 10);
    var failed := World(FailOne([Sample(Delivered)], 0, 10, 1), [none], [], 10);
    var before := Prepend(loaded, Poll(0, true), delivered, []);
    before := LoadSample(before);
    assert Next(delivered, Commit(0, 1)) == failed;
    var after := Prepend(delivered, Commit(0, 1), failed, []);
    assert After(Init(1, 0), before) == delivered;
  }

  /** The sample message after its expiry, with its notice; then an ack receipt for it is loaded. */
  function Failure(): World {
    World(FailOne([Sample(Queued)], 0, 10, 1), [[]], [], 10)
  }

  /** A receipt turns a message that has failed, and whose sender has the notice, into an acknowledged one. */
  lemma FailedMessageCanBeAcked()
    ensures exists before, after ::
              && IsRun(Init(1, 0), before) && IsRun(After(Init(1, 0), before), after)
              && After(Init(1, 0), before) == Failure() && Failure().records[0].state.Failed?
              && After(Failure(), after).records != [] && After(Failure(), after).records[0].state.Acked?
              && NoticeCount(After(Failure(), after).records, None, None) == 1
  {
    var none: seq<nat>, one: seq<nat> := [], [0];
    assert one[1..] == none;
    var loaded := World([Sample(Queued)], [one], [], 10);
    assert Next(loaded, Commit(0, 1)) == Failure();
    var before := Prepend(loaded, Commit(0, 1), Failure(), []);
    before := LoadSample(before);
    var waiting := Failure().(pending := [Pending(0, Failed, AckReceipt)]);
    var acked := Next(waiting, Finish(0, 2, 60));
    assert Next(Failure(), Load(0, AckReceipt)) == waiting;
    var after := Prepend(waiting, Finish(0, 2, 60), acked, []);
    after := Prepend(Failure(), Load(0, AckReceipt), waiting, after);
    AckedHasItsNotice(acked.records);
  }

  lemma AckedHasItsNotice(records: seq<Record>)
    requires records == Finished(Failure().(pending := [Pending(0, Failed, AckReceipt)]), 0, 2, 60).records
    ensures NoticeCount(records, None, None) == 1
  {
    var about := (r: Record) => NoticeAbout(r, None, None);
    var acked := Applied(FailedByTtl(Sample(Queued)), Pending(0, Failed, AckReceipt));
    var notice := Notice(Sample(Queued), 1, 10);
    var receipt := ReceiptFor(FailedByTtl(Sample(Queued)), AckReceipt, 2, 60, 10);
    assert records == [acked] + [notice] + [receipt];
    CountOfAppend([acked] + [notice], receipt, about);
    CountOfAppend([acked], notice, about);
    CountOfAppend([], acked, about);
    assert [] + [acked] == [acked];
  }

  lemma LoadBoth(workers: nat, rest: seq<Step>) returns (run: seq<Step>)
    requires workers >= 2 && IsRun(Loaded(workers, 2, [Sample(Queued)]), rest)
    ensures IsRun(Init(workers, 0), run)
    ensures After(Init(workers, 0), run) == After(Loaded(workers, 2, [Sample(Queued)]), rest)
  {
    var queued := [Sample(Queued)];
    SampleIsSelected();
    var w0, w1, w2 := Loaded(workers, 0, queued), Loaded(workers, 1, queued), Loaded(workers, 2, queued);
    assert Next(w1, Select(1, [0])).batches == w2.batches;
    run := Prepend(w1, Select(1, [0]), w2, rest);
    assert Next(w0, Select(0, [0])).batches == w1.batches;
    run := Prepend(w0, Select(0, [0]), w1, run);
    var sent := World(queued, seq(workers, _ => []), [], 0);
    assert sent.batches == w0.batches;
    run := Prepend(sent, Tick(10), w0, run);
    run := Prepend(Init(workers, 0), Send(Sample(Queued)), sent, run);
  }

  lemma TwiceIsUnbalanced()
    ensures !Balanced(FailOne(FailOne([Sample(Queued)], 0, 10, 1), 0, 10, 2))
  {
    InitInv(0, 0);
    AppendKeepsBalance([], Sample(Queued));
    assert [] + [Sample(Queued)] == [Sample(Queued)];
    FailOneBalanceExactly([Sample(Queued)], 0, 10, 1);
    FailOneBalanceExactly(FailOne([Sample(Queued)], 0, 10, 1), 0, 10, 2);
  }

  /**
   * Every message that fails for its TTL gets exactly one notice, and nothing else gets
   * any, in every run, if and only if at most one worker is running.
   */
  lemma OneNoticeEachExactlyWithOneWorker(workers: nat)
    ensures (forall run | IsRun(Init(workers, 0), run) :: Balanced(After(Init(workers, 0), run).records))
                <==> workers <= 1
  {
    if workers <= 1 {
      InitInv(workers, 0);
      forall run | IsRun(Init(workers, 0), run) ensures Balanced(After(Init(workers, 0), run).records) {
        RunKeepsInv(Init(workers, 0), run);
      }
    } else {
      TwoWorkersNotifyTwice(workers);
    }
  }
}
