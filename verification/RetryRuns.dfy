/**
 * Retry batches beside the rest of the hub: the loop loads up to fifty messages and then takes
 * their turns one by one, each on the loaded copy, while others poll, acknowledge, receipt,
 * recall, expire or give up the same messages.  The ORM writes the fields in which the copy
 * changed and leaves the others as they are.
 */
module RetryRuns {
  import opened Wrappers
  import Expiry
  import opened Retry

  /** A selected message as the query returned it. */
  datatype Loaded = Loaded(i: nat, copy: Message)

  datatype World = World(
    db: Db,
    batch: seq<Loaded>,     // the turns still to take
    batchNow: Time,         // the clock when the batch was loaded
    clock: Time)

  datatype Step =
    | Select(selected: seq<nat>)
    | Turn(reply: Reply)
    | Abort                                           // a crash, or an error before a commit
    | Wait(until: Time)
    | Create(message: Message)                        // a new message or notice of another part of the hub
    | Poll(i: nat, until: Time)                       // the receiver claims it
    | Reclaim(i: nat)                                 // its lease ran out
    | Settle(i: nat, state: Expiry.State, problem: Problem)   // delivered, receipted, expired or given up
    | Recall(i: nat)
    | Register(agent: AgentId, endpoint: Endpoint)    // also resumes parked messages

  predicate IsNotice(m: Message) {
    m.sender == "hub" && m.envelope.Object? && m.envelope.kind == "error"
  }

  predicate Fresh(m: Message, now: Time) {
    && m.state.Queued? && m.createdAt == now && m.retries == 0 && m.problem.NoProblem?
    && (m.nextRetryAt == None || m.nextRetryAt == Some(now))
    && (IsNotice(m) ==> m.nextRetryAt == None)
  }

  predicate Live(m: Message) {
    m.state.Queued? || m.state.Processing?
  }

  /** An answer of the query: up to fifty different messages that are due. */
  ghost predicate IsSelection(db: Db, now: Time, selected: seq<nat>) {
    && |selected| <= BATCH
    && (forall k | 0 <= k < |selected| :: selected[k] < |db.messages| && Due(db.messages[selected[k]], now))
    && (forall j, k | 0 <= j < k < |selected| :: selected[j] != selected[k])
  }

  ghost predicate Enabled(w: World, s: Step) {
    var messages := w.db.messages;
    match s
    case Select(selected) => w.batch == [] && IsSelection(w.db, w.clock, selected)
    case Turn(_) => w.batch != [] && w.batch[0].i < |messages|
    case Abort => true
    case Wait(until) => w.clock <= until
    case Create(m) => Fresh(m, w.clock)
    case Poll(i, _) => i < |messages| && messages[i].state.Queued?
    case Reclaim(i) => i < |messages| && messages[i].state.Processing?
    case Settle(i, state, _) => i < |messages| && !state.Queued? && !state.Processing?
    case Recall(i) => i < |messages|
    case Register(_, _) => true
  }

  function Edit(w: World, i: nat, m: Message): World
    requires i < |w.db.messages|
  {
    w.(db := w.db.(messages := w.db.messages[i := m]))
  }

  function Resume(messages: seq<Message>, agent: AgentId, now: Time): seq<Message> {
    seq(|messages|, i requires 0 <= i < |messages| =>
      if messages[i].receiver == agent && Parked(messages[i]) then messages[i].(nextRetryAt := Some(now))
            else messages[i])
  }

  /** The row after an UPDATE of the fields in which the loaded copy was changed. */
  function Written(row: Message, copy: Message, after: Message): Message {
    row.(state := if after.state != copy.state then after.state else row.state,
         nextRetryAt := if after.nextRetryAt != copy.nextRetryAt then after.nextRetryAt else row.nextRetryAt,
         retries := if after.retries != copy.retries then after.retries else row.retries,
         problem := if after.problem != copy.problem then after.problem else row.problem)
  }

  /** The turn of the first message of the batch. */
  function AfterTurn(w: World, reply: Reply): (next: World)
    requires Shaped(w.db) && w.batch != [] && w.batch[0].i < |w.db.messages|
    ensures Shaped(next.db)
  {
    var Loaded(i, copy) := w.batch[0];
    var endpoint := EndpointOf(w.db.endpoints, copy.receiver);
    if Raises(copy, w.batchNow, endpoint, reply) then w.(batch := [])
    else
      var v := VisitOf(copy, w.batchNow, endpoint, reply);
      w.(db := Commit(w.db, i, v.(message := Written(w.db.messages[i], copy, v.message))), batch := w.batch[1..])
  }

  function Load(db: Db, selected: seq<nat>): seq<Loaded>
    requires forall k | 0 <= k < |selected| :: selected[k] < |db.messages|
  {
    seq(|selected|, k requires 0 <= k < |selected| => Loaded(selected[k], db.messages[selected[k]]))
  }

  ghost function Next(w: World, s: Step): World
    requires Shaped(w.db) && Enabled(w, s)
  {
    var messages := w.db.messages;
    match s
    case Select(selected) => w.(batch := Load(w.db, selected), batchNow := w.clock)
    case Turn(reply) => AfterTurn(w, reply)
    case Abort => w.(batch := [])
    case Wait(until) => w.(clock := until)
    case Create(m) => w.(db := w.db.(messages := messages + [m], tries := w.db.tries + [0]))
    case Poll(i, until) => Edit(w, i, messages[i].(state := Expiry.Processing, nextRetryAt := Some(until)))
    case Reclaim(i) => Edit(w, i, messages[i].(state := Expiry.Queued, nextRetryAt := None))
    case Settle(i, state, problem) => Edit(w, i, messages[i].(state := state, nextRetryAt := None, problem := problem))
    case Recall(i) => Edit(w, i, messages[i].(recalled := true))
    case Register(agent, endpoint) =>
      var resumes := agent in w.db.endpoints && w.db.endpoints[agent].Inactive? && endpoint.Active?;
      w.(db := w.db.(endpoints := w.db.endpoints[agent := endpoint],
                     messages := if resumes then Resume(messages, agent, w.clock) else messages))
  }

  /** Undisturbed, a turn commits what the loop's own turn does. */
  lemma UndisturbedTurn(w: World, reply: Reply)
    requires Shaped(w.db) && w.batch != [] && w.batch[0].i < |w.db.messages|
    requires w.batch[0].copy == w.db.messages[w.batch[0].i]
    ensures var m := w.batch[0].copy;
            var endpoint := EndpointOf(w.db.endpoints, m.receiver);
            !Raises(m, w.batchNow, endpoint, reply) ==>
              AfterTurn(w, reply).db == Commit(w.db, w.batch[0].i, VisitOf(m, w.batchNow, endpoint, reply))
  {
  }

  /** An endpoint that becomes active again lets the messages go on that were parked for it, and no others. */
  lemma RegisterExactly(w: World, agent: AgentId, endpoint: Endpoint, i: nat)
    requires Shaped(w.db) && i < |w.db.messages|
    ensures var m, next := w.db.messages[i], Next(w, Register(agent, endpoint)).db;
            && |next.messages| == |w.db.messages| && next.endpoints == w.db.endpoints[agent := endpoint]
            && if && endpoint == Active && agent in w.db.endpoints && w.db.endpoints[agent] == Inactive
                  && m.receiver == agent && m.state.Queued? && !m.recalled && m.nextRetryAt == None
                  && m.problem == EndpointUnreachable
               then next.messages[i] == m.(nextRetryAt := Some(w.clock))
               else next.messages[i] == m
  {
  }

  // ----- The invariant -----

  /** When the earliest attempt after m's failed ones may be. */
  function Earliest(m: Message): Time {
    m.createdAt + Waits(m.retries) * SECOND
  }

  /** What holds of a message and the number of attempts on it. */
  predicate Good(m: Message, tries: nat, clock: Time) {
    && tries <= MaxAttempts(m.ttl)
    && (Live(m) ==> tries == m.retries && (m.retries > 0 ==> Waits(m.retries) <= m.ttl))
    && (m.state.Queued? && m.nextRetryAt.Some? ==> Earliest(m) <= m.nextRetryAt.value)
    && (Live(m) && m.problem.EndpointUnreachable? ==> Earliest(m) <= clock)
    && (IsNotice(m) ==> tries == 0 && (Live(m) ==> !m.problem.EndpointUnreachable?))
    && (IsNotice(m) && m.state.Queued? ==> m.nextRetryAt.None?)
  }

  /** A loaded copy still knows the attempts and was due when it was loaded. */
  predicate Current(copy: Message, m: Message, tries: nat, batchNow: Time) {
    && copy.state.Queued? && copy.nextRetryAt.Some? && copy.nextRetryAt.value <= batchNow
    && Earliest(copy) <= batchNow && tries == copy.retries && copy.retries == m.retries && !IsNotice(copy)
    && copy.createdAt == m.createdAt && copy.ttl == m.ttl && copy.sender == m.sender && copy.envelope == m.envelope
    && (Live(m) ==> copy.problem == m.problem)
  }

  ghost predicate Inv(w: World) {
    && AllGood(w.db, w.clock)
    && (w.batch != [] ==> w.batchNow <= w.clock)
    && (forall k | 0 <= k < |w.batch| ::
          w.batch[k].i < |w.db.messages|
          && Current(w.batch[k].copy, w.db.messages[w.batch[k].i], w.db.tries[w.batch[k].i], w.batchNow))
    && (forall j, k | 0 <= j < k < |w.batch| :: w.batch[j].i != w.batch[k].i)
  }

  /** One more attempt fits, and if the next one is scheduled its wait fits too. */
  lemma NextAttempt(m: Message, now: Time)
    requires Earliest(m) <= now < Deadline(m)
    ensures m.retries + 1 <= MaxAttempts(m.ttl)
    ensures var n, next := m.retries + 1, now + Backoff(m.retries + 1);
            && m.createdAt + Waits(n) * SECOND <= next && now < next
            && (next <= Deadline(m) ==> Waits(n) <= m.ttl)
  {
    MaxAttemptsExactly(m.ttl, m.retries);
    assert Waits(m.retries + 1) == Waits(m.retries) + BackoffSeconds(m.retries + 1);
  }

  /** A failed attempt, which is put off or ends the message. */
  lemma BumpKeepsGood(m: Message, copy: Message, tries: nat, now: Time, clock: Time, problem: Problem)
    requires Good(m, tries, clock) && Current(copy, m, tries, now) && now <= clock && now < Deadline(copy)
    requires !problem.EndpointUnreachable?
    ensures Good(Written(m, copy, Bump(copy, now, problem).message), tries + 1, clock)
  {
    NextAttempt(copy, now);
  }

  /** A message that is over. */
  lemma EndKeepsGood(m: Message, copy: Message, after: Message, tries: nat, more: nat, clock: Time)
    requires Good(m, tries, clock) && tries + more <= MaxAttempts(m.ttl) && (IsNotice(m) ==> more == 0)
    requires copy.state.Queued? && !Live(after)
    ensures Good(Written(m, copy, after), tries + more, clock)
  {
  }

  /** A message that is parked. */
  lemma ParkKeepsGood(m: Message, copy: Message, tries: nat, now: Time, clock: Time)
    requires Good(m, tries, clock) && Current(copy, m, tries, now) && now <= clock
    ensures Good(Written(m, copy, copy.(nextRetryAt := None, problem := EndpointUnreachable)), tries, clock)
  {
  }

  /** A turn on a copy keeps the row good, whatever others have made of the row meanwhile. */
  lemma TurnKeepsGood(m: Message, copy: Message, tries: nat, now: Time, clock: Time, endpoint: Option<Endpoint>,
                      reply: Reply)
    requires Good(m, tries, clock) && Current(copy, m, tries, now) && now <= clock
    ensures var v := VisitOf(copy, now, endpoint, reply);
            Good(Written(m, copy, v.message), tries + (if v.attempted then 1 else 0), clock)
  {
    var v := VisitOf(copy, now, endpoint, reply);
    if copy.envelope.Corrupt? || now >= Deadline(copy) {
      EndKeepsGood(m, copy, v.message, tries, 0, clock);
    } else if endpoint.None? {
      BumpKeepsGood(m, copy, tries, now, clock, NoEndpoint);
    } else if endpoint.value.Inactive? {
      ParkKeepsGood(m, copy, tries, now, clock);
    } else if reply.Accepted? {
      MaxAttemptsExactly(copy.ttl, copy.retries);
      EndKeepsGood(m, copy, v.message, tries, 1, clock);
    } else {
      BumpKeepsGood(m, copy, tries, now, clock, WebhookError);
    }
  }

  lemma NoticesAreGood(m: Message, now: Time, endpoint: Option<Endpoint>, reply: Reply, clock: Time)
    ensures var v := VisitOf(m, now, endpoint, reply);
            forall k | 0 <= k < |v.notices| :: IsNotice(v.notices[k]) && Good(v.notices[k], 0, clock)
  {
  }

  ghost predicate AllGood(db: Db, clock: Time) {
    Shaped(db) && forall i | 0 <= i < |db.messages| :: Good(db.messages[i], db.tries[i], clock)
  }

  /** A commit of good values. */
  lemma CommitKeepsGood(db: Db, i: nat, v: Visit, clock: Time)
    requires AllGood(db, clock) && i < |db.messages|
    requires Good(v.message, db.tries[i] + (if v.attempted then 1 else 0), clock)
    requires forall k | 0 <= k < |v.notices| :: Good(v.notices[k], 0, clock)
    ensures AllGood(Commit(db, i, v), clock)
  {
  }

  /** The rest of the batch knows nothing of message i. */
  lemma RestStaysCurrent(w: World, v: Visit)
    requires Inv(w) && w.batch != []
    ensures var next := Commit(w.db, w.batch[0].i, v);
            forall k | 1 <= k < |w.batch| ::
              w.batch[k].i < |next.messages|
              && Current(w.batch[k].copy, next.messages[w.batch[k].i], next.tries[w.batch[k].i], w.batchNow)
  {
    forall k | 1 <= k < |w.batch| ensures w.batch[k].i != w.batch[0].i {
    }
  }

  lemma TurnKeepsInv(w: World, reply: Reply)
    requires Inv(w) && w.batch != []
    ensures Inv(AfterTurn(w, reply))
  {
    var Loaded(i, copy) := w.batch[0];
    var endpoint := EndpointOf(w.db.endpoints, copy.receiver);
    if !Raises(copy, w.batchNow, endpoint, reply) {
      TurnKeepsGood(w.db.messages[i], copy, w.db.tries[i], w.batchNow, w.clock, endpoint, reply);
      NoticesAreGood(copy, w.batchNow, endpoint, reply, w.clock);
      var visit := VisitOf(copy, w.batchNow, endpoint, reply);
      var v := visit.(message := Written(w.db.messages[i], copy, visit.message));
      CommitKeepsGood(w.db, i, v, w.clock);
      RestStaysCurrent(w, v);
      assert forall k | 0 <= k < |w.batch| - 1 :: w.batch[1..][k] == w.batch[k + 1];
    }
  }

  lemma SelectKeepsInv(w: World, selected: seq<nat>)
    requires Inv(w) && Enabled(w, Select(selected))
    ensures Inv(Next(w, Select(selected)))
  {
    forall k | 0 <= k < |selected| ensures selected[k] < |w.db.messages| && Due(w.db.messages[selected[k]], w.clock)
      && Good(w.db.messages[selected[k]], w.db.tries[selected[k]], w.clock)
    {
    }
  }

  /** Nothing that a loaded copy relies on differs. */
  predicate SameToCopies(m: Message, after: Message) {
    && after.retries == m.retries && after.createdAt == m.createdAt && after.ttl == m.ttl
    && after.sender == m.sender && after.envelope == m.envelope
    && (Live(after) ==> Live(m) && after.problem == m.problem)
  }

  lemma ReplaceKeepsInv(w: World, i: nat, after: Message)
    requires Inv(w) && i < |w.db.messages| && SameToCopies(w.db.messages[i], after)
    requires Good(after, w.db.tries[i], w.clock)
    ensures Inv(Edit(w, i, after))
  {
    var next := Edit(w, i, after);
    forall k | 0 <= k < |w.batch|
      ensures Current(w.batch[k].copy, next.db.messages[w.batch[k].i], w.db.tries[w.batch[k].i], w.batchNow)
    {
      assert Current(w.batch[k].copy, w.db.messages[w.batch[k].i], w.db.tries[w.batch[k].i], w.batchNow);
    }
  }

  lemma EditKeepsInv(w: World, s: Step)
    requires Inv(w) && Enabled(w, s) && (s.Poll? || s.Reclaim? || s.Settle? || s.Recall?)
    ensures Inv(Next(w, s))
  {
    var m, next := w.db.messages[s.i], Next(w, s).db.messages[s.i];
    assert Good(m, w.db.tries[s.i], w.clock);
    ReplaceKeepsInv(w, s.i, next);
  }

  lemma CreateKeepsInv(w: World, m: Message)
    requires Inv(w) && Fresh(m, w.clock)
    ensures Inv(Next(w, Create(m)))
  {
    assert Good(m, 0, w.clock);
  }

  lemma RegisterKeepsInv(w: World, agent: AgentId, endpoint: Endpoint)
    requires Inv(w)
    ensures Inv(Next(w, Register(agent, endpoint)))
  {
    var next := Next(w, Register(agent, endpoint)).db.messages;
    forall i | 0 <= i < |next| ensures Good(next[i], w.db.tries[i], w.clock) {
      assert Good(w.db.messages[i], w.db.tries[i], w.clock);
    }
  }

  lemma InvStep(w: World, s: Step)
    requires Inv(w) && Enabled(w, s)
    ensures Inv(Next(w, s))
  {
    match s
    case Turn(reply) => TurnKeepsInv(w, reply);
    case Select(selected) => SelectKeepsInv(w, selected);
    case Register(agent, endpoint) => RegisterKeepsInv(w, agent, endpoint);
    case Abort =>
    case Wait(until) =>
    case Create(m) => CreateKeepsInv(w, m);
    case _ => EditKeepsInv(w, s);
  }

  // ----- Runs -----

  ghost predicate IsRun(w: World, run: seq<Step>)
    decreases |run|
  {
    run == [] || (Shaped(w.db) && Enabled(w, run[0]) && IsRun(Next(w, run[0]), run[1..]))
  }

  ghost function After(w: World, run: seq<Step>): World
    requires IsRun(w, run)
    decreases |run|
  {
    if run == [] then w else After(Next(w, run[0]), run[1..])
  }

  lemma {:induction false} RunKeepsInv(w: World, run: seq<Step>)
    requires Inv(w) && IsRun(w, run)
    ensures Inv(After(w, run))
    decreases |run|
  {
    if run != [] {
      InvStep(w, run[0]);
      RunKeepsInv(Next(w, run[0]), run[1..]);
    }
  }

  function Init(now: Time): World {
    World(Db([], map[], []), [], now, now)
  }

  /**
   * After any run the loop has tried no message more often than fits its TTL, and no notice at all;
   * a message that is still queued after k failed attempts has a TTL that covers their waits.
   */
  lemma AttemptsAreBounded(now: Time, run: seq<Step>, i: nat)
    requires IsRun(Init(now), run) && i < |After(Init(now), run).db.messages|
    ensures var db := After(Init(now), run).db;
            var m := db.messages[i];
            && |db.tries| == |db.messages| && db.tries[i] <= MaxAttempts(m.ttl)
            && (IsNotice(m) ==> db.tries[i] == 0)
            && (m.state.Queued? ==> db.tries[i] == m.retries)
            && (m.state.Queued? && m.retries >= 6 ==> 122 + 60 * (m.retries - 6) <= m.ttl)
  {
    RunKeepsInv(Init(now), run);
    var m := After(Init(now), run).db.messages[i];
    assert Good(m, After(Init(now), run).db.tries[i], After(Init(now), run).clock);
    if m.retries >= 6 {
      WaitsLater(m.retries);
    }
  }

  /** A message of agent "a" whose k attempts so far failed at the earliest times. */
  function Hammered(ttl: int, k: nat, batchNow: Time): World {
    var problem := if k == 0 then NoProblem else WebhookError;
    var m := Message("b", "a", Expiry.Queued, Expiry.Object("message", None), ttl, 0, Some(Waits(k) * SECOND), k,
          false, problem);
    World(Db([m], map["a" := Active], [k]), [], batchNow, Waits(k) * SECOND)
  }

  /** The first message has that TTL and was tried as often as fits. */
  predicate HasSpent(w: World, ttl: int) {
    |w.db.tries| > 0 && |w.db.messages| > 0 && w.db.messages[0].ttl == ttl && w.db.tries[0] == MaxAttempts(ttl)
  }

  /** The turn of a hammered message. */
  lemma HammerVisit(ttl: int, k: nat)
    requires k < MaxAttempts(ttl)
    ensures var w := Hammered(ttl, k, 0);
            var m := w.db.messages[0];
            var v := VisitOf(m, w.clock, Some(Active), Refused);
            && v.attempted && v.message.ttl == ttl && !Raises(m, w.clock, Some(Active), Refused)
            && if k + 1 < MaxAttempts(ttl)
               then v == Visit(Hammered(ttl, k + 1, 0).db.messages[0], [], false, true)
               else k + 1 == MaxAttempts(ttl)
  {
    MaxAttemptsExactly(ttl, k);
    MaxAttemptsExactly(ttl, k + 1);
    assert Waits(k + 1) == Waits(k) + BackoffSeconds(k + 1);
  }

  /** One more failed attempt at the earliest time. */
  lemma HammerOnce(ttl: int, k: nat, batchNow: Time)
    requires k < MaxAttempts(ttl)
    ensures var w := Hammered(ttl, k, batchNow);
            && Enabled(w, Select([0]))
            && var loaded := Next(w, Select([0]));
            Enabled(loaded, Turn(Refused)) && Shaped(loaded.db)
            && var next := Next(loaded, Turn(Refused));
            if k + 1 < MaxAttempts(ttl) then next == Hammered(ttl, k + 1, w.clock).(clock := w.clock)
                  else HasSpent(next, ttl)
  {
    var w := Hammered(ttl, k, batchNow);
    var m := w.db.messages[0];
    var loaded := Next(w, Select([0]));
    assert loaded.batch == [Loaded(0, m)];
    HammerVisit(ttl, k);
    UndisturbedTurn(loaded, Refused);
    assert loaded.batch[1..] == [];
  }

  lemma {:induction false} HammerOn(ttl: int, k: nat, batchNow: Time) returns (run: seq<Step>)
    requires k < MaxAttempts(ttl)
    ensures IsRun(Hammered(ttl, k, batchNow), run)
    ensures HasSpent(After(Hammered(ttl, k, batchNow), run), ttl)
    decreases MaxAttempts(ttl) - k
  {
    HammerOnce(ttl, k, batchNow);
    var w := Hammered(ttl, k, batchNow);
    var loaded := Next(w, Select([0]));
    var next := Next(loaded, Turn(Refused));
    run := [];
    if k + 1 < MaxAttempts(ttl) {
      var wait := Wait(Waits(k + 1) * SECOND);
      run := HammerOn(ttl, k + 1, w.clock);
      assert Next(next, wait) == Hammered(ttl, k + 1, w.clock);
      run := Prepend(next, wait, run);
    }
    run := Prepend(loaded, Turn(Refused), run);
    run := Prepend(w, Select([0]), run);
  }

  lemma Prepend(w: World, s: Step, run: seq<Step>) returns (longer: seq<Step>)
    requires Shaped(w.db) && Enabled(w, s) && IsRun(Next(w, s), run)
    ensures IsRun(w, longer) && After(w, longer) == After(Next(w, s), run)
  {
    longer := [s] + run;
    assert longer[1..] == run;
  }

  /** The bound is exact: some run tries a message that often. */
  lemma BoundIsReached(ttl: int)
    requires ttl > 0
    ensures exists run :: IsRun(Init(0), run) && HasSpent(After(Init(0), run), ttl)
  {
    var rest := HammerOn(ttl, 0, 0);
    var register, create := Register("a", Active), Create(Hammered(ttl, 0, 0).db.messages[0]);
    var registered := Next(Init(0), register);
    assert registered == World(Db([], map["a" := Active], []), [], 0, 0);
    assert Next(registered, create) == Hammered(ttl, 0, 0);
    var run := Prepend(registered, create, rest);
    run := Prepend(Init(0), register, run);
  }
}
