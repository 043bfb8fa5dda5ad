/**
 * Webhook retries (backend/hub/retry.py): backoff, deadlines, parked messages and notices.
 *
 * Messages are named by their position in the table.  Times are in microseconds.
 */
module Retry {
  import opened Wrappers
  import Expiry

  type AgentId = string
  type Time = int

  const SECOND: int := 1_000_000
  const BATCH: nat := 50
  const BACKOFF_SCHEDULE: seq<int> := [1, 2, 4, 8, 16, 32, 60]

  /** `last_error` */
  datatype Problem = NoProblem | NoEndpoint | EndpointUnreachable | TtlExpired | CorruptedEnvelope | WebhookError

  datatype Message = Message(
    sender: AgentId,
    receiver: AgentId,
    state: Expiry.State,
    envelope: Expiry.Envelope,
    ttl: int,
    createdAt: Time,
    nextRetryAt: Option<Time>,
    retries: nat,
    recalled: bool,
    problem: Problem)

  /** Inactive: unreachable or unverified. */
  datatype Endpoint = Active | Inactive

  /** What a POST comes to; Raised if the envelope cannot be converted, before anything is sent. */
  datatype Reply = Accepted | Refused | Raised

  // ----- One message -----

  function Deadline(m: Message): Time {
    m.createdAt + m.ttl * SECOND
  }

  /** The WHERE of the retry query. */
  predicate Due(m: Message, now: Time) {
    m.state.Queued? && m.nextRetryAt.Some? && m.nextRetryAt.value <= now && !m.recalled
  }

  /** `_is_webhook_error` */
  predicate IsWebhookError(p: Problem) {
    p != NoProblem && p != NoEndpoint
  }

  /** An error from the hub to an agent; nobody schedules it. */
  function Notice(to: AgentId, now: Time): Message {
    Message("hub", to, Expiry.Queued, Expiry.Object("error", None), Expiry.DEFAULT_TTL_SEC, now, None, 0, false,
          NoProblem)
  }

  function Notices(m: Message, now: Time, unreachable: bool): seq<Message> {
    (if unreachable then [Notice(m.receiver, now)] else [])
    + (if m.envelope.Object? && !Expiry.IsReceipt(m.envelope.kind) then [Notice(m.sender, now)] else [])
  }

  function FailedByTtl(m: Message): Message {
    m.(state := Expiry.Failed, nextRetryAt := None, problem := TtlExpired)
  }

  function BackoffSeconds(retries: nat): int {
    BACKOFF_SCHEDULE[if retries < 6 then retries else 6]
  }

  function Backoff(retries: nat): Time {
    BackoffSeconds(retries) * SECOND
  }

  /** What one turn of the loop commits. */
  datatype Visit = Visit(message: Message, notices: seq<Message>, unreachable: bool, attempted: bool)

  /** A failed delivery attempt. */
  function Bump(m: Message, now: Time, problem: Problem): Visit {
    var n := m.retries + 1;
    var next := now + Backoff(n);
    var hook := problem.WebhookError?;
    if next > Deadline(m) then Visit(FailedByTtl(m).(retries := n), Notices(m, now, hook), hook, true)
    else Visit(m.(retries := n, problem := problem, nextRetryAt := Some(next)), [], false, true)
  }

  /** The turn ends in an exception, and with it the batch. */
  predicate Raises(m: Message, now: Time, endpoint: Option<Endpoint>, reply: Reply) {
    || m.envelope.NotAnObject?
    || (m.envelope.Object? && now < Deadline(m) && endpoint == Some(Active) && reply.Raised?)
  }

  function VisitOf(m: Message, now: Time, endpoint: Option<Endpoint>, reply: Reply): Visit {
    if m.envelope.Corrupt? then
      Visit(m.(state := Expiry.Failed, nextRetryAt := None, problem := CorruptedEnvelope), [], false, false)
    else if now >= Deadline(m) then
      var hook := IsWebhookError(m.problem);
      Visit(FailedByTtl(m), Notices(m, now, hook), hook, false)
    else match endpoint
      case Some(Inactive) => Visit(m.(nextRetryAt := None, problem := EndpointUnreachable), [], false, false)
      case None => Bump(m, now, NoEndpoint)
      case Some(Active) =>
        if reply.Accepted? then Visit(m.(state := Expiry.Delivered), [], false, true)
        else Bump(m, now, WebhookError)
  }

  // ----- The table -----

  /** The table, the endpoints by agent, and how many attempts on each message the loop has committed. */
  datatype Db = Db(messages: seq<Message>, endpoints: map<AgentId, Endpoint>, tries: seq<nat>)

  function EndpointOf(endpoints: map<AgentId, Endpoint>, agent: AgentId): Option<Endpoint> {
    if agent in endpoints then Some(endpoints[agent]) else None
  }

  function MarkUnreachable(endpoints: map<AgentId, Endpoint>, agent: AgentId): map<AgentId, Endpoint> {
    if agent in endpoints then endpoints[agent := Inactive] else endpoints
  }

  function Zeros(n: nat): seq<nat> {
    seq(n, _ => 0)
  }

  predicate Shaped(db: Db) {
    |db.tries| == |db.messages|
  }

  function Commit(db: Db, i: nat, v: Visit): (next: Db)
    requires Shaped(db) && i < |db.messages|
    ensures Shaped(next)
  {
    Db(db.messages[i := v.message] + v.notices,
       if v.unreachable then MarkUnreachable(db.endpoints, db.messages[i].receiver) else db.endpoints,
       db.tries[i := db.tries[i] + if v.attempted then 1 else 0] + Zeros(|v.notices|))
  }

  /** A turn without notices. */
  lemma CommitAlone(db: Db, i: nat)
    requires Shaped(db) && i < |db.messages|
    ensures forall m, attempted :: Commit(db, i, Visit(m, [], false, attempted))
              == Db(db.messages[i := m], db.endpoints, db.tries[i := db.tries[i] + if attempted then 1 else 0])
  {
  }

  predicate Chosen(db: Db, selected: seq<nat>, replies: seq<Reply>) {
    |replies| == |selected| && forall k | 0 <= k < |selected| :: selected[k] < |db.messages|
  }

  /** The table after the loop over the selected messages, which stops where a turn raises. */
  function Batch(db: Db, selected: seq<nat>, now: Time, replies: seq<Reply>): (after: Db)
    requires Shaped(db) && Chosen(db, selected, replies)
    ensures Shaped(after)
    decreases |selected|
  {
    if selected == [] then db
    else
      var m := db.messages[selected[0]];
      var endpoint := EndpointOf(db.endpoints, m.receiver);
      if Raises(m, now, endpoint, replies[0]) then db
      else
        var next := Commit(db, selected[0], VisitOf(m, now, endpoint, replies[0]));
        assert forall k | 0 <= k < |selected| - 1 :: selected[1..][k] == selected[k + 1];
        Batch(next, selected[1..], now, replies[1..])
  }

  class RetryLoop {
    var messages: seq<Message>
    var endpoints: map<AgentId, Endpoint>
    ghost var tries: seq<nat>

    ghost function Now(): Db
      reads this
    {
      Db(messages, endpoints, tries)
    }

    constructor (messages: seq<Message>, endpoints: map<AgentId, Endpoint>)
      ensures this.messages == messages && this.endpoints == endpoints && tries == Zeros(|messages|)
    {
      this.messages, this.endpoints, this.tries := messages, endpoints, Zeros(|messages|);
    }

    /** `_store_ttl_error_record` and `_store_endpoint_unreachable_notification` */
    method StoreNotice(to: AgentId, now: Time)
      modifies this
      ensures messages == old(messages) + [Notice(to, now)] && tries == old(tries) + [0]
      ensures endpoints == old(endpoints)
    {
      messages, tries := messages + [Notice(to, now)], tries + [0];
    }

    method MarkEndpointUnreachable(agent: AgentId)
      modifies this
      ensures Now() == old(Now()).(endpoints := MarkUnreachable(old(endpoints), agent))
    {
      if agent in endpoints {
        endpoints := endpoints[agent := Inactive];
      }
    }

    /** The notices and the mark that go with a message that has just failed. */
    method Announce(m: Message, now: Time, unreachable: bool)
      modifies this
      ensures messages == old(messages) + Notices(m, now, unreachable)
      ensures tries == old(tries) + Zeros(|Notices(m, now, unreachable)|)
      ensures endpoints == if unreachable then MarkUnreachable(old(endpoints), m.receiver) else old(endpoints)
    {
      if unreachable {
        MarkEndpointUnreachable(m.receiver);
        StoreNotice(m.receiver, now);
      }
      if m.envelope.Object? && !Expiry.IsReceipt(m.envelope.kind) {
        StoreNotice(m.sender, now);
      }
    }

    /** One failed attempt on message `i`. */
    method CountFailure(i: nat, now: Time, problem: Problem)
      requires Shaped(Now()) && i < |messages|
      modifies this
      ensures Now() == Commit(old(Now()), i, Bump(old(messages[i]), now, problem))
    {
      var m := messages[i];
      CommitAlone(Now(), i);
      var n := m.retries + 1;
      var idx := if n < |BACKOFF_SCHEDULE| - 1 then n else |BACKOFF_SCHEDULE| - 1;
      var next := now + BACKOFF_SCHEDULE[idx] * SECOND;
      tries := tries[i := tries[i] + 1];
      if next > Deadline(m) {
        messages := messages[i := FailedByTtl(m).(retries := n)];
        Announce(m, now, problem.WebhookError?);
      } else {
        messages := messages[i := m.(retries := n, problem := problem, nextRetryAt := Some(next))];
      }
    }

    /** One turn of the loop. */
    method HandleMessage(i: nat, now: Time, reply: Reply) returns (raised: bool)
      requires Shaped(Now()) && i < |messages|
      modifies this
      ensures raised == old(Raises(messages[i], now, EndpointOf(endpoints, messages[i].receiver), reply))
      ensures raised ==> Now() == old(Now())
      ensures !raised ==>
                var visit := old(VisitOf(messages[i], now, EndpointOf(endpoints, messages[i].receiver), reply));
                Now() == Commit(old(Now()), i, visit)
    {
      var m := messages[i];
      CommitAlone(Now(), i);
      if m.envelope.Corrupt? {
        messages := messages[i := m.(state := Expiry.Failed, nextRetryAt := None, problem := CorruptedEnvelope)];
        return false;
      }
      if m.envelope.NotAnObject? {
        return true;
      }
      if now >= Deadline(m) {
        messages := messages[i := FailedByTtl(m)];
        Announce(m, now, IsWebhookError(m.problem));
        return false;
      }
      var endpoint := EndpointOf(endpoints, m.receiver);
      if endpoint == Some(Inactive) {
        messages := messages[i := m.(nextRetryAt := None, problem := EndpointUnreachable)];
        return false;
      }
      if endpoint.None? {
        CountFailure(i, now, NoEndpoint);
        return false;
      }
      assert endpoint == Some(Active);
      match reply {
        case Raised => return true;
        case Accepted =>
          messages := messages[i := m.(state := Expiry.Delivered)];
          tries := tries[i := tries[i] + 1];
        case Refused => CountFailure(i, now, WebhookError);
      }
      raised := false;
    }

    /** `_retry_batch` on the messages the query returned. */
    method RetryBatch(now: Time, selected: seq<nat>, replies: seq<Reply>)
      requires Shaped(Now()) && Chosen(Now(), selected, replies)
      modifies this
      ensures Now() == Batch(old(Now()), selected, now, replies)
    {
      ghost var start := Now();
      for k := 0 to |selected|
        invariant Shaped(Now()) && |messages| >= |start.messages|
        invariant Batch(start, selected, now, replies) == Batch(Now(), selected[k..], now, replies[k..])
      {
        assert selected[k..][1..] == selected[k + 1..] && replies[k..][1..] == replies[k + 1..];
        var raised := HandleMessage(selected[k], now, replies[k]);
        if raised {
          return;
        }
      }
    }
  }

  // ----- Backoff arithmetic -----

  /** Seconds from the creation to the earliest attempt after k failed ones. */
  function Waits(k: nat): int {
    if k == 0 then 0 else Waits(k - 1) + BackoffSeconds(k)
  }

  lemma {:induction false} WaitsLater(k: nat)
    requires k >= 6
    ensures Waits(k) == 122 + 60 * (k - 6)
  {
    if k == 6 {
      assert Waits(1) == 2 && Waits(2) == 6 && Waits(3) == 14 && Waits(4) == 30 && Waits(5) == 62;
    } else {
      WaitsLater(k - 1);
    }
  }

  /** The attempts that fit before a deadline. */
  function MaxAttempts(ttl: int): nat {
    if ttl <= 0 then 0
    else if ttl <= 2 then 1
    else if ttl <= 6 then 2
    else if ttl <= 14 then 3
    else if ttl <= 30 then 4
    else if ttl <= 62 then 5
    else if ttl <= 122 then 6
    else 7 + (ttl - 123) / 60
  }

  lemma MaxAttemptsExactly(ttl: int, k: nat)
    ensures Waits(k) < ttl <==> k < MaxAttempts(ttl)
  {
    assert Waits(1) == 2 && Waits(2) == 6 && Waits(3) == 14 && Waits(4) == 30 && Waits(5) == 62;
    if k >= 6 {
      WaitsLater(k);
    }
  }

  // ----- What one turn does -----

  predicate Parked(m: Message) {
    m.state.Queued? && !m.recalled && m.problem.EndpointUnreachable? && m.nextRetryAt.None?
  }

  /** Whatever a turn schedules lies after now and not after the deadline; otherwise the message is over, or parked. */
  lemma VisitSchedules(m: Message, now: Time, endpoint: Option<Endpoint>, reply: Reply)
    requires Due(m, now)
    ensures var v := VisitOf(m, now, endpoint, reply).message;
            match v.nextRetryAt
            case Some(t) =>
              v.state.Delivered?
              || (v.state.Queued? && now < t <= m.createdAt + m.ttl * 1_000_000 && v.retries == m.retries + 1)
            case None => v.state.Failed? || Parked(v)
  {
  }

  /**
   * How a turn ends.  In time, a message is parked exactly for an endpoint that is not active, and
   * otherwise counts as an attempt; an attempt that is not accepted counts as a retry and fails the
   * message exactly if its backoff would reach past the deadline.
   */
  lemma VisitEnds(m: Message, now: Time, endpoint: Option<Endpoint>, reply: Reply)
    requires Due(m, now) && !Raises(m, now, endpoint, reply)
    ensures var v := VisitOf(m, now, endpoint, reply);
            var deadline := m.createdAt + m.ttl * 1_000_000;
            var inTime := m.envelope.Object? && now < deadline;
            var wait := if m.retries < 5 then [2, 4, 8, 16, 32][m.retries] else 60;
            && (v.attempted <==> inTime && endpoint != Some(Inactive))
            && (Parked(v.message) <==> inTime && endpoint == Some(Inactive))
            && (v.message.state.Delivered? <==> inTime && endpoint == Some(Active) && reply.Accepted?)
            && (v.message.state.Failed? <==>
                  !inTime || (v.attempted && !v.message.state.Delivered? && now + wait * 1_000_000 > deadline))
            && v.message.retries == m.retries + if v.attempted && !v.message.state.Delivered? then 1 else 0
  {
  }

  predicate Told(notices: seq<Message>, to: AgentId) {
    exists n | n in notices :: n.receiver == to
  }

  /** Who hears of a failure: the sender unless it was a receipt, and the receiver if its endpoint is given up. */
  lemma VisitTells(m: Message, now: Time, endpoint: Option<Endpoint>, reply: Reply)
    requires Due(m, now) && !m.problem.TtlExpired? && !Raises(m, now, endpoint, reply)
    ensures var v := VisitOf(m, now, endpoint, reply);
            var failed := v.message.problem.TtlExpired?;
            && (v.unreachable || v.notices != [] ==> failed && v.message.state.Failed?)
            && (v.unreachable <==>
                  failed && if now >= m.createdAt + m.ttl * 1_000_000 then m.problem !in {NoProblem, NoEndpoint}
                            else endpoint == Some(Active))
            && (forall to :: Told(v.notices, to)
                             <==> failed && ((to == m.sender && m.envelope.kind !in {"ack", "result", "error"})
                                             || (to == m.receiver && v.unreachable)))
  {
    var v := VisitOf(m, now, endpoint, reply);
    if v.message.problem.TtlExpired? {
      var both := Notices(m, now, v.unreachable);
      assert v.notices == both;
      if !Expiry.IsReceipt(m.envelope.kind) {
        assert Notice(m.sender, now) in both;
      }
      if v.unreachable {
        assert Notice(m.receiver, now) in both;
      }
    }
  }
}
