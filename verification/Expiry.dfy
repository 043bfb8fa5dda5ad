/**
 * Message expiry (backend/hub/expiry.py): leases that run out, messages that outlive their
 * TTL, and the notices their senders get.
 *
 * Records are named by their position in the table.  Times are whole seconds.
 */
module Expiry {
  import opened Wrappers
  import opened Sorting

  type MsgId = nat
  type AgentId = string
  type Time = int

  const DEFAULT_TTL_SEC: int := 3600
  const LEASE_SECONDS: int := 120
  const BATCH: nat := 100

  datatype State = Queued | Processing | Delivered | Acked | Done | Failed

  /** What json.loads makes of envelope_json. */
  datatype Envelope =
    | Corrupt                                                 // not JSON at all
    | NotAnObject                                             // JSON without a `get`
    | Object(kind: string, ttlNoticeFor: Option<MsgId>)   // `type`, `reply_to` of the hub's own TTL notice

  datatype Error = NoError | TtlExpired | OtherError

  datatype Record = Record(
    msgId: MsgId,
    sender: AgentId,
    receiver: AgentId,
    state: State,
    envelope: Envelope,
    ttl: int,
    createdAt: Time,
    nextRetryAt: Option<Time>,
    recalled: bool,
    lastError: Error,
    ttlFailures: nat)           // history: how often a worker has failed it for its TTL

  // ----- One record -----

  predicate IsReceipt(kind: string) {
    kind == "ack" || kind == "result" || kind == "error"
  }

  /** The WHERE of the expiry query. */
  predicate Expired(r: Record, now: Time) {
    r.state.Queued? && !r.recalled && r.createdAt + r.ttl <= now
  }

  /** The WHERE of the reclaim: a missing deadline never matches. */
  predicate LeaseOver(r: Record, now: Time) {
    r.state.Processing? && r.nextRetryAt.Some? && r.nextRetryAt.value <= now
  }

  /** Messages whose sender hears of an expiry. */
  predicate WantsNotice(r: Record) {
    r.envelope.Object? && !IsReceipt(r.envelope.kind)
  }

  function Reclaimed(r: Record): Record {
    r.(state := Queued, nextRetryAt := None)
  }

  function FailedByTtl(r: Record): Record {
    r.(state := Failed, lastError := TtlExpired, nextRetryAt := None, ttlFailures := r.ttlFailures + 1)
  }

  function Notice(r: Record, uuid: MsgId, now: Time): Record {
    Record(uuid, "hub", r.sender, Queued, Object("error", Some(r.msgId)), DEFAULT_TTL_SEC, now, None, false, NoError, 0)
  }

  // ----- The table -----

  function Reclaim(records: seq<Record>, now: Time): seq<Record> {
    seq(|records|, i requires 0 <= i < |records| =>
      if LeaseOver(records[i], now) then Reclaimed(records[i]) else records[i])
  }

  /** One commit of the batch loop: the record and its notice together. */
  function FailOne(records: seq<Record>, i: nat, now: Time, uuid: MsgId): seq<Record>
    requires i < |records|
  {
    records[i := FailedByTtl(records[i])] + (if WantsNotice(records[i]) then [Notice(records[i], uuid, now)] else [])
  }

  /** `envelope_dict.get` raises AttributeError; nothing of this record is committed. */
  predicate Raises(r: Record) {
    r.envelope.NotAnObject?
  }

  /** The table after the batch loop over the selected records, which stops where it raises. */
  function Batch(records: seq<Record>, selected: seq<nat>, now: Time, uuids: seq<MsgId>): seq<Record>
    requires |uuids| == |selected| && forall k | 0 <= k < |selected| :: selected[k] < |records|
    decreases |selected|
  {
    if selected == [] || Raises(records[selected[0]]) then records
    else
      var next := FailOne(records, selected[0], now, uuids[0]);
      assert forall k | 0 <= k < |selected| - 1 :: selected[1..][k] == selected[k + 1];
      Batch(next, selected[1..], now, uuids[1..])
  }

  lemma BatchOn(records: seq<Record>, selected: seq<nat>, now: Time, uuids: seq<MsgId>)
    requires |uuids| == |selected| && (forall k | 0 <= k < |selected| :: selected[k] < |records|)
    requires selected != [] && !Raises(records[selected[0]])
    ensures var next := FailOne(records, selected[0], now, uuids[0]);
            && (forall k | 0 <= k < |selected[1..]| :: selected[1..][k] < |next|)
            && Batch(records, selected, now, uuids) == Batch(next, selected[1..], now, uuids[1..])
  {
  }

  /** What the loop has made of the table after k turns. */
  ghost predicate ExpiredUpTo(start: seq<Record>, current: seq<Record>, selected: seq<nat>, now: Time,
                              uuids: seq<MsgId>, k: nat)
  {
    && k <= |selected| == |uuids| && |start| <= |current|
    && (forall j | 0 <= j < |selected| :: selected[j] < |start|)
    && (forall i | 0 <= i < |start| :: current[i].envelope == start[i].envelope)
    && (forall j | 0 <= j < k :: !Raises(start[selected[j]]))
    && Batch(start, selected, now, uuids) == Batch(current, selected[k..], now, uuids[k..])
  }

  lemma NoneExpiredYet(start: seq<Record>, selected: seq<nat>, now: Time, uuids: seq<MsgId>)
    requires |uuids| == |selected| && forall j | 0 <= j < |selected| :: selected[j] < |start|
    ensures ExpiredUpTo(start, start, selected, now, uuids, 0)
  {
    assert selected[0..] == selected && uuids[0..] == uuids;
  }

  lemma ExpiredOneMore(start: seq<Record>, current: seq<Record>, selected: seq<nat>, now: Time,
                       uuids: seq<MsgId>, k: nat)
    requires ExpiredUpTo(start, current, selected, now, uuids, k) && k < |selected| && !Raises(current[selected[k]])
    ensures ExpiredUpTo(start, FailOne(current, selected[k], now, uuids[k]), selected, now, uuids, k + 1)
  {
    var rest, ids := selected[k..], uuids[k..];
    BatchOn(current, rest, now, ids);
    assert rest[1..] == selected[k + 1..] && ids[1..] == uuids[k + 1..];
  }

  lemma StoppedAt(start: seq<Record>, current: seq<Record>, selected: seq<nat>, now: Time,
                  uuids: seq<MsgId>, k: nat)
    requires ExpiredUpTo(start, current, selected, now, uuids, k) && k < |selected| && Raises(current[selected[k]])
    ensures current == Batch(start, selected, now, uuids)
    ensures exists i | i in selected :: Raises(start[i])
  {
    assert selected[k] in selected && Raises(start[selected[k]]);
    assert selected[k..][0] == selected[k];
  }

  lemma AllExpired(start: seq<Record>, current: seq<Record>, selected: seq<nat>, now: Time, uuids: seq<MsgId>)
    requires ExpiredUpTo(start, current, selected, now, uuids, |selected|)
    ensures current == Batch(start, selected, now, uuids)
    ensures forall i | i in selected :: !Raises(start[i])
  {
    assert selected[|selected|..] == [];
  }

  /** An answer of the query: at most 100 expired records, oldest first, ties in any order. */
  ghost predicate IsSelection(records: seq<Record>, now: Time, selected: seq<nat>) {
    && (forall k | 0 <= k < |selected| :: selected[k] < |records| && Expired(records[selected[k]], now))
    && (forall j, k | 0 <= j < k < |selected| ::
          selected[j] != selected[k] && records[selected[j]].createdAt <= records[selected[k]].createdAt)
    && |selected| <= BATCH
    && (forall i | 0 <= i < |records| && Expired(records[i], now) && i !in selected ::
          |selected| == BATCH && forall k | k in selected :: records[k].createdAt <= records[i].createdAt)
  }

  class ExpiryLoop {
    var records: seq<Record>

    constructor (records: seq<Record>)
      ensures this.records == records
    {
      this.records := records;
    }

    /** `_reclaim_stale_processing`; returns the records whose receivers are told. */
    method ReclaimStaleProcessing(now: Time) returns (reclaimed: set<nat>)
      modifies this
      ensures records == Reclaim(old(records), now)
      ensures forall i :: i in reclaimed <==> 0 <= i < |old(records)| && LeaseOver(old(records)[i], now)
    {
      reclaimed := {};
      for i := 0 to |records|
        invariant records == old(records)
        invariant forall k :: k in reclaimed <==> 0 <= k < i && LeaseOver(records[k], now)
      {
        if LeaseOver(records[i], now) {
          reclaimed := reclaimed + {i};
        }
      }
      if reclaimed == {} {
        assert records == Reclaim(records, now);
        return;
      }
      records := Reclaim(records, now);
    }

    /** One turn of the loop; true is an exception. */
    method ExpireOne(i: nat, now: Time, uuid: MsgId) returns (raised: bool)
      requires i < |records|
      modifies this
      ensures raised == Raises(old(records)[i])
      ensures records == if raised then old(records) else FailOne(old(records), i, now, uuid)
    {
      var record := records[i];
      match record.envelope {
        case Corrupt =>
          records := records[i := FailedByTtl(record)];
        case NotAnObject =>
          return true;
        case Object(kind, _) =>
          records := records[i := FailedByTtl(record)];
          if !IsReceipt(kind) {
            records := records + [Notice(record, uuid, now)];
          }
      }
      raised := false;
    }

    /** `_expire_batch` on one answer of its query; true is an exception that left the loop. */
    method ExpireBatch(now: Time, selected: seq<nat>, uuids: seq<MsgId>) returns (raised: bool)
      requires IsSelection(records, now, selected) && |uuids| == |selected|
      modifies this
      ensures records == Batch(old(records), selected, now, uuids)
      ensures raised <==> exists i | i in selected :: Raises(old(records)[i])
    {
      ghost var start := records;
      NoneExpiredYet(start, selected, now, uuids);
      for k := 0 to |selected|
        invariant ExpiredUpTo(start, records, selected, now, uuids, k)
      {
        ghost var current := records;
        raised := ExpireOne(selected[k], now, uuids[k]);
        if raised {
          StoppedAt(start, current, selected, now, uuids, k);
          return;
        }
        ExpiredOneMore(start, current, selected, now, uuids, k);
      }
      AllExpired(start, records, selected, now, uuids);
      return false;
    }
  }

  // ----- Progress at a fixed clock -----

  function Count(records: seq<Record>, test: Record -> bool): nat {
    |Filter(records, test)|
  }

  /** How many messages the expiry query still matches. */
  function Backlog(records: seq<Record>, now: Time): nat {
    Count(records, (r: Record) => Expired(r, now))
  }

  lemma {:induction false} CountOfUpdate(records: seq<Record>, i: nat, r: Record, test: Record -> bool)
    requires i < |records|
    ensures Count(records[i := r], test) + (if test(records[i]) then 1 else 0)
            == Count(records, test) + (if test(r) then 1 else 0)
  {
    assert records == records[..i] + ([records[i]] + records[i + 1..]);
    assert records[i := r] == records[..i] + ([r] + records[i + 1..]);
    FilterConcat(records[..i], [records[i]] + records[i + 1..], test);
    FilterConcat(records[..i], [r] + records[i + 1..], test);
    FilterConcat([records[i]], records[i + 1..], test);
    FilterConcat([r], records[i + 1..], test);
  }

  lemma CountOfAppend(records: seq<Record>, r: Record, test: Record -> bool)
    ensures Count(records + [r], test) == Count(records, test) + (if test(r) then 1 else 0)
  {
    FilterConcat(records, [r], test);
  }

  /** What one commit does to any count. */
  lemma CountOfFailOne(records: seq<Record>, i: nat, now: Time, uuid: MsgId, test: Record -> bool)
    requires i < |records|
    ensures Count(FailOne(records, i, now, uuid), test)
            == Count(records, test) - (if test(records[i]) then 1 else 0)
               + (if test(FailedByTtl(records[i])) then 1 else 0)
               + (if WantsNotice(records[i]) && test(Notice(records[i], uuid, now)) then 1 else 0)
  {
    var failed := FailedByTtl(records[i]);
    CountOfUpdate(records, i, failed, test);
    if WantsNotice(records[i]) {
      CountOfAppend(records[i := failed], Notice(records[i], uuid, now), test);
    } else {
      assert FailOne(records, i, now, uuid) == records[i := failed];
    }
  }

  /** A batch without a raising record fails each selected message: the backlog shrinks by as many. */
  lemma {:induction false} BatchDrains(records: seq<Record>, selected: seq<nat>, now: Time, uuids: seq<MsgId>)
    requires |uuids| == |selected|
    requires forall k | 0 <= k < |selected| ::
               selected[k] < |records| && Expired(records[selected[k]], now) && !Raises(records[selected[k]])
    requires forall j, k | 0 <= j < k < |selected| :: selected[j] != selected[k]
    ensures Backlog(Batch(records, selected, now, uuids), now) == Backlog(records, now) - |selected|
    decreases |selected|
  {
    if selected != [] {
      var next := FailOne(records, selected[0], now, uuids[0]);
      CountOfFailOne(records, selected[0], now, uuids[0], (r: Record) => Expired(r, now));
      assert forall k | 0 <= k < |selected| - 1 ::
          selected[1..][k] == selected[k + 1] && selected[k + 1] != selected[0];
      BatchDrains(next, selected[1..], now, uuids[1..]);
    }
  }

  /** No batch invents or repairs an envelope that raises. */
  lemma {:induction false} BatchKeepsEnvelopes(records: seq<Record>, selected: seq<nat>, now: Time, uuids: seq<MsgId>)
    requires |uuids| == |selected| && forall k | 0 <= k < |selected| :: selected[k] < |records|
    ensures var after := Batch(records, selected, now, uuids);
            && |after| >= |records|
            && (forall i | 0 <= i < |records| :: after[i].envelope == records[i].envelope)
            && (forall i | 0 <= i < |records| && Raises(records[i]) :: after[i] == records[i])
            && (forall i | |records| <= i < |after| :: !Raises(after[i]))
    decreases |selected|
  {
    if selected != [] && !Raises(records[selected[0]]) {
      assert forall k | 0 <= k < |selected| - 1 :: selected[1..][k] == selected[k + 1];
      BatchKeepsEnvelopes(FailOne(records, selected[0], now, uuids[0]), selected[1..], now, uuids[1..]);
    }
  }

  /** Expired messages whose envelope makes the loop raise. */
  ghost predicate Poisoned(records: seq<Record>, now: Time) {
    exists i | 0 <= i < |records| :: Expired(records[i], now) && Raises(records[i])
  }

  /** One undisturbed run of the batch loop on some answer of its query. */
  ghost predicate BatchStep(records: seq<Record>, now: Time, next: seq<Record>) {
    exists selected: seq<nat>, uuids: seq<MsgId> | IsSelection(records, now, selected) && |uuids| == |selected| ::
      next == Batch(records, selected, now, uuids)
  }

  /** The tables of successive undisturbed batches at a fixed clock. */
  ghost predicate Batches(tables: seq<seq<Record>>, now: Time) {
    tables != [] && forall k | 0 < k < |tables| :: BatchStep(tables[k - 1], now, tables[k])
  }

  lemma {:induction false} NoneCounted(records: seq<Record>, test: Record -> bool)
    ensures Count(records, test) == 0 <==> forall i | 0 <= i < |records| :: !test(records[i])
  {
    if records != [] {
      NoneCounted(records[1..], test);
      assert records == [records[0]] + records[1..];
      if forall i | 0 <= i < |records| :: !test(records[i]) {
        forall i | 0 <= i < |records[1..]| ensures !test(records[1..][i]) {
          assert records[1..][i] == records[i + 1];
        }
      }
    }
  }

  /** A batch that nothing stops leaves no selected record expired, and its notices are not. */
  lemma {:induction false} BatchFailsItsRecords(records: seq<Record>, selected: seq<nat>, now: Time, uuids: seq<MsgId>)
    requires |uuids| == |selected|
    requires forall k | 0 <= k < |selected| :: selected[k] < |records| && !Raises(records[selected[k]])
    ensures var after := Batch(records, selected, now, uuids);
            && |after| >= |records|
            && (forall i | 0 <= i < |records| ::
                  if i in selected then after[i].state.Failed? else after[i] == records[i])
            && (forall i | |records| <= i < |after| :: !Expired(after[i], now))
    decreases |selected|
  {
    if selected != [] {
      var next := FailOne(records, selected[0], now, uuids[0]);
      assert forall k | 0 <= k < |selected| - 1 :: selected[1..][k] == selected[k + 1];
      assert forall i :: i in selected <==> i == selected[0] || i in selected[1..];
      BatchFailsItsRecords(next, selected[1..], now, uuids[1..]);
      var after := Batch(next, selected[1..], now, uuids[1..]);
      forall i | |records| <= i < |after| ensures !Expired(after[i], now) {
        if i < |next| {
          assert next[i] == Notice(records[selected[0]], uuids[0], now);
        }
      }
    }
  }

  /** One undisturbed batch fails 100 expired messages, or all of them if there are fewer. */
  lemma BatchTakesAHundred(records: seq<Record>, selected: seq<nat>, now: Time, uuids: seq<MsgId>)
    requires IsSelection(records, now, selected) && |uuids| == |selected| && !Poisoned(records, now)
    ensures var after := Batch(records, selected, now, uuids);
            && Backlog(after, now) == (if Backlog(records, now) <= BATCH then 0 else Backlog(records, now) - BATCH)
            && !Poisoned(after, now)
  {
    BatchDrains(records, selected, now, uuids);
    BatchFailsItsRecords(records, selected, now, uuids);
    BatchKeepsEnvelopes(records, selected, now, uuids);
    var after := Batch(records, selected, now, uuids);
    if |selected| < BATCH {
      forall i | 0 <= i < |after| ensures !Expired(after[i], now) {
        if i < |records| && i !in selected {
          assert after[i] == records[i];
        }
      }
    }
    NoneCounted(after, (r: Record) => Expired(r, now));
  }

  lemma StepTakesAHundred(records: seq<Record>, now: Time, next: seq<Record>)
    requires BatchStep(records, now, next) && !Poisoned(records, now)
    ensures Backlog(next, now) == (if Backlog(records, now) <= 100 then 0 else Backlog(records, now) - 100)
    ensures !Poisoned(next, now)
  {
    var selected: seq<nat>, uuids: seq<MsgId> :|
      IsSelection(records, now, selected) && |uuids| == |selected| && next == Batch(records, selected, now, uuids);
    BatchTakesAHundred(records, selected, now, uuids);
  }

  /** With nothing that raises, k batches fail the 100 * k oldest expired messages, or all. */
  lemma {:induction false} BatchesDrain(tables: seq<seq<Record>>, now: Time, k: nat)
    requires Batches(tables, now) && !Poisoned(tables[0], now) && k < |tables|
    ensures !Poisoned(tables[k], now)
    ensures Backlog(tables[k], now)
            == if Backlog(tables[0], now) <= 100 * k then 0 else Backlog(tables[0], now) - 100 * k
  {
    if k > 0 {
      BatchesDrain(tables, now, k - 1);
      StepTakesAHundred(tables[k - 1], now, tables[k]);
    }
  }

  // ----- In the fields of a record -----

  /** Messages that are not receipts. */
  predicate IsMessage(r: Record) {
    r.envelope.Object? && r.envelope.kind != "ack" && r.envelope.kind != "result" && r.envelope.kind != "error"
  }

  /** A notice from the hub to a message's sender that its TTL is over. */
  predicate TellsOf(n: Record, r: Record) {
    && n.sender == "hub" && n.receiver == r.sender && n.state.Queued? && n.nextRetryAt.None? && !n.recalled
    && n.envelope == Object("error", Some(r.msgId)) && n.ttl == 3600
  }

  /** The selected records that are messages. */
  function Messages(records: seq<Record>, selected: seq<nat>): seq<nat> {
    Filter(selected, (i: nat) => i < |records| && IsMessage(records[i]))
  }

  ghost predicate SameContents(origin: seq<Record>, records: seq<Record>) {
    |origin| <= |records| && forall i | 0 <= i < |origin| ::
      && records[i].envelope == origin[i].envelope
      && records[i].msgId == origin[i].msgId && records[i].sender == origin[i].sender
  }

  lemma {:induction false} BatchKeepsOthers(records: seq<Record>, selected: seq<nat>, now: Time, uuids: seq<MsgId>)
    requires |uuids| == |selected| && forall k | 0 <= k < |selected| :: selected[k] < |records|
    ensures var after := Batch(records, selected, now, uuids);
            |after| >= |records| && forall i | 0 <= i < |records| && i !in selected :: after[i] == records[i]
    decreases |selected|
  {
    if selected != [] && !Raises(records[selected[0]]) {
      assert forall k | 0 <= k < |selected| - 1 :: selected[1..][k] == selected[k + 1];
      assert forall i :: i in selected <==> i == selected[0] || i in selected[1..];
      BatchKeepsOthers(FailOne(records, selected[0], now, uuids[0]), selected[1..], now, uuids[1..]);
    }
  }

  lemma {:induction false} NoticesInOrder(origin: seq<Record>, records: seq<Record>, selected: seq<nat>, now: Time,
                                          uuids: seq<MsgId>)
    requires |uuids| == |selected| && SameContents(origin, records)
    requires forall k | 0 <= k < |selected| :: selected[k] < |origin| && !Raises(origin[selected[k]])
    ensures var told, after := Messages(origin, selected), Batch(records, selected, now, uuids);
            |after| == |records| + |told| && NoticesAt(after, |records|, told, origin)
    decreases |selected|
  {
    if selected != [] {
      var i := selected[0];
      var next := FailOne(records, i, now, uuids[0]);
      assert forall k | 0 <= k < |selected| - 1 :: selected[1..][k] == selected[k + 1];
      ContentsStay(origin, records, i, now, uuids[0]);
      NoticesInOrder(origin, next, selected[1..], now, uuids[1..]);
      BatchKeepsOthers(next, selected[1..], now, uuids[1..]);
      BatchOn(records, selected, now, uuids);
      MessagesOn(origin, selected);
      var rest, after := Messages(origin, selected[1..]), Batch(next, selected[1..], now, uuids[1..]);
      assert |records| < |next| ==> after[|records|] == next[|records|];
      OneNotice(origin, records, i, now, uuids[0], after, rest);
    }
  }

  lemma MessagesOn(records: seq<Record>, selected: seq<nat>)
    requires selected != [] && selected[0] < |records|
    ensures Messages(records, selected)
            == (if IsMessage(records[selected[0]]) then [selected[0]] else []) + Messages(records, selected[1..])
  {
  }

  /** The first commit's notice, if there is one, before those of the rest. */
  lemma OneNotice(origin: seq<Record>, records: seq<Record>, i: nat, now: Time, uuid: MsgId, after: seq<Record>,
                  rest: seq<nat>)
    requires SameContents(origin, records) && i < |origin|
    requires var next := FailOne(records, i, now, uuid);
             && |after| == |next| + |rest| && NoticesAt(after, |next|, rest, origin)
             && (|records| < |next| ==> after[|records|] == next[|records|])
    ensures var told := (if IsMessage(origin[i]) then [i] else []) + rest;
            |after| == |records| + |told| && NoticesAt(after, |records|, told, origin)
  {
    if IsMessage(origin[i]) {
      assert after[|records|] == Notice(records[i], uuid, now);
      NoticesCons(after, |records|, i, rest, origin);
    } else {
      assert [] + rest == rest;
    }
  }

  lemma ContentsStay(origin: seq<Record>, records: seq<Record>, i: nat, now: Time, uuid: MsgId)
    requires SameContents(origin, records) && i < |records|
    ensures SameContents(origin, FailOne(records, i, now, uuid))
  {
  }

  /** From place n on the records tell of these messages, one each. */
  ghost predicate NoticesAt(after: seq<Record>, n: nat, told: seq<nat>, origin: seq<Record>) {
    forall k | 0 <= k < |told| ::
      told[k] < |origin| && n + k < |after| && TellsOf(after[n + k], origin[told[k]])
  }

  lemma NoticesCons(after: seq<Record>, n: nat, i: nat, rest: seq<nat>, origin: seq<Record>)
    requires n < |after| && i < |origin| && TellsOf(after[n], origin[i]) && NoticesAt(after, n + 1, rest, origin)
    ensures NoticesAt(after, n, [i] + rest, origin)
  {
    var told := [i] + rest;
    forall k | 0 <= k < |told|
      ensures told[k] < |origin| && n + k < |after| && TellsOf(after[n + k], origin[told[k]])
    {
      if k > 0 {
        assert told[k] == rest[k - 1] && after[n + k] == after[n + 1 + (k - 1)];
      }
    }
  }

  /**
   * A batch that nothing stops adds exactly one notice for each selected message that is not a
   * receipt, in order and to its sender, and no other record.
   */
  lemma BatchNotifiesMessages(records: seq<Record>, selected: seq<nat>, now: Time, uuids: seq<MsgId>)
    requires |uuids| == |selected|
    requires forall k | 0 <= k < |selected| :: selected[k] < |records| && !Raises(records[selected[k]])
    ensures var told, after := Messages(records, selected), Batch(records, selected, now, uuids);
            && |after| == |records| + |told|
            && forall k | 0 <= k < |told| :: told[k] < |records| && TellsOf(after[|records| + k], records[told[k]])
  {
    NoticesInOrder(records, records, selected, now, uuids);
  }

  /**
   * A batch with room for all fails exactly the queued messages, not recalled, whose TTL is over;
   * every other record stays as it is.
   */
  lemma BatchFailsExactlyTheExpired(records: seq<Record>, selected: seq<nat>, now: Time, uuids: seq<MsgId>, i: nat)
    requires IsSelection(records, now, selected) && |uuids| == |selected| && |selected| < 100
    requires !Poisoned(records, now) && i < |records|
    ensures var r, after := records[i], Batch(records, selected, now, uuids);
            && i < |after|
            && if r.state.Queued? && !r.recalled && r.createdAt + r.ttl <= now
               then after[i].state.Failed? && after[i].lastError.TtlExpired? && after[i].nextRetryAt.None?
               else after[i] == r
  {
    BatchKeepsOthers(records, selected, now, uuids);
    if i in selected {
      FailedInBatch(records, selected, now, uuids, i);
    }
  }

  lemma {:induction false} FailedInBatch(records: seq<Record>, selected: seq<nat>, now: Time, uuids: seq<MsgId>, i: nat)
    requires |uuids| == |selected| && i in selected
    requires forall k | 0 <= k < |selected| :: selected[k] < |records| && !Raises(records[selected[k]])
    ensures var after := Batch(records, selected, now, uuids);
            i < |after| && after[i].state.Failed? && after[i].lastError.TtlExpired? && after[i].nextRetryAt.None?
    decreases |selected|
  {
    var next := FailOne(records, selected[0], now, uuids[0]);
    assert forall k | 0 <= k < |selected| - 1 :: selected[1..][k] == selected[k + 1];
    if i in selected[1..] {
      FailedInBatch(next, selected[1..], now, uuids[1..], i);
    } else {
      BatchKeepsOthers(next, selected[1..], now, uuids[1..]);
    }
  }

  /** A reclaim requeues exactly the processing messages whose deadline has come, and touches nothing else. */
  lemma ReclaimExactly(records: seq<Record>, now: Time, i: nat)
    requires i < |records|
    ensures var r, after := records[i], Reclaim(records, now);
            && |after| == |records|
            && if r.state.Processing? && r.nextRetryAt.Some? && r.nextRetryAt.value <= now
               then after[i] == r.(state := Queued, nextRetryAt := None)
               else after[i] == r
  {
  }

  // ----- A message that raises is never failed -----

  lemma StepKeepsPoison(records: seq<Record>, now: Time, next: seq<Record>, i: nat)
    requires BatchStep(records, now, next) && i < |records| && Raises(records[i])
    ensures i < |next| && next[i] == records[i]
  {
    var selected: seq<nat>, uuids: seq<MsgId> :|
      IsSelection(records, now, selected) && |uuids| == |selected| && next == Batch(records, selected, now, uuids);
    BatchKeepsEnvelopes(records, selected, now, uuids);
  }

  lemma {:induction false} PoisonStays(tables: seq<seq<Record>>, now: Time, k: nat, i: nat)
    requires Batches(tables, now) && k < |tables|
    requires i < |tables[0]| && Expired(tables[0][i], now) && Raises(tables[0][i])
    ensures i < |tables[k]| && tables[k][i] == tables[0][i]
    ensures Backlog(tables[k], now) > 0
  {
    if k > 0 {
      PoisonStays(tables, now, k - 1, i);
      StepKeepsPoison(tables[k - 1], now, tables[k], i);
    }
    NoneCounted(tables[k], (r: Record) => Expired(r, now));
  }

  lemma StepBlocked(records: seq<Record>, now: Time, next: seq<Record>, i: nat)
    requires BatchStep(records, now, next) && i < |records| && Expired(records[i], now) && Raises(records[i])
    requires forall k | 0 <= k < |records| && k != i && Expired(records[k], now) ::
                records[i].createdAt < records[k].createdAt
    ensures next == records
  {
    var selected: seq<nat>, uuids: seq<MsgId> :|
      IsSelection(records, now, selected) && |uuids| == |selected| && next == Batch(records, selected, now, uuids);
    OldestIsFirst(records, now, selected, i);
  }

  /** If it is the oldest expired message, it keeps every other one from expiring too. */
  lemma {:induction false} OldestPoisonBlocksAll(tables: seq<seq<Record>>, now: Time, k: nat, i: nat)
    requires Batches(tables, now) && k < |tables|
    requires i < |tables[0]| && Expired(tables[0][i], now) && Raises(tables[0][i])
    requires forall j | 0 <= j < |tables[0]| && j != i && Expired(tables[0][j], now) ::
               tables[0][i].createdAt < tables[0][j].createdAt
    ensures tables[k] == tables[0]
  {
    if k > 0 {
      OldestPoisonBlocksAll(tables, now, k - 1, i);
      StepBlocked(tables[k - 1], now, tables[k], i);
    }
  }

  lemma OldestIsFirst(records: seq<Record>, now: Time, selected: seq<nat>, i: nat)
    requires IsSelection(records, now, selected) && i < |records| && Expired(records[i], now)
    requires forall k | 0 <= k < |records| && k != i && Expired(records[k], now) ::
                records[i].createdAt < records[k].createdAt
    ensures selected != [] && selected[0] == i
  {
    if i !in selected {
      assert |selected| == BATCH && selected[0] in selected;
    } else {
      var k :| 0 <= k < |selected| && selected[k] == i;
      assert records[selected[0]].createdAt <= records[selected[k]].createdAt;
    }
  }

  // ----- Draining in ceil(n / 100) batches: exactly when nothing raises -----

  function CreatedAt(records: seq<Record>, i: nat): Time {
    if i < |records| then records[i].createdAt else 0
  }

  lemma {:induction false} FilteredIndices(n: nat, keep: nat -> bool) returns (kept: seq<nat>)
    ensures forall i: nat :: i in kept <==> i < n && keep(i)
    ensures forall j, k | 0 <= j < k < |kept| :: kept[j] != kept[k]
  {
    kept := [];
    if n > 0 {
      kept := FilteredIndices(n - 1, keep);
      if keep(n - 1) {
        kept := kept + [n - 1];
      }
    }
  }

  lemma {:induction false} DistinctIsOnce(s: seq<nat>)
    requires forall j, k | 0 <= j < k < |s| :: s[j] != s[k]
    ensures forall i | i in s :: multiset(s)[i] == 1
  {
    if s != [] {
      DistinctIsOnce(s[1..]);
      assert s == [s[0]] + s[1..];
    }
  }

  lemma {:induction false} OnceIsDistinct(s: seq<nat>)
    requires forall i | i in s :: multiset(s)[i] == 1
    ensures forall j, k | 0 <= j < k < |s| :: s[j] != s[k]
  {
    if s != [] {
      assert s == [s[0]] + s[1..];
      forall i | i in s[1..] ensures multiset(s[1..])[i] == 1 && i != s[0] {
        assert i in s && multiset(s)[i] == (if i == s[0] then 1 else 0) + multiset(s[1..])[i];
      }
      OnceIsDistinct(s[1..]);
      forall j, k | 0 <= j < k < |s| ensures s[j] != s[k] {
        assert s[k] == s[1..][k - 1] && s[1..][k - 1] in s[1..];
        assert j > 0 ==> s[j] == s[1..][j - 1];
      }
    }
  }

  /** The expired records, oldest first. */
  lemma OldestFirst(records: seq<Record>, now: Time) returns (sorted: seq<nat>)
    ensures forall i: nat :: i in sorted <==> i < |records| && Expired(records[i], now)
    ensures forall j, k | 0 <= j < k < |sorted| ::
              sorted[j] != sorted[k] && CreatedAt(records, sorted[j]) <= CreatedAt(records, sorted[k])
  {
    var expired := FilteredIndices(|records|, (i: nat) => i < |records| && Expired(records[i], now));
    var older := (i: nat, j: nat) => CreatedAt(records, i) <= CreatedAt(records, j);
    sorted := StableSort(expired, older);
    SortIsSortedPermutation(expired, older);
    SameMembers(sorted, expired);
    DistinctIsOnce(expired);
    OnceIsDistinct(sorted);
    forall j, k | 0 <= j < k < |sorted| ensures CreatedAt(records, sorted[j]) <= CreatedAt(records, sorted[k]) {
      assert older(sorted[j], sorted[k]);
    }
  }

  lemma SameMembers(s: seq<nat>, t: seq<nat>)
    requires multiset(s) == multiset(t)
    ensures forall i: nat :: i in s <==> i in t
  {
    forall i: nat ensures i in s <==> i in t {
      assert i in multiset(s) <==> i in multiset(t);
    }
  }

  /** The query always has an answer. */
  lemma SomeSelection(records: seq<Record>, now: Time) returns (selected: seq<nat>)
    ensures IsSelection(records, now, selected)
  {
    var sorted := OldestFirst(records, now);
    assert forall k | 0 <= k < |sorted| :: sorted[k] in sorted;
    selected := if |sorted| <= BATCH then sorted else sorted[..BATCH];
    forall i | 0 <= i < |records| && Expired(records[i], now) && i !in selected
      ensures |selected| == BATCH && forall k | k in selected :: records[k].createdAt <= records[i].createdAt
    {
      var at :| 0 <= at < |sorted| && sorted[at] == i;
      forall k | k in selected ensures records[k].createdAt <= records[i].createdAt {
        var before :| 0 <= before < |selected| && selected[before] == k;
        assert before < at;
      }
    }
  }

  lemma {:induction false} SomeBatches(records: seq<Record>, now: Time, count: nat) returns (tables: seq<seq<Record>>)
    ensures Batches(tables, now) && |tables| == count + 1 && tables[0] == records
  {
    if count == 0 {
      tables := [records];
    } else {
      tables := SomeBatches(records, now, count - 1);
      var last := tables[count - 1];
      var selected := SomeSelection(last, now);
      var uuids: seq<MsgId> := seq(|selected|, _ => 0);
      assert BatchStep(last, now, Batch(last, selected, now, uuids));
      tables := tables + [Batch(last, selected, now, uuids)];
    }
  }

  /** ceil(n / 100) */
  function BatchesNeeded(n: nat): nat {
    (n + BATCH - 1) / BATCH
  }

  /**
   * At a fixed clock the expired messages are all failed after ceil(n / 100) undisturbed
   * batches if and only if none of them has an envelope that is JSON but not an object.
   */
  lemma DrainsExactlyWithoutPoison(records: seq<Record>, now: Time)
    ensures var needed := BatchesNeeded(Backlog(records, now));
            (forall tables | Batches(tables, now) && tables[0] == records && |tables| == needed + 1 ::
               Backlog(tables[needed], now) == 0)
            <==> !Poisoned(records, now)
  {
    var needed := BatchesNeeded(Backlog(records, now));
    if Poisoned(records, now) {
      var i :| 0 <= i < |records| && Expired(records[i], now) && Raises(records[i]);
      var tables := SomeBatches(records, now, needed);
      PoisonStays(tables, now, needed, i);
    } else {
      forall tables | Batches(tables, now) && tables[0] == records && |tables| == needed + 1
        ensures Backlog(tables[needed], now) == 0
      {
        BatchesDrain(tables, now, needed);
      }
    }
  }
}
