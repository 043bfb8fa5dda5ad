/**
 * The run hash of the owner-chat cache (backend/hub/owner_chat_cache.py), which appenders and
 * completion signals read and write without a transaction.
 */
module OwnerChat {
  import opened Wrappers
  import opened OwnerChatBlocks

  // ----- Runs -----

  datatype Status = Running | Completed | Failed

  /** The run hash; a hash that a late write created has no status. */
  datatype Run = Run(status: Option<Status>, finalId: string, count: nat)

  /** What a request has read and not yet written. */
  datatype Pending =
    | Idle
    | Counted(count: nat)          // read event_count, below the cap
    | Added(count: nat)            // and wrote to the stream
    | SawRunning(finalId: string)  // completion: read status "running"
    | SawRun                       // failure: the hash exists

  /** `appended` counts the events ever written to the stream. */
  datatype World = World(run: Option<Run>, appended: nat, workers: seq<Pending>)

  datatype Step =
    | Create                          // write_run_metadata
    | Disappear                       // the keys time out
    | ReadCount(w: nat)
    | AddEvent(w: nat)
    | WriteCount(w: nat)
    | ReadStatus(w: nat, finalId: string)
    | Complete(w: nat)
    | ReadExists(w: nat)
    | Fail(w: nat)

  function CountOf(run: Option<Run>): nat {
    if run.Some? then run.value.count else 0
  }

  /** The hash a write finds or creates. */
  function Hash(run: Option<Run>): Run {
    run.GetOr(Run(None, "", 0))
  }

  predicate Enabled(w: World, s: Step) {
    match s
    case Create => true
    case Disappear => true
    case ReadCount(i) => i < |w.workers| && w.workers[i].Idle?
    case AddEvent(i) => i < |w.workers| && w.workers[i].Counted?
    case WriteCount(i) => i < |w.workers| && w.workers[i].Added?
    case ReadStatus(i, _) => i < |w.workers| && w.workers[i].Idle?
    case Complete(i) => i < |w.workers| && w.workers[i].SawRunning?
    case ReadExists(i) => i < |w.workers| && w.workers[i].Idle?
    case Fail(i) => i < |w.workers| && w.workers[i].SawRun?
  }

  function Turn(w: World, i: nat, p: Pending): World
    requires i < |w.workers|
  {
    w.(workers := w.workers[i := p])
  }

  /** `cap` is OWNER_CHAT_MAX_CACHED_EVENTS. */
  function Next(w: World, s: Step, cap: nat): World
    requires Enabled(w, s)
  {
    match s
    case Create => w.(run := Some(Run(Some(Running), "", 0)))
    case Disappear => w.(run := None)
    case ReadCount(i) => if CountOf(w.run) >= cap then w else Turn(w, i, Counted(CountOf(w.run)))
    case AddEvent(i) => Turn(w, i, Added(w.workers[i].count)).(appended := w.appended + 1)
    case WriteCount(i) => Turn(w, i, Idle).(run := Some(Hash(w.run).(count := w.workers[i].count + 1)))
    case ReadStatus(i, id) =>
      if w.run.Some? && w.run.value.status == Some(Running) then Turn(w, i, SawRunning(id)) else w
    case Complete(i) =>
      var id := w.workers[i].finalId;
      var completed := Hash(w.run).(status := Some(Completed));
      Turn(w, i, Idle).(run := Some(if id == "" then completed else completed.(finalId := id)))
    case ReadExists(i) => if w.run.Some? then Turn(w, i, SawRun) else w
    case Fail(i) => Turn(w, i, Idle).(run := Some(Hash(w.run).(status := Some(Failed))))
  }

  function Init(workers: nat): World {
    World(None, 0, seq(workers, _ => Idle))
  }

  /** A run whose completion signals carry only these message ids. */
  predicate IsRun(w: World, run: seq<Step>, cap: nat, ids: set<string>)
    decreases |run|
  {
    run == [] || (Enabled(w, run[0]) && (run[0].ReadStatus? ==> run[0].finalId in ids)
          && IsRun(Next(w, run[0], cap), run[1..], cap, ids))
  }

  function After(w: World, run: seq<Step>, cap: nat, ids: set<string>): World
    requires IsRun(w, run, cap, ids)
    decreases |run|
  {
    if run == [] then w else After(Next(w, run[0], cap), run[1..], cap, ids)
  }

  /** What AppendEvent leaves is what one worker's three steps leave. */
  lemma AppendSteps(w: World, cap: nat)
    requires w.workers == [Idle] && CountOf(w.run) < cap
    ensures var steps := [ReadCount(0), AddEvent(0), WriteCount(0)];
            && IsRun(w, steps, cap, {})
            && After(w, steps, cap, {})
               == World(Some(Hash(w.run).(count := CountOf(w.run) + 1)), w.appended + 1, [Idle])
  {
    var read := Next(w, ReadCount(0), cap);
    var added := Next(read, AddEvent(0), cap);
    var steps := Prepend(added, WriteCount(0), [], cap, {});
    steps := Prepend(read, AddEvent(0), steps, cap, {});
    steps := Prepend(w, ReadCount(0), steps, cap, {});
    assert Next(added, WriteCount(0), cap).workers == [Idle];
  }

  /** What MarkRunCompleted leaves is what one worker's two steps leave. */
  lemma CompleteSteps(w: World, finalId: string, cap: nat)
    requires w.workers == [Idle]
    ensures if w.run.Some? && w.run.value.status == Some(Running) then
              var steps := [ReadStatus(0, finalId), Complete(0)];
              var id := if finalId == "" then w.run.value.finalId else finalId;
              && IsRun(w, steps, cap, {finalId})
              && After(w, steps, cap, {finalId})
                 == w.(run := Some(w.run.value.(status := Some(Completed), finalId := id)))
            else Next(w, ReadStatus(0, finalId), cap) == w
  {
    var read := Next(w, ReadStatus(0, finalId), cap);
    if w.run.Some? && w.run.value.status == Some(Running) {
      var steps := Prepend(read, Complete(0), [], cap, {finalId});
      steps := Prepend(w, ReadStatus(0, finalId), steps, cap, {finalId});
      assert Next(read, Complete(0), cap).workers == [Idle];
    }
  }

  /** What MarkRunFailed leaves is what one worker's two steps leave. */
  lemma FailSteps(w: World, cap: nat)
    requires w.workers == [Idle]
    ensures if w.run.Some? then
              var steps := [ReadExists(0), Fail(0)];
              && IsRun(w, steps, cap, {})
              && After(w, steps, cap, {}) == w.(run := Some(w.run.value.(status := Some(Failed))))
            else Next(w, ReadExists(0), cap) == w
  {
    var read := Next(w, ReadExists(0), cap);
    if w.run.Some? {
      var steps := Prepend(read, Fail(0), [], cap, {});
      steps := Prepend(w, ReadExists(0), steps, cap, {});
      assert Next(read, Fail(0), cap).workers == [Idle];
    }
  }

  /** The functions of the cache as they run when nothing comes between their reads and writes. */
  class Cache {
    const cap: nat
    const maxBytes: nat
    var run: Option<Run>
    var stream: seq<Event>
    ghost var before: nat   // events appended before the run was made

    ghost predicate Valid()
      reads this
    {
      run.Some? ==> run.value.count <= cap && before + run.value.count == |stream|
    }

    ghost function Seen(): World
      reads this
    {
      World(run, |stream|, [Idle])
    }

    constructor (cap: nat, maxBytes: nat)
      ensures Valid() && this.cap == cap && this.maxBytes == maxBytes && stream == [] && Seen() == Init(1)
    {
      this.cap, this.maxBytes, run, stream, before := cap, maxBytes, None, [], 0;
    }

    method WriteRunMetadata()
      requires Valid()
      modifies this
      ensures Valid() && Seen() == Next(old(Seen()), Create, cap) && stream == old(stream)
    {
      run := Some(Run(Some(Running), "", 0));
      before := |stream|;
    }

    /** XADD, and HSET of the count read before. */
    method AddToStream(event: Event, count: nat)
      requires Valid() && count == CountOf(run) < cap
      modifies this
      ensures Valid() && stream == old(stream) + [event] && run == Some(Hash(old(run)).(count := count + 1))
    {
      if run.None? {
        before := |stream|;
      }
      stream := stream + [event];
      run := Some(Hash(run).(count := count + 1));
    }

    /**
     * `append_event`: the compact block to broadcast, or None if the run is full.  A missing hash is
     * made again by the write, with a count of one.
     */
    method AppendEvent(block: Json) returns (cached: Option<Json>)
      requires Valid()
      modifies this
      ensures Valid() && (cached.None? <==> CountOf(old(run)) >= cap)
      ensures cached.None? ==> run == old(run) && stream == old(stream)
      ensures cached.Some? ==>
                var event := CappedEvent(Compact(block), maxBytes);
                cached == Some(event.block) && stream == old(stream) + [event]
                && run == Some(Hash(old(run)).(count := CountOf(old(run)) + 1))
    {
      var count := CountOf(run);
      if count >= cap {
        return None;
      }
      var event := EnforceEventByteCap(Compact(block), maxBytes);
      AddToStream(event, count);
      cached := Some(event.block);
    }

    /** `mark_run_completed`: the first signal wins. */
    method MarkRunCompleted(finalId: string)
      requires Valid()
      modifies this
      ensures Valid() && stream == old(stream)
      ensures if old(run.Some? && run.value.status == Some(Running))
              then var id := if finalId == "" then old(run.value.finalId) else finalId;
                   run == Some(old(run.value).(status := Some(Completed), finalId := id))
              else run == old(run)
    {
      if run.None? || run.value.status != Some(Running) {
        return;
      }
      var completed := run.value.(status := Some(Completed));
      run := Some(if finalId == "" then completed else completed.(finalId := finalId));
    }

    /** `mark_run_failed`: also a completed run becomes failed, and keeps its message id. */
    method MarkRunFailed()
      requires Valid()
      modifies this
      ensures Valid() && stream == old(stream)
      ensures run == if old(run).None? then None else Some(old(run.value).(status := Some(Failed)))
    {
      if run.Some? {
        run := Some(run.value.(status := Some(Failed)));
      }
    }
  }

  /** The events that a worker's next write accounts for. */
  function Claimed(p: Pending): nat {
    match p
    case Counted(c) => c
    case Added(c) => c + 1
    case _ => 0
  }

  ghost predicate Inv(w: World, cap: nat, ids: set<string>) {
    CommonInv(w, cap, ids) && (|w.workers| <= 1 ==> AloneInv(w))
  }

  ghost predicate CommonInv(w: World, cap: nat, ids: set<string>) {
    && CountOf(w.run) <= cap && CountOf(w.run) <= w.appended
    && (forall i | 0 <= i < |w.workers| :: Claimed(w.workers[i]) <= w.appended)
    && (forall i | 0 <= i < |w.workers| && (w.workers[i].Counted? || w.workers[i].Added?) :: w.workers[i].count < cap)
    && (forall i | 0 <= i < |w.workers| && w.workers[i].SawRunning? :: w.workers[i].finalId in ids)
    && (w.run.Some? ==> w.run.value.finalId == "" || w.run.value.finalId in ids)
    && (w.run.Some? && w.run.value.status == Some(Running) ==> w.run.value.finalId == "")
  }

  /** With one worker nothing comes between its read and its write, except that the keys are made anew. */
  ghost predicate AloneInv(w: World) {
    forall i | 0 <= i < |w.workers| ::
      && (w.workers[i].SawRunning? && w.run.Some? ==> w.run.value.finalId == "")
      && (w.workers[i].Counted? || w.workers[i].Added? ==> w.run.Some? ==> CountOf(w.run) <= w.workers[i].count)
  }

  lemma InvStep(w: World, s: Step, cap: nat, ids: set<string>)
    requires Inv(w, cap, ids) && Enabled(w, s) && (s.ReadStatus? ==> s.finalId in ids)
    ensures Inv(Next(w, s, cap), cap, ids)
  {
    CommonStep(w, s, cap, ids);
    if |w.workers| <= 1 {
      AloneStep(w, s, cap, ids);
    }
  }

  lemma CommonStep(w: World, s: Step, cap: nat, ids: set<string>)
    requires CommonInv(w, cap, ids) && Enabled(w, s) && (s.ReadStatus? ==> s.finalId in ids)
    ensures CommonInv(Next(w, s, cap), cap, ids)
  {
  }

  lemma AloneStep(w: World, s: Step, cap: nat, ids: set<string>)
    requires CommonInv(w, cap, ids) && AloneInv(w) && Enabled(w, s) && |w.workers| <= 1
    ensures AloneInv(Next(w, s, cap))
  {
  }

  lemma {:induction false} RunKeepsInv(w: World, run: seq<Step>, cap: nat, ids: set<string>)
    requires Inv(w, cap, ids) && IsRun(w, run, cap, ids)
    ensures Inv(After(w, run, cap, ids), cap, ids)
    ensures |After(w, run, cap, ids).workers| == |w.workers|
    decreases |run|
  {
    if run != [] {
      InvStep(w, run[0], cap, ids);
      RunKeepsInv(Next(w, run[0], cap), run[1..], cap, ids);
    }
  }

  /**
   * However the appenders interleave, the recorded count stays below the cap and counts no event that was not
   * appended.
   */
  lemma CountIsBounded(workers: nat, run: seq<Step>, cap: nat, ids: set<string>)
    requires IsRun(Init(workers), run, cap, ids)
    ensures var w := After(Init(workers), run, cap, ids); CountOf(w.run) <= cap && CountOf(w.run) <= w.appended
  {
    RunKeepsInv(Init(workers), run, cap, ids);
  }

  // ----- How long a completion lasts -----

  predicate IsCompleted(w: World) {
    w.run.Some? && w.run.value.status == Some(Completed)
  }

  /** The run is completed in every world. */
  predicate AlwaysCompleted(w: World, run: seq<Step>, cap: nat, ids: set<string>)
    requires IsRun(w, run, cap, ids)
    decreases |run|
  {
    IsCompleted(w) && (run == [] || AlwaysCompleted(Next(w, run[0], cap), run[1..], cap, ids))
  }

  lemma CompletedLostExactly(w: World, s: Step, cap: nat)
    requires IsCompleted(w) && Enabled(w, s)
    ensures IsCompleted(Next(w, s, cap)) <==> !(s.Fail? || s.Create? || s.Disappear?)
  {
  }

  /**
   * In every run a completed run stays completed if and only if it is not failed, made anew or timed out;
   * further completions, racing in whatever way, never undo it.
   */
  lemma {:induction false} CompletedStaysExactly(w: World, run: seq<Step>, cap: nat, ids: set<string>)
    requires IsCompleted(w) && IsRun(w, run, cap, ids)
    ensures AlwaysCompleted(w, run, cap, ids) <==> forall s | s in run :: !(s.Fail? || s.Create? || s.Disappear?)
    decreases |run|
  {
    if run != [] {
      CompletedLostExactly(w, run[0], cap);
      assert forall s :: s in run <==> s == run[0] || s in run[1..];
      if IsCompleted(Next(w, run[0], cap)) {
        CompletedStaysExactly(Next(w, run[0], cap), run[1..], cap, ids);
      } else {
        assert run[0] in run;
        LostAtOnce(Next(w, run[0], cap), run[1..], cap, ids);
      }
    }
  }

  lemma LostAtOnce(w: World, run: seq<Step>, cap: nat, ids: set<string>)
    requires !IsCompleted(w) && IsRun(w, run, cap, ids)
    ensures !AlwaysCompleted(w, run, cap, ids)
  {
  }

  /** The id that a completion under way records over another one. */
  predicate Rerecords(w: World, s: Step, id: string) {
    s.Complete? && s.w < |w.workers| && w.workers[s.w].SawRunning?
    && w.workers[s.w].finalId != "" && w.workers[s.w].finalId != id
  }

  predicate KeepsId(w: World, run: seq<Step>, cap: nat, ids: set<string>, id: string)
    requires IsRun(w, run, cap, ids)
    decreases |run|
  {
    w.run.Some? && w.run.value.finalId == id && (run == [] || KeepsId(Next(w, run[0], cap), run[1..], cap, ids, id))
  }

  predicate NeverRerecords(w: World, run: seq<Step>, cap: nat, ids: set<string>, id: string)
    requires IsRun(w, run, cap, ids)
    decreases |run|
  {
    run == [] || (!Rerecords(w, run[0], id) && NeverRerecords(Next(w, run[0], cap), run[1..], cap, ids, id))
  }

  /**
   * While a completed run stays completed, its message id stays if and only if no completion that had
   * read the run as still running then records another one.
   */
  lemma {:induction false} CompletedIdStaysExactly(w: World, run: seq<Step>, cap: nat, ids: set<string>)
    requires IsRun(w, run, cap, ids) && AlwaysCompleted(w, run, cap, ids)
    ensures KeepsId(w, run, cap, ids, w.run.value.finalId) <==> NeverRerecords(w, run, cap, ids, w.run.value.finalId)
    decreases |run|
  {
    if run != [] {
      var id, next := w.run.value.finalId, Next(w, run[0], cap);
      CompletedLostExactly(w, run[0], cap);
      assert next.run.value.finalId == id <==> !Rerecords(w, run[0], id);
      if next.run.value.finalId == id {
        CompletedIdStaysExactly(next, run[1..], cap, ids);
      }
    }
  }

  // ----- Races of completions -----

  /** A recorded message id that a step replaces although the run was not made anew. */
  predicate Clobbers(w: World, s: Step, cap: nat)
    requires Enabled(w, s)
  {
    && !s.Create? && !s.Disappear?
    && w.run.Some? && w.run.value.finalId != "" && Hash(Next(w, s, cap).run).finalId != w.run.value.finalId
  }

  /** Some run with these workers and ids replaces a recorded id. */
  ghost predicate CanClobber(workers: nat, cap: nat, ids: set<string>) {
    exists run, s | IsRun(Init(workers), run, cap, ids) && Enabled(After(Init(workers), run, cap, ids), s) ::
      Clobbers(After(Init(workers), run, cap, ids), s, cap)
  }

  predicate OneId(ids: set<string>) {
    forall a, b | a in ids && b in ids && a != "" && b != "" :: a == b
  }

  lemma {:induction false} RaceTwo(cap: nat, workers: nat, ids: set<string>, a: string, b: string)
    requires workers >= 2 && a in ids && b in ids && a != "" && b != "" && a != b
    ensures CanClobber(workers, cap, ids)
  {
    var w0 := Init(workers);
    var w1 := Next(w0, Create, cap);
    var w2 := Next(w1, ReadStatus(0, a), cap);
    var w3 := Next(w2, ReadStatus(1, b), cap);
    var w4 := Next(w3, Complete(0), cap);
    assert w4.workers[1] == SawRunning(b);
    var run := Prepend(w3, Complete(0), [], cap, ids);
    run := Prepend(w2, ReadStatus(1, b), run, cap, ids);
    run := Prepend(w1, ReadStatus(0, a), run, cap, ids);
    run := Prepend(w0, Create, run, cap, ids);
    assert Clobbers(After(w0, run, cap, ids), Complete(1), cap);
  }

  lemma Prepend(w: World, s: Step, run: seq<Step>, cap: nat, ids: set<string>) returns (longer: seq<Step>)
    requires Enabled(w, s) && (s.ReadStatus? ==> s.finalId in ids) && IsRun(Next(w, s, cap), run, cap, ids)
    ensures longer == [s] + run
    ensures IsRun(w, longer, cap, ids) && After(w, longer, cap, ids) == After(Next(w, s, cap), run, cap, ids)
  {
    longer := [s] + run;
    assert longer[1..] == run;
  }

  /**
   * Completion signals never replace a recorded message id, in whatever way they race, exactly if
   * there is only one worker or at most one id to record.
   */
  lemma FinalIdIsStableExactly(workers: nat, cap: nat, ids: set<string>)
    ensures !CanClobber(workers, cap, ids) <==> workers <= 1 || OneId(ids)
  {
    if workers <= 1 || OneId(ids) {
      forall run, s | IsRun(Init(workers), run, cap, ids) && Enabled(After(Init(workers), run, cap, ids), s)
        ensures !Clobbers(After(Init(workers), run, cap, ids), s, cap)
      {
        RunKeepsInv(Init(workers), run, cap, ids);
      }
    } else {
      var a, b :| a in ids && b in ids && a != "" && b != "" && a != b;
      RaceTwo(cap, workers, ids, a, b);
    }
  }
}
