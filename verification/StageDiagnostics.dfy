/**
 * Bounded diagnostics of one send (backend/hub/stage_diagnostics.py): nested stages with a cap,
 * and how many operations are captured per minute.
 */
module StageDiagnostics {
  import opened Wrappers
  import opened Text

  const MAX_OPERATIONS_PER_MINUTE: nat := 10
  const MAX_STAGES: nat := 256

  datatype Ending = Completed | Error | Cancelled

  const RESULTS: set<string> := {"skipped", "returned_false", "returned_true", "handled_error"}

  /** A stage that was entered, the stages entered inside it, how it ended, and the outcome its body noted. */
  datatype Stage = Stage(name: string, inner: seq<Stage>, ending: Ending, noted: Option<string>) {
    /** A known noted outcome counts only if the stage completed. */
    function Outcome(): string {
      match ending
      case Cancelled => "cancelled"
      case Error => "error"
      case Completed => if noted.Some? && noted.value in RESULTS then noted.value else "completed"
    }
  }

  /** What a captured stage logs. */
  datatype Report = Report(name: string, id: nat, parent: Option<nat>, outcome: string)

  // ----- A reference numbering -----

  /** How many stages were entered. */
  function Entries(stages: seq<Stage>): nat
    decreases stages
  {
    if stages == [] then 0 else 1 + Entries(stages[0].inner) + Entries(stages[1..])
  }

  /**
   * Every stage numbered in the order of entry after `before` others, with the number of the stage
   * directly around it, listed in the order of exit.
   */
  function Numbered(stages: seq<Stage>, before: nat, parent: Option<nat>): seq<Report>
    decreases stages
  {
    if stages == [] then []
    else
      var s := stages[0];
      var id := before + 1;
      Numbered(s.inner, id, Some(id)) + [Report(s.name, id, parent, s.Outcome())]
      + Numbered(stages[1..], id + Entries(s.inner), parent)
  }

  /** The reports with a number up to the cap. */
  function Capped(reports: seq<Report>): seq<Report> {
    if reports == [] then []
    else (if reports[0].id <= MAX_STAGES then [reports[0]] else []) + Capped(reports[1..])
  }

  lemma {:induction false} CappedConcat(a: seq<Report>, b: seq<Report>)
    ensures Capped(a + b) == Capped(a) + Capped(b)
  {
    if a == [] {
      assert a + b == b;
    } else {
      assert (a + b)[1..] == a[1..] + b;
      CappedConcat(a[1..], b);
      Assoc(if a[0].id <= MAX_STAGES then [a[0]] else [], Capped(a[1..]), Capped(b));
    }
  }

  /** Exactly the reports numbered up to 256 are kept. */
  lemma {:induction false} CappedExactly(reports: seq<Report>, r: Report)
    ensures r in Capped(reports) <==> r in reports && r.id <= 256
  {
    if reports != [] {
      CappedExactly(reports[1..], r);
    }
  }

  /** These reports use each number in (from, to] once, and none comes before the one around it. */
  predicate Proper(reports: seq<Report>, from: nat, to: nat) {
    && from + |reports| == to
    && (forall i | 0 <= i < |reports| :: from < reports[i].id <= to)
    && (forall i, j | 0 <= i < j < |reports| :: reports[i].id != reports[j].id)
    && (forall i | 0 <= i < |reports| && reports[i].parent.Some? :: reports[i].parent.value < reports[i].id)
  }

  lemma Chain(inner: seq<Report>, own: Report, rest: seq<Report>, end: nat, to: nat)
    requires own.id > 0 && (own.parent.Some? ==> own.parent.value < own.id)
    requires Proper(inner, own.id, end) && Proper(rest, end, to)
    ensures Proper(inner + [own] + rest, own.id - 1, to)
  {
    var all := inner + [own] + rest;
    forall i | 0 <= i < |all|
      ensures all[i] == if i < |inner| then inner[i] else if i == |inner| then own else rest[i - |inner| - 1]
    {
    }
  }

  /** Every number from before + 1 on is used exactly once, and each stage comes after the one around it. */
  lemma FirstNumbered(stages: seq<Stage>, before: nat, parent: Option<nat>)
    requires stages != []
    ensures var s, id := stages[0], before + 1;
            && Numbered(stages, before, parent)
               == Numbered(s.inner, id, Some(id)) + [Report(s.name, id, parent, s.Outcome())]
                  + Numbered(stages[1..], id + Entries(s.inner), parent)
            && Entries(stages) == 1 + Entries(s.inner) + Entries(stages[1..])
  {
  }

  lemma {:induction false} NumbersAreEntries(stages: seq<Stage>, before: nat, parent: Option<nat>)
    requires parent.Some? ==> parent.value <= before
    ensures Proper(Numbered(stages, before, parent), before, before + Entries(stages))
    decreases stages
  {
    if stages != [] {
      var id, s := before + 1, stages[0];
      var end := id + Entries(s.inner);
      var to := end + Entries(stages[1..]);
      var inner, rest := Numbered(s.inner, id, Some(id)), Numbered(stages[1..], end, parent);
      assert Proper(inner, id, end) by {
        NumbersAreEntries(s.inner, id, Some(id));
      }
      assert Proper(rest, end, to) by {
        NumbersAreEntries(stages[1..], end, parent);
      }
      Chain(inner, Report(s.name, id, parent, s.Outcome()), rest, end, to);
      FirstNumbered(stages, before, parent);
    }
  }

  predicate IsTop(stages: seq<Stage>, name: string) {
    exists k | 0 <= k < |stages| :: stages[k].name == name
  }

  /** Somewhere in the stages one of the inner name was entered directly in one of the outer name. */
  predicate DirectlyIn(stages: seq<Stage>, outer: string, inner: string)
    decreases stages
  {
    stages != [] && ((stages[0].name == outer && IsTop(stages[0].inner, inner))
                     || DirectlyIn(stages[0].inner, outer, inner) || DirectlyIn(stages[1..], outer, inner))
  }

  /** A report's parent is what was given, for a stage of this level, or the report of a stage directly around it. */
  ghost predicate IsAround(stages: seq<Stage>, reports: seq<Report>, r: Report, parent: Option<nat>) {
    || (r.parent == parent && IsTop(stages, r.name))
    || exists j | 0 <= j < |reports| :: r.parent == Some(reports[j].id) && DirectlyIn(stages, reports[j].name, r.name)
  }

  ghost predicate AllAround(stages: seq<Stage>, reports: seq<Report>, parent: Option<nat>) {
    forall i | 0 <= i < |reports| :: IsAround(stages, reports, reports[i], parent)
  }

  lemma {:induction false} ParentsAreAround(stages: seq<Stage>, before: nat, parent: Option<nat>)
    ensures AllAround(stages, Numbered(stages, before, parent), parent)
    decreases stages
  {
    if stages != [] {
      var s, id := stages[0], before + 1;
      ParentsAreAround(s.inner, id, Some(id));
      ParentsAreAround(stages[1..], id + Entries(s.inner), parent);
      AroundInTurn(stages, Numbered(s.inner, id, Some(id)), Report(s.name, id, parent, s.Outcome()),
                   Numbered(stages[1..], id + Entries(s.inner), parent), parent);
    }
  }

  lemma AroundInTurn(stages: seq<Stage>, inner: seq<Report>, own: Report, rest: seq<Report>, parent: Option<nat>)
    requires stages != [] && own.name == stages[0].name && own.parent == parent
    requires AllAround(stages[0].inner, inner, Some(own.id)) && AllAround(stages[1..], rest, parent)
    ensures AllAround(stages, inner + [own] + rest, parent)
  {
    forall i | 0 <= i < |inner| ensures IsAround(stages, inner + [own] + rest, inner[i], parent) {
      assert IsAround(stages[0].inner, inner, inner[i], Some(own.id));
      InnerIsAround(stages, inner, own, rest, inner[i], parent);
    }
    assert IsTop(stages, own.name);
    forall i | 0 <= i < |rest| ensures IsAround(stages, inner + [own] + rest, rest[i], parent) {
      assert IsAround(stages[1..], rest, rest[i], parent);
      LaterIsAround(stages, inner + [own], rest, rest[i], parent);
    }
    ReportsInTurn(inner, own, rest);
  }

  lemma ReportsInTurn(inner: seq<Report>, own: Report, rest: seq<Report>)
    ensures var all := inner + [own] + rest;
            forall i | 0 <= i < |all| ::
              all[i] == if i < |inner| then inner[i] else if i == |inner| then own else rest[i - |inner| - 1]
  {
  }

  lemma InnerIsAround(stages: seq<Stage>, inner: seq<Report>, own: Report, rest: seq<Report>, r: Report,
                      parent: Option<nat>)
    requires stages != [] && own.name == stages[0].name && IsAround(stages[0].inner, inner, r, Some(own.id))
    ensures IsAround(stages, inner + [own] + rest, r, parent)
  {
    var all := inner + [own] + rest;
    if r.parent == Some(own.id) && IsTop(stages[0].inner, r.name) {
      assert all[|inner|] == own && DirectlyIn(stages, own.name, r.name);
    } else {
      var j :| 0 <= j < |inner| && r.parent == Some(inner[j].id) && DirectlyIn(stages[0].inner, inner[j].name, r.name);
      assert all[j] == inner[j] && DirectlyIn(stages, inner[j].name, r.name);
    }
  }

  lemma LaterIsAround(stages: seq<Stage>, before: seq<Report>, rest: seq<Report>, r: Report, parent: Option<nat>)
    requires stages != [] && IsAround(stages[1..], rest, r, parent)
    ensures IsAround(stages, before + rest, r, parent)
  {
    if r.parent == parent && IsTop(stages[1..], r.name) {
      var k :| 0 <= k < |stages[1..]| && stages[1..][k].name == r.name;
      assert stages[k + 1].name == r.name;
    } else {
      var j :| 0 <= j < |rest| && r.parent == Some(rest[j].id) && DirectlyIn(stages[1..], rest[j].name, r.name);
      assert (before + rest)[|before| + j] == rest[j] && DirectlyIn(stages, rest[j].name, r.name);
    }
  }

  /** Only a completed stage reports the outcome its body noted, and only one of four. */
  lemma OutcomeExactly(s: Stage)
    ensures s.Outcome() == "error" <==> s.ending.Error?
    ensures s.Outcome() == "cancelled" <==> s.ending.Cancelled?
    ensures s.Outcome() in {"skipped", "returned_false", "returned_true", "handled_error"}
            <==> s.ending.Completed? && s.noted.Some?
                 && s.noted.value in {"skipped", "returned_false", "returned_true", "handled_error"}
    ensures s.Outcome() !in {"error", "cancelled", "completed"} ==> s.noted == Some(s.Outcome())
  {
  }

  /** What one stage and the stages in it report. */
  function StageReports(s: Stage, before: nat, parent: Option<nat>): seq<Report> {
    Capped(Numbered(s.inner, before + 1, Some(before + 1)) + [Report(s.name, before + 1, parent, s.Outcome())])
  }

  lemma StageAroundInner(s: Stage, before: nat, parent: Option<nat>)
    ensures StageReports(s, before, parent)
            == Capped(Numbered(s.inner, before + 1, Some(before + 1)))
               + if before < MAX_STAGES then [Report(s.name, before + 1, parent, s.Outcome())] else []
  {
    var own := [Report(s.name, before + 1, parent, s.Outcome())];
    CappedConcat(Numbered(s.inner, before + 1, Some(before + 1)), own);
    assert own[1..] == [];
  }

  lemma FirstStage(stages: seq<Stage>, before: nat, parent: Option<nat>)
    requires stages != []
    ensures Capped(Numbered(stages, before, parent))
            == StageReports(stages[0], before, parent)
               + Capped(Numbered(stages[1..], before + 1 + Entries(stages[0].inner), parent))
  {
    var s, id := stages[0], before + 1;
    CappedConcat(Numbered(s.inner, id, Some(id)) + [Report(s.name, id, parent, s.Outcome())],
                 Numbered(stages[1..], id + Entries(s.inner), parent));
  }

  lemma {:induction false} NoneCapped(reports: seq<Report>)
    requires forall i | 0 <= i < |reports| :: reports[i].id > MAX_STAGES
    ensures Capped(reports) == []
  {
    if reports != [] {
      NoneCapped(reports[1..]);
    }
  }

  /** Once the cap is reached nothing more is reported. */
  lemma NothingBeyondTheCap(stages: seq<Stage>, before: nat, parent: Option<nat>)
    requires before >= MAX_STAGES && (parent.Some? ==> parent.value <= before)
    ensures Capped(Numbered(stages, before, parent)) == []
  {
    NumbersAreEntries(stages, before, parent);
    NoneCapped(Numbered(stages, before, parent));
  }

  lemma DroppedReports(s: Stage, before: nat, parent: Option<nat>)
    requires before >= MAX_STAGES && (parent.Some? ==> parent.value <= before)
    ensures StageReports(s, before, parent) == [] && Capped(Numbered(s.inner, before + 1, parent)) == []
  {
    StageAroundInner(s, before, parent);
    NothingBeyondTheCap(s.inner, before + 1, Some(before + 1));
    NothingBeyondTheCap(s.inner, before + 1, parent);
  }

  lemma CapturedReports(s: Stage, before: nat, parent: Option<nat>, log: seq<Report>)
    requires before < MAX_STAGES
    ensures log + StageReports(s, before, parent)
            == log + Capped(Numbered(s.inner, before + 1, Some(before + 1)))
               + [Report(s.name, before + 1, parent, s.Outcome())]
  {
    StageAroundInner(s, before, parent);
    Assoc(log, Capped(Numbered(s.inner, before + 1, Some(before + 1))),
          [Report(s.name, before + 1, parent, s.Outcome())]);
  }

  // ----- The capture -----

  class Capture {
    var count: nat
    var dropped: nat
    var parent: Option<nat>
    var log: seq<Report>

    constructor ()
      ensures count == 0 && dropped == 0 && parent == None && log == []
    {
      count, dropped, parent, log := 0, 0, None, [];
    }

    ghost predicate Valid()
      reads this
    {
      count <= MAX_STAGES && (dropped > 0 ==> count == MAX_STAGES) && (parent.Some? ==> parent.value <= count)
    }

    /**
     * The stages entered one after another at one level, each with what happens inside it.
     * The log grows by the reference reports up to the cap, and the parent is as it was.
     */
    method RunStages(stages: seq<Stage>)
      requires Valid()
      modifies this
      ensures Valid() && parent == old(parent)
      ensures count + dropped == old(count + dropped) + Entries(stages)
      ensures log == old(log) + Capped(Numbered(stages, old(count + dropped), old(parent)))
      decreases stages
    {
      if stages == [] {
        return;
      }
      ghost var before, start := count + dropped, log;
      ghost var own := StageReports(stages[0], before, parent);
      ghost var rest := Capped(Numbered(stages[1..], before + 1 + Entries(stages[0].inner), parent));
      FirstStage(stages, before, parent);
      Assoc(start, own, rest);
      RunStage(stages[0]);
      assert log == start + own;
      RunStages(stages[1..]);
      assert log == start + own + rest;
    }

    /** What the `except` and `finally` clauses make of an ending and a noted outcome. */
    method FinalOutcome(s: Stage) returns (outcome: string)
      ensures outcome == s.Outcome()
    {
      outcome := match s.ending case Completed => "completed" case Error => "error" case Cancelled => "cancelled";
      if s.noted.Some? && s.noted.value in RESULTS && outcome == "completed" {
        outcome := s.noted.value;
      }
    }

    /** `stage` around what is inside it, however it ends. */
    method RunStage(s: Stage)
      requires Valid()
      modifies this
      ensures Valid() && parent == old(parent) && count <= 256
      ensures count + dropped == old(count + dropped) + 1 + Entries(s.inner)
      ensures log == old(log) + StageReports(s, old(count + dropped), old(parent))
      decreases s
    {
      ghost var before, start := count + dropped, log;
      if count >= MAX_STAGES {
        DroppedReports(s, before, parent);
        dropped := dropped + 1;
        RunStages(s.inner);
        assert log == start;
        return;
      }
      CapturedReports(s, before, parent, start);
      count := count + 1;
      var stageId, outer := count, parent;
      parent := Some(stageId);
      RunStages(s.inner);
      parent := outer;
      var outcome := FinalOutcome(s);
      log := log + [Report(s.name, stageId, outer, outcome)];
    }
  }

  // ----- Operations per minute -----

  /** Times are in milliseconds of a clock that never runs back. */
  type Time = nat

  function WindowOf(t: Time): nat {
    t / 60_000
  }

  predicate Rising(times: seq<Time>) {
    forall i, j | 0 <= i < j < |times| :: times[i] <= times[j]
  }

  /** How many of these times lie in [from, to). */
  function CountBetween(times: seq<Time>, from: int, to: int): nat {
    if times == [] then 0
    else CountBetween(times[..|times| - 1], from, to) + if from <= times[|times| - 1] < to then 1 else 0
  }

  function CountIn(times: seq<Time>, window: nat): nat {
    if times == [] then 0
    else CountIn(times[..|times| - 1], window) + if WindowOf(times[|times| - 1]) == window then 1 else 0
  }

  /** The times at which an operation is captured: while fewer than ten are in its window. */
  function Admitted(times: seq<Time>): seq<Time> {
    if times == [] then []
    else
      var before, t := Admitted(times[..|times| - 1]), times[|times| - 1];
      if CountIn(before, WindowOf(t)) < MAX_OPERATIONS_PER_MINUTE then before + [t] else before
  }

  class Operations {
    var window: nat
    var operations: nat
    ghost var seen: seq<Time>

    constructor ()
      ensures Valid() && seen == []
    {
      window, operations, seen := 0, 0, [];
    }

    ghost predicate Valid()
      reads this
    {
      Counts(seen, window, operations)
    }

    /** The start of `operation`: whether it is captured. */
    method Enter(now: Time) returns (captured: bool)
      requires Valid() && forall i | 0 <= i < |seen| :: seen[i] <= now
      modifies this
      ensures Valid() && seen == old(seen) + [now]
      ensures Admitted(seen) == if captured then Admitted(old(seen)) + [now] else Admitted(old(seen))
    {
      var current := WindowOf(now);
      CounterOf(seen, window, operations, now);
      if current != window {
        window, operations := current, 0;
      }
      Decide(seen, operations, now);
      CountOneMore(seen, operations, now);
      captured := operations < MAX_OPERATIONS_PER_MINUTE;
      if captured {
        operations := operations + 1;
      }
      seen := seen + [now];
    }
  }

  /** The counter is that of the latest window. */
  ghost predicate Counts(times: seq<Time>, window: nat, operations: nat) {
    && Rising(times) && operations == CountIn(Admitted(times), window)
    && window == if times == [] then 0 else WindowOf(times[|times| - 1])
  }

  lemma RisesOn(times: seq<Time>, now: Time)
    requires Rising(times) && forall i | 0 <= i < |times| :: times[i] <= now
    ensures Rising(times + [now])
    ensures times != [] && WindowOf(times[|times| - 1]) != WindowOf(now)
            ==> forall i | 0 <= i < |times| :: WindowOf(times[i]) < WindowOf(now)
  {
    if times != [] {
      forall i | 0 <= i < |times| ensures WindowOf(times[i]) <= WindowOf(times[|times| - 1]) <= WindowOf(now) {
      }
    }
  }

  /** A later window starts with nothing captured. */
  lemma CounterOf(times: seq<Time>, window: nat, operations: nat, now: Time)
    requires Counts(times, window, operations) && forall i | 0 <= i < |times| :: times[i] <= now
    ensures Rising(times + [now])
    ensures CountIn(Admitted(times), WindowOf(now)) == if WindowOf(now) != window then 0 else operations
  {
    RisesOn(times, now);
    if WindowOf(now) != window {
      NoneLater(times, WindowOf(now));
    }
  }

  /** What the counter is before the operation decides about it. */
  lemma Decide(times: seq<Time>, operations: nat, now: Time)
    requires operations == CountIn(Admitted(times), WindowOf(now))
    ensures Admitted(times + [now])
            == if operations < MAX_OPERATIONS_PER_MINUTE then Admitted(times) + [now] else Admitted(times)
  {
    AdmittedSnoc(times, now);
  }

  lemma CountOneMore(times: seq<Time>, operations: nat, now: Time)
    requires Rising(times + [now]) && operations == CountIn(Admitted(times), WindowOf(now))
    ensures Counts(times + [now], WindowOf(now), if operations < MAX_OPERATIONS_PER_MINUTE then operations + 1
                else operations)
  {
    Decide(times, operations, now);
    CountSnoc(Admitted(times), now, WindowOf(now));
  }

  lemma AdmittedSnoc(times: seq<Time>, t: Time)
    ensures Admitted(times + [t])
            == Admitted(times) + if CountIn(Admitted(times), WindowOf(t)) < 10 then [t] else []
  {
    assert (times + [t])[..|times|] == times;
  }

  lemma CountSnoc(times: seq<Time>, t: Time, window: nat)
    ensures CountIn(times + [t], window) == CountIn(times, window) + if WindowOf(t) == window then 1 else 0
  {
    assert (times + [t])[..|times|] == times;
  }

  lemma LastTime(times: seq<Time>)
    requires times != []
    ensures times == times[..|times| - 1] + [times[|times| - 1]]
  {
  }

  /** No time of an earlier window counts in a later one. */
  lemma {:induction false} NoneLater(times: seq<Time>, window: nat)
    requires forall i | 0 <= i < |times| :: WindowOf(times[i]) < window
    ensures CountIn(Admitted(times), window) == 0
  {
    if times != [] {
      var before, t := times[..|times| - 1], times[|times| - 1];
      NoneLater(before, window);
      LastTime(times);
      AdmittedSnoc(before, t);
      CountSnoc(Admitted(before), t, window);
    }
  }

  lemma {:induction false} TenPerWindow(times: seq<Time>, window: nat)
    ensures CountIn(Admitted(times), window) <= 10
  {
    if times != [] {
      var before, t := times[..|times| - 1], times[|times| - 1];
      TenPerWindow(before, window);
      LastTime(times);
      AdmittedSnoc(before, t);
      CountSnoc(Admitted(before), t, window);
    }
  }

  lemma {:induction false} TwoWindows(times: seq<Time>, start: Time)
    ensures CountBetween(times, start, start + 60_000)
            <= CountIn(times, WindowOf(start)) + CountIn(times, WindowOf(start) + 1)
  {
    if times != [] {
      TwoWindows(times[..|times| - 1], start);
    }
  }

  /** In no interval of one minute are more than twenty operations captured. */
  lemma TwentyPerMinute(times: seq<Time>, start: Time)
    ensures CountBetween(Admitted(times), start, start + 60_000) <= 20
  {
    TwoWindows(Admitted(times), start);
    TenPerWindow(times, WindowOf(start));
    TenPerWindow(times, WindowOf(start) + 1);
  }
}
