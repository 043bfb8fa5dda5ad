/**
 * The body of `recoverableSend` (cli/src/send-recovery.ts:13-81) as it is written, run
 * beside other processes.  Each statement performs one action of the step machine; between
 * any two of them the rest of the world takes any number of steps.  What the contracts
 * say is that the program is a run of that machine, so that every run-wide guarantee of
 * SendRecovery is one of the program, and what the program hands back when it ends.
 */
module SendProgram {
  import opened Wrappers
  import opened SendRecovery

  lemma {:induction false} SomeIdIsUnused(used: set<MessageId>) returns (bound: MessageId)
    ensures forall id | id in used :: id < bound
  {
    if used == {} {
      bound := 0;
    } else {
      var id :| id in used;
      var below := SomeIdIsUnused(used - {id});
      bound := if id < below then below else id + 1;
      assert used == (used - {id}) + {id};
    }
  }

  lemma SentGrows(w: World, a: Action)
    requires Enabled(w, a)
    ensures w.sent <= Do(w, a).sent
  {
  }

  lemma AcceptedIsStored(w: World, r: Request, receiver: Receiver)
    requires Enabled(w, HubAccept(r, receiver))
    ensures Stored(Do(w, HubAccept(r, receiver)), r.id)
  {
    var rows := Do(w, HubAccept(r, receiver)).rows;
    if HasRow(w.rows, r.id, receiver) {
      var i :| 0 <= i < |w.rows| && w.rows[i].id == r.id && w.rows[i].receiver == receiver;
      assert rows[i].id == r.id;
    } else {
      assert rows[|w.rows|].id == r.id;
    }
  }

  class Session {
    var world: World
    const origin: World
    const calm: bool                   // no effect fails by itself, and the Hub answers every request
    ghost var history: seq<Action>     // everything that happened since `origin`

    /** A key nobody has used yet; with or without an explicit message id. */
    constructor (explicitId: Option<MessageId>, calm: bool)
      ensures Valid() && origin == Init(explicitId) && world == origin && history == [] && this.calm == calm
    {
      origin, world, history, this.calm := Init(explicitId), Init(explicitId), [], calm;
      new;
      assert IsRun(origin, []) && After(origin, []) == origin;
    }

    ghost predicate Valid()
      reads this
    {
      Reachable(origin) && IsRun(origin, history) && After(origin, history) == world
    }

    /** Where an existing process stands. */
    ghost predicate At(p: Pid, proc: Proc)
      reads this
    {
      p in world.procs && world.procs[p] == proc
    }

    lemma Safe()
      requires Valid()
      ensures Inv(world) && Reachable(world) && world.explicitId == origin.explicitId
    {
      var before :| IsRun(Init(origin.explicitId), before) && After(Init(origin.explicitId), before) == origin;
      RunsCompose(Init(origin.explicitId), before, history);
      ReachableInv(origin);
      RunKeepsInv(origin, history);
      assert IsRun(Init(world.explicitId), before + history);
    }

    lemma FinishedWell(p: Pid, outcome: Outcome)
      requires Valid() && At(p, Finished(outcome))
      ensures world.lock != Some(p)
      ensures outcome.Returned? ==> outcome.id in world.confirmed && Stored(world, outcome.id)
    {
      Safe();
      if outcome.Returned? {
        ReturnsAreStored(world, p);
      }
    }

    /** An invocation that had not begun by then has sent at most one request since. */
    lemma PostsSince(begin: nat, earlier: World, p: Pid)
      requires Valid() && begin <= |history| && IsRun(origin, history[..begin])
      requires earlier == After(origin, history[..begin]) && p !in earlier.procs
      ensures Count(history[begin..], (a: Action) => a == Post(p)) <= 1
      ensures HasThrown(world, p) ==> exists i :: Explains(history[begin..], i, p, false)
    {
      assert history == history[..begin] + history[begin..];
      RunsSplit(origin, history[..begin], history[begin..]);
      RunsCompose(origin, history[..begin], history[begin..]);
      InvocationIsBounded(earlier, history[begin..], p);
      if HasThrown(world, p) {
        ThrowsOnlyOnFailure(earlier, history[begin..], p);
      }
    }

    /** One effect. */
    method Perform(a: Action)
      requires Valid() && Enabled(world, a)
      modifies this
      ensures Valid() && world == Do(old(world), a) && history == old(history) + [a]
    {
      Extend(origin, history, a);
      world := Do(world, a);
      history := history + [a];
    }

    /** Anything the Hub, the operator and other processes may do meanwhile. */
    method Interfere(p: Pid)
      requires Valid() && p in world.procs
      modifies this
      ensures Valid() && old(history) <= history
      ensures forall i | |old(history)| <= i < |history| :: history[i].Actor() != Some(p)
      ensures p in world.procs && world.procs[p] == old(world.procs[p]) && old(world.sent) <= world.sent
    {
      var steps: nat := *;
      while steps > 0
        invariant Valid() && old(history) <= history && old(world.sent) <= world.sent
        invariant forall i | |old(history)| <= i < |history| :: history[i].Actor() != Some(p)
        invariant p in world.procs && world.procs[p] == old(world.procs[p])
      {
        var a: Action := *;
        if Enabled(world, a) && a.Actor() != Some(p) {
          if p in Do(world, a).procs { OthersStay(world, a, p); }
          SentGrows(world, a);
          Perform(a);
        }
        steps := steps - 1;
      }
    }

    /** Whether the next effect fails by itself. */
    method Fails() returns (fails: bool)
      ensures calm ==> !fails
    {
      fails := *;
      fails := fails && !calm;
    }

    /** The inner `recover`: Some(id) is its recovery result, None its `undefined`. */
    method Recover(p: Pid, ghost attempt: Attempt, ghost resendIfMissing: bool) returns (recovered: Option<MessageId>)
      requires Valid() && At(p, Querying(attempt, resendIfMissing))
      modifies this
      ensures Valid() && old(history) <= history
      ensures recovered.Some? ==> recovered.value == attempt.messageId && At(p, Unlocking(Returned(recovered.value)))
      ensures |history| > |old(history)|
      ensures recovered.None? ==>
                if resendIfMissing && history[|history| - 1] == StatusNotFound(p) then At(p, Sending(attempt))
                else At(p, Unlocking(Threw))
      ensures calm && resendIfMissing ==> recovered.Some? || At(p, Sending(attempt))
    {
      Interfere(p);
      if {
        case Stored(world, world.procs[p].attempt.messageId) =>
          var status: string := *;
          var now: nat := *;
          Perform(StatusFound(p, status, now));
          Interfere(p);
          var fails := Fails();
          if fails {
            Perform(FileError(p));
            return None;
          }
          recovered := Some(world.procs[p].attempt.messageId);
          Perform(SaveRecovered(p));
        case !calm || !Stored(world, world.procs[p].attempt.messageId) =>
          Perform(StatusNotFound(p));
          recovered := None;
        case !calm =>
          Perform(StatusUnknown(p));
          recovered := None;
      }
    }

    /** The caller's id, or a random one that was never chosen before. */
    method ChooseNewId(p: Pid) returns (ghost id: MessageId)
      requires Valid() && At(p, ChoosingId)
      modifies this
      ensures Valid() && old(history) <= history && At(p, Preparing(id))
      ensures origin.explicitId.Some? ==> id == origin.explicitId.value
    {
      Interfere(p);
      ghost var bound := SomeIdIsUnused(world.chosen);
      assert bound !in world.chosen;
      Safe();
      var random :| random !in world.chosen;
      Perform(ChooseId(p, random));
      id := world.procs[p].id;
    }

    /** Choosing, preparing and saving a new attempt; it may throw on the way. */
    method StartAttempt(p: Pid)
      requires Valid() && At(p, ChoosingId)
      modifies this
      ensures Valid() && old(history) <= history && p in world.procs
      ensures world.procs[p] == Unlocking(Threw)
              || (world.procs[p].Sending? && (world.explicitId.Some?
                    ==> world.procs[p].attempt.messageId == world.explicitId.value))
      ensures calm ==> world.procs[p].Sending?
    {
      ghost var id := ChooseNewId(p);
      Interfere(p);
      var fails := Fails();
      if fails {
        Perform(PrepareFailed(p));
        return;
      }
      var payload: Payload := *;
      Perform(Prepared(p, payload));
      Interfere(p);
      fails := Fails();
      if fails {
        Perform(FileError(p));
        return;
      }
      Perform(SaveNew(p));
      Safe();
    }

    /** The Hub said yes: the attempt file goes, and if it cannot, the status decides. */
    method Delivered(p: Pid, ghost attempt: Attempt) returns (outcome: Outcome)
      requires Valid() && At(p, AwaitingReply(attempt)) && Stored(world, attempt.messageId)
      modifies this
      ensures Valid() && old(history) <= history
      ensures At(p, Querying(attempt, false)) || (At(p, Unlocking(outcome)) && outcome == Returned(attempt.messageId))
      ensures calm ==> At(p, Unlocking(outcome))
    {
      Perform(ReplyOk(p));
      Interfere(p);
      outcome := Returned(world.procs[p].attempt.messageId);
      var fails := Fails();
      if fails {
        Perform(FileError(p));
      } else {
        Perform(UnlinkSent(p));
      }
    }

    /** The Hub stores what p has posted for some receiver. */
    method Accept(p: Pid)
      requires Valid() && p in world.procs && world.procs[p].AwaitingReply?
      requires Request(world.procs[p].attempt.messageId, world.procs[p].attempt.prepared) in world.sent
      modifies this
      ensures Valid() && old(history) <= history && p in world.procs && world.procs[p] == old(world.procs[p])
      ensures Stored(world, world.procs[p].attempt.messageId)
    {
      var attempt := world.procs[p].attempt;
      var receiver: Receiver := *;
      ghost var before := world;
      Perform(HubAccept(Request(attempt.messageId, attempt.prepared), receiver));
      AcceptedIsStored(before, Request(attempt.messageId, attempt.prepared), receiver);
    }

    /** The POST and what follows from its reply. */
    method SendAttempt(p: Pid, ghost attempt: Attempt) returns (outcome: Outcome)
      requires Valid() && At(p, Sending(attempt))
      modifies this
      ensures Valid() && old(history) <= history && At(p, Unlocking(outcome))
      ensures outcome.Returned? ==> outcome.id == attempt.messageId
      ensures calm ==> outcome.Returned?
    {
      Interfere(p);
      Perform(Post(p));
      Interfere(p);
      if calm {
        Accept(p);
      }
      if {
        case Stored(world, world.procs[p].attempt.messageId) =>
          outcome := Delivered(p, attempt);
          if world.procs[p].Unlocking? {
            return;
          }
        case !calm =>
          Perform(ReplyRejected(p));
          return Threw;
        case !calm =>
          Perform(ReplyAmbiguous(p));
      }
      var recovered := Recover(p, attempt, false);
      outcome := if recovered.Some? then Returned(recovered.value) else Threw;
    }

    /** What runs under the lock. */
    method Locked(p: Pid) returns (outcome: Outcome)
      requires Valid() && At(p, ReadingFile)
      modifies this
      ensures Valid() && old(history) <= history && At(p, Unlocking(outcome))
      ensures calm ==> outcome.Returned?
    {
      var done := LoadAttempt(p);
      if done.None? {
        done := Resolve(p);
      }
      if done.Some? {
        return done.value;
      }
      outcome := SendAttempt(p, world.procs[p].attempt);
    }

    /** Reads the file: the cached result or a failure, or None with the stale recovery gone. */
    method LoadAttempt(p: Pid) returns (done: Option<Outcome>)
      requires Valid() && At(p, ReadingFile)
      modifies this
      ensures Valid() && old(history) <= history && p in world.procs
      ensures match done
              case Some(outcome) => At(p, Unlocking(outcome))
              case None => world.procs[p].ChoosingId? || (world.procs[p].Querying? && world.procs[p].resendIfMissing)
      ensures calm ==> done != Some(Threw)
    {
      Interfere(p);
      var fails := Fails();
      if fails {
        Perform(FileError(p));
        return Some(Threw);
      }
      var now: nat := *;
      Perform(ReadFile(p, now));
      if world.procs[p].Unlocking? {
        return Some(world.procs[p].outcome);      // the cached result
      }
      if world.procs[p].UnlinkingStale? {
        Interfere(p);
        fails := Fails();
        if fails {
          Perform(FileError(p));
          return Some(Threw);
        }
        Perform(UnlinkStale(p));
      }
      done := None;
    }

    /** Recovers a saved attempt or starts a new one; None is an attempt to send. */
    method Resolve(p: Pid) returns (done: Option<Outcome>)
      requires Valid() && p in world.procs
      requires world.procs[p].ChoosingId? || (world.procs[p].Querying? && world.procs[p].resendIfMissing)
      modifies this
      ensures Valid() && old(history) <= history && p in world.procs
      ensures match done case Some(outcome) => At(p, Unlocking(outcome)) case None => world.procs[p].Sending?
      ensures calm ==> done != Some(Threw)
    {
      if world.procs[p].Querying? {
        var recovered := Recover(p, world.procs[p].attempt, true);
        if recovered.Some? {
          return Some(Returned(recovered.value));
        }
      } else {
        StartAttempt(p);
      }
      done := if world.procs[p].Unlocking? then Some(Threw) else None;
    }

    /**
     * One invocation that does not crash, in any company.  If nothing fails by itself and the Hub
     * answers, it returns unless another invocation holds the lock.
     */
    method RecoverableSend(p: Pid) returns (outcome: Outcome)
      requires Valid() && p !in world.procs
      modifies this
      ensures Valid() && old(history) <= history
      ensures At(p, Finished(outcome)) && world.lock != Some(p)
      ensures outcome.Returned? ==> outcome.id in world.confirmed && Stored(world, outcome.id)
      ensures Count(history[|old(history)|..], (a: Action) => a == Post(p)) <= 1
      ensures outcome.Threw? ==> exists i :: Explains(history[|old(history)|..], i, p, false)
      ensures calm && outcome.Threw? ==> SeeLockHeld(p) in history[|old(history)|..]
    {
      Perform(Arrive(p));
      Interfere(p);
      var fails := Fails();
      if fails {
        Perform(FileError(p));
        outcome := Threw;
      } else if world.lock.Some? {
        Perform(SeeLockHeld(p));
        assert history[|history| - 1] == SeeLockHeld(p);
        outcome := Threw;
      } else {
        Perform(AcquireLock(p));
        outcome := Locked(p);
        Interfere(p);
        Perform(Unlock(p));
      }
      FinishedWell(p, outcome);
      assert history[..|old(history)|] == old(history);
      PostsSince(|old(history)|, old(world), p);
    }
  }
}
