/**
 * When one job can come to two workers (app/jobs/worker.py:57-101, app/web/routes.py:964-973): the
 * exact condition, over everything that may happen next without a further unguarded step.
 */
module DoubleHolds {
  import opened Wrappers
  import opened JobQueue
  import opened Worker
  import opened DurableProtocol
  import opened DurableRuns
  import opened OrderlyRuns

  /** No job is with two workers, and none that is with a worker waits to be claimed. */
  ghost predicate OutOfReach(s: System)
  {
    Exclusive(s) && forall w :: w in s.held ==> s.held[w].id in s.jobs && !Waiting(s.jobs[s.held[w].id])
  }

  /** Some orderly continuation gives one job to two workers. */
  ghost predicate MayDoublyHold(s: System)
  {
    exists more :: Orderly(s, more) && !Exclusive(RunFrom(s, more))
  }

  // ---- Out of reach stays out of reach ----

  lemma FinishingStaysOutOfReach(s: System, w: string, result: AttemptResult, now: int, retryAt: int)
    requires RunInv(s) && OutOfReach(s) && w in s.held
    ensures OutOfReach(Finishing(s, w, result, now, retryAt))
  {
    assert CopyBounded(s, w);
    AttemptWrites(s.held[w], result, now, retryAt);
  }

  lemma ClaimingStaysOutOfReach(s: System, w: string, id: string, now: int)
    requires RunInv(s) && OutOfReach(s) && Possible(s, Claim(w, id, now))
    ensures OutOfReach(Claiming(s, w, id, now))
  {
    assert s.jobs[id].id == id;
  }

  lemma ResumingStaysOutOfReach(s: System, client: string, approved: bool)
    requires RunInv(s) && OutOfReach(s) && client in s.reading && Unheld(s, s.reading[client].id)
    ensures OutOfReach(Resuming(s, client, approved))
  {
  }

  lemma StaysOutOfReach(s: System, step: Step)
    requires RunInv(s) && OutOfReach(s) && Guarded(s, step)
    ensures OutOfReach(Do(s, step))
  {
    if Possible(s, step) {
      match step
      case Finish(w, result, now, retryAt) => FinishingStaysOutOfReach(s, w, result, now, retryAt);
      case Claim(w, id, now) => ClaimingStaysOutOfReach(s, w, id, now);
      case ResumeJob(client, approved) => ResumingStaysOutOfReach(s, client, approved);
      case _ => OthersStayOutOfReach(s, step);
    }
  }

  lemma OthersStayOutOfReach(s: System, step: Step)
    requires RunInv(s) && OutOfReach(s) && Possible(s, step) && Guarded(s, step)
    requires !step.Finish? && !step.Claim? && !step.ResumeJob?
    ensures OutOfReach(Next(s, step))
  {
  }

  lemma {:induction false} OutOfReachIsExclusive(s: System, steps: seq<Step>)
    requires RunInv(s) && OutOfReach(s) && Orderly(s, steps)
    ensures Exclusive(RunFrom(s, steps))
    decreases |steps|
  {
    if steps != [] {
      StepKeepsRunInv(s, steps[0]);
      StaysOutOfReach(s, steps[0]);
      OutOfReachIsExclusive(Do(s, steps[0]), steps[1..]);
    }
  }

  // ---- Within reach is reached ----

  /** A worker name that is not among some given ones. */
  lemma {:induction false} FreshName(names: set<string>) returns (name: string)
    ensures name !in names && forall n :: n in names ==> |n| < |name|
  {
    if names == {} {
      name := "w";
    } else {
      var n :| n in names;
      var rest := FreshName(names - {n});
      name := if |n| < |rest| then rest else n + "w";
    }
  }

  ghost function OthersWaiting(s: System, id: string): set<string>
  {
    set other | other in s.jobs && other != id && Waiting(s.jobs[other])
  }

  lemma Prepend(s: System, step: Step, more: seq<Step>)
    requires Guarded(s, step)
    ensures RunFrom(s, [step] + more) == RunFrom(Do(s, step), more)
    ensures Orderly(Do(s, step), more) ==> Orderly(s, [step] + more)
  {
    assert ([step] + more)[1..] == more;
  }

  /** A waiting job is next, at some time, when no other one waits. */
  lemma NextWhenAlone(s: System, id: string) returns (now: int)
    requires id in s.jobs && Waiting(s.jobs[id]) && OthersWaiting(s, id) == {}
    ensures IsNext(s.jobs, id, now)
  {
    now := if s.jobs[id].runAt.Some? then s.jobs[id].runAt.value else 0;
    forall other | other in s.jobs && Due(s.jobs[other], now)
      ensures other == id
    {
      assert other == id || other in OthersWaiting(s, id);
    }
  }

  lemma ClaimedTwice(s: System, id: string, w: string, name: string, now: int)
    requires RunInv(s) && w in s.held && s.held[w].id == id && id in s.jobs && name !in s.held
    ensures !Exclusive(Claiming(s, name, id, now))
  {
    var t := Claiming(s, name, id, now);
    assert s.jobs[id].id == id;
    assert w in t.held && name in t.held && w != name && t.held[w].id == t.held[name].id;
  }

  /** With every other waiting job cancelled, a new worker claims the one that is already held. */
  lemma ClaimHeld(s: System, id: string, w: string) returns (more: seq<Step>)
    requires RunInv(s) && w in s.held && s.held[w].id == id && id in s.jobs && Waiting(s.jobs[id])
    requires OthersWaiting(s, id) == {}
    ensures Orderly(s, more) && !Exclusive(RunFrom(s, more))
  {
    var name := FreshName(s.held.Keys + {SUSPENDED});
    var now := NextWhenAlone(s, id);
    more := [Claim(name, id, now)];
    Prepend(s, Claim(name, id, now), []);
    ClaimedTwice(s, id, w, name, now);
  }

  /** Cancelling another waiting job leaves one fewer, and `id` as it is. */
  lemma CancelOther(s: System, id: string, other: string)
    requires RunInv(s) && other in OthersWaiting(s, id) && id in s.jobs
    ensures var step := CancelJob(s.jobs[other].tenant, other, 0); var t := Do(s, step);
      && Possible(s, step) && RunInv(t) && t.held == s.held && t.jobs == s.jobs[other := t.jobs[other]]
      && OthersWaiting(t, id) == OthersWaiting(s, id) - {other}
  {
    StepKeepsRunInv(s, CancelJob(s.jobs[other].tenant, other, 0));
  }

  lemma {:induction false} ReachHeld(s: System, id: string, w: string) returns (more: seq<Step>)
    requires RunInv(s) && w in s.held && s.held[w].id == id && id in s.jobs && Waiting(s.jobs[id])
    ensures Orderly(s, more) && !Exclusive(RunFrom(s, more))
    decreases |OthersWaiting(s, id)|
  {
    if OthersWaiting(s, id) == {} {
      more := ClaimHeld(s, id, w);
    } else {
      var other :| other in OthersWaiting(s, id);
      var step := CancelJob(s.jobs[other].tenant, other, 0);
      CancelOther(s, id, other);
      var rest := ReachHeld(Do(s, step), id, w);
      more := [step] + rest;
      Prepend(s, step, rest);
    }
  }

  /** A double hold may follow exactly when one exists or a job that is with a worker waits to be claimed. */
  lemma DoubleHoldIffInReach(s: System)
    requires RunInv(s)
    ensures MayDoublyHold(s) <==> !OutOfReach(s)
  {
    if OutOfReach(s) {
      forall more | Orderly(s, more)
        ensures Exclusive(RunFrom(s, more))
      {
        OutOfReachIsExclusive(s, more);
      }
    } else if !Exclusive(s) {
      assert Orderly(s, []) && RunFrom(s, []) == s;
    } else {
      forall w | w in s.held
        ensures s.held[w].id in s.jobs
      {
        assert CopyBounded(s, w);
      }
      var w :| w in s.held && Waiting(s.jobs[s.held[w].id]);
      var more := ReachHeld(s, s.held[w].id, w);
    }
  }

  // ---- The two unguarded steps ----

  lemma RecoveryReaches(s: System, now: int)
    requires JobInv(s)
    ensures OutOfReach(Recovering(s, now)) <==> forall w :: w in s.held ==> s.held[w].attempts >= s.held[w].maxAttempts
  {
    forall w | w in s.held
      ensures s.held[w].id in s.jobs
      ensures Waiting(Recovered(s.jobs[s.held[w].id], now)) <==> s.held[w].attempts < s.held[w].maxAttempts
    {
      assert Holds(s, w);
    }
  }

  /** After a recovery a double hold may follow exactly when some worker held a job with attempts left. */
  lemma RecoveryMayDoublyHold(s: System, now: int)
    requires JobInv(s)
    ensures MayDoublyHold(Recovering(s, now)) <==> exists w :: w in s.held && s.held[w].attempts < s.held[w].maxAttempts
  {
    RecoveringKeepsRunInv(s, now);
    DoubleHoldIffInReach(Recovering(s, now));
    RecoveryReaches(s, now);
  }

  lemma ResumeReaches(s: System, client: string, approved: bool)
    requires JobInv(s) && client in s.reading
    ensures OutOfReach(Resuming(s, client, approved)) <==> Unheld(s, s.reading[client].id)
  {
    forall w | w in s.held
      ensures s.held[w].id in s.jobs && !Waiting(s.jobs[s.held[w].id])
    {
      assert Holds(s, w);
    }
  }

  /** After a resume is written a double hold may follow exactly when some worker held that job then. */
  lemma ResumeMayDoublyHold(s: System, client: string, approved: bool)
    requires JobInv(s) && client in s.reading
    ensures MayDoublyHold(Resuming(s, client, approved)) <==> !Unheld(s, s.reading[client].id)
  {
    ResumingKeepsRunInv(s, client, approved);
    DoubleHoldIffInReach(Resuming(s, client, approved));
    ResumeReaches(s, client, approved);
  }
}
