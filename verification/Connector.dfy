/**
 * The circuit breaker around every connector call (app/connectors/base.py:51-152), for one
 * connector record.  Times are in seconds.
 */
module Connector {
  import opened Wrappers
  import opened RateLimiter

  datatype CircuitState = CLOSED | OPEN | HALF_OPEN

  /** How the underlying call ends; an interrupt is no `Exception`, so neither handler runs. */
  datatype CallOutcome = Succeeds | Fails | Interrupted

  /** An underlying call and the time read just before it. */
  datatype Attempt = Attempt(at: real, outcome: CallOutcome)

  datatype ExecuteResult = RateLimited | CircuitOpen | Ended(outcome: CallOutcome)

  const COOLDOWN := 30.0
  const THRESHOLD := 5

  /** The failures since the last success. */
  function FailureRun(log: seq<Attempt>): nat
  {
    if log == [] then 0
    else
      match log[|log| - 1].outcome
      case Succeeds => 0
      case Fails => FailureRun(log[..|log| - 1]) + 1
      case Interrupted => FailureRun(log[..|log| - 1])
  }

  /** The `i`-th call failed and left the circuit open. */
  predicate Opens(log: seq<Attempt>, i: nat)
  {
    i < |log| && log[i].outcome == Fails && FailureRun(log[..i + 1]) >= THRESHOLD
  }

  /** Every opening among the first `n` calls is over by `time`. */
  ghost predicate CooledDown(log: seq<Attempt>, n: nat, time: real)
  {
    forall i: nat :: i < n && Opens(log, i) ==> log[i].at + COOLDOWN <= time
  }

  /** No call within the cooldown after an opening. */
  ghost predicate Spaced(log: seq<Attempt>)
  {
    forall j: nat :: j < |log| ==> CooledDown(log, j, log[j].at)
  }

  lemma OpensAppend(log: seq<Attempt>, next: Attempt, i: nat)
    requires i < |log|
    ensures Opens(log + [next], i) <==> Opens(log, i)
  {
    assert (log + [next])[..i + 1] == log[..i + 1];
  }

  lemma StillCooledDown(log: seq<Attempt>, next: Attempt, n: nat, time: real)
    requires n <= |log| && CooledDown(log, n, time)
    ensures CooledDown(log + [next], n, time)
  {
    forall i: nat | i < n && Opens(log + [next], i)
      ensures log[i].at + COOLDOWN <= time
    {
      OpensAppend(log, next, i);
    }
  }

  /** A call after every cooldown keeps the log spaced; its own opening is the only one that can be fresh. */
  lemma SpacedAppend(log: seq<Attempt>, next: Attempt)
    requires Spaced(log) && CooledDown(log, |log|, next.at)
    ensures Spaced(log + [next]) && CooledDown(log + [next], |log|, next.at)
    ensures next.outcome != Fails || FailureRun(log) + 1 < THRESHOLD ==> CooledDown(log + [next], |log| + 1, next.at)
  {
    var more := log + [next];
    assert more[..|log| + 1] == more;
    StillCooledDown(log, next, |log|, next.at);
    forall j: nat | j < |more|
      ensures CooledDown(more, j, more[j].at)
    {
      if j < |log| {
        StillCooledDown(log, next, j, log[j].at);
      }
    }
  }

  class BaseConnector {
    const id: string
    const limit: int
    const limiter: Limiter
    var state: CircuitState
    var failureCount: nat
    var openedAt: Option<real>
    ghost var log: seq<Attempt>

    constructor (id: string, limit: int, limiter: Limiter)
      ensures Valid(0.0) && log == [] && this.id == id && this.limit == limit && this.limiter == limiter
    {
      this.id, this.limit, this.limiter := id, limit, limiter;
      state, failureCount, openedAt, log := CLOSED, 0, None, [];
    }

    /** What the record says about the calls made up to `clock`. */
    ghost predicate Valid(clock: real)
      reads this
    {
      && failureCount == FailureRun(log) && Spaced(log)
      && (state == CLOSED <==> failureCount < THRESHOLD)
      && (state == OPEN <==> openedAt.Some?)
      && (state == OPEN ==> log != [] && openedAt.value == log[|log| - 1].at && log[|log| - 1].outcome == Fails)
      && CooledDown(log, if state == OPEN then |log| - 1 else |log|, clock)
    }

    /** `now` is read only when the circuit is not closed. */
    method EvaluateCircuitBreaker(now: real) returns (blocked: bool)
      modifies this`state, this`openedAt
      ensures blocked <==> old(state) == OPEN && old(openedAt).Some? && now - old(openedAt).value < COOLDOWN
      ensures state == if old(state) == OPEN && !blocked then HALF_OPEN else old(state)
      ensures openedAt == if old(state) == OPEN && !blocked then None else old(openedAt)
    {
      if state == CLOSED {
        return false;
      }
      if state == OPEN {
        if openedAt.Some? {
          if now - openedAt.value >= COOLDOWN {
            state := HALF_OPEN;
            openedAt := None;
          } else {
            return true;
          }
        } else {
          state := HALF_OPEN;
        }
      }
      return false;
    }

    method HandleSuccess()
      modifies this`state, this`failureCount
      ensures failureCount == 0 && state == if old(state) == HALF_OPEN then CLOSED else old(state)
    {
      failureCount := 0;
      if state == HALF_OPEN {
        state := CLOSED;
      }
    }

    method HandleFailure(now: real)
      modifies this`state, this`failureCount, this`openedAt
      ensures failureCount == old(failureCount) + 1
      ensures if old(state) == HALF_OPEN || failureCount >= THRESHOLD
              then state == OPEN && openedAt == Some(now)
              else state == old(state) && openedAt == old(openedAt)
    {
      failureCount := failureCount + 1;
      if state == HALF_OPEN || failureCount >= THRESHOLD {
        state := OPEN;
        openedAt := Some(now);
      }
    }

    /** The underlying call and its handler, once the circuit breaker lets it through. */
    method Delegate(called: real, outcome: CallOutcome)
      requires state != OPEN && openedAt.None? && (state == CLOSED <==> failureCount < THRESHOLD)
      requires failureCount == FailureRun(log) && Spaced(log) && CooledDown(log, |log|, called)
      modifies this
      ensures Valid(called) && log == old(log) + [Attempt(called, outcome)]
      ensures outcome != Interrupted ==> state != HALF_OPEN
    {
      SpacedAppend(log, Attempt(called, outcome));
      log := log + [Attempt(called, outcome)];
      match outcome {
        case Succeeds => HandleSuccess();
        case Fails => HandleFailure(called);
        case Interrupted =>
      }
    }

    /** What follows the rate limit: the circuit breaker and, unless it blocks, the call. */
    method ExecuteGuarded(ghost clock: real, checked: real, called: real, outcome: CallOutcome)
      returns (r: ExecuteResult)
      requires Valid(clock) && clock <= checked <= called
      modifies this
      ensures Valid(called) && r != RateLimited
      ensures r == CircuitOpen <==> old(state) == OPEN && checked < old(log[|log| - 1].at) + COOLDOWN
      ensures r == CircuitOpen ==> log == old(log) && state == old(state) && openedAt == old(openedAt)
      ensures r != CircuitOpen ==> r == Ended(outcome) && log == old(log) + [Attempt(called, outcome)]
      ensures r == Ended(outcome) && outcome != Interrupted ==> state != HALF_OPEN
    {
      ghost var open := state == OPEN;
      var blocked := EvaluateCircuitBreaker(checked);
      if blocked {
        return CircuitOpen;
      }
      Delegate(called, outcome);
      return Ended(outcome);
    }

    /**
     * One execution: the clock is read for the rate limit, for the circuit breaker and before
     * the call, and has reached `clock` before.
     */
    method Execute(ghost clock: real, limited: real, checked: real, called: real, outcome: CallOutcome)
      returns (r: ExecuteResult)
      requires Valid(clock) && limiter.Valid() && clock <= limited <= checked <= called
      requires NotAfter(limiter.History(id), limited)
      modifies this, limiter
      ensures Valid(called) && limiter.Valid()
      ensures r == RateLimited <==> Refused(old(limiter.History(id)), limit, limited)
      ensures r == CircuitOpen
        <==> r != RateLimited && old(state) == OPEN && checked < old(log[|log| - 1].at) + 30.0
      ensures state == CLOSED <==> FailureRun(log) < 5
      ensures r == RateLimited || r == CircuitOpen ==>
        log == old(log) && state == old(state) && openedAt == old(openedAt)
      ensures r != RateLimited && r != CircuitOpen ==>
        r == Ended(outcome) && log == old(log) + [Attempt(called, outcome)]
      ensures r.Ended? && outcome != Interrupted ==> state != HALF_OPEN
      ensures limiter.History(id) == if r == RateLimited then old(limiter.History(id))
                                     else Attempted(old(limiter.History(id)), limit, limited)
    {
      var refused := limiter.CheckLimit(id, limit, limited);
      if refused {
        return RateLimited;
      }
      r := ExecuteGuarded(clock, checked, called, outcome);
    }
  }
}
