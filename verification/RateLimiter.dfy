/**
 * The sliding-window rate limiter (app/connectors/base.py:25-45; app/vault/service.py:32-45 is
 * the same code with a limit of 100).  Times are in seconds.
 */
module RateLimiter {

  function Filter(s: seq<real>, p: real -> bool): (r: seq<real>)
    ensures forall x :: x in r <==> x in s && p(x)
  {
    if s == [] then []
    else Filter(s[..|s| - 1], p) + if p(s[|s| - 1]) then [s[|s| - 1]] else []
  }

  lemma {:induction false} FilterLess(s: seq<real>, p: real -> bool, q: real -> bool)
    requires forall x :: x in s && p(x) ==> q(x)
    ensures |Filter(s, p)| <= |Filter(s, q)|
  {
    if s != [] {
      var front, last := s[..|s| - 1], s[|s| - 1];
      assert s == front + [last] && last in s;
      FilterLess(front, p, q);
      assert |Filter(s, p)| == |Filter(front, p)| + if p(last) then 1 else 0;
      assert |Filter(s, q)| == |Filter(front, q)| + if q(last) then 1 else 0;
    }
  }

  lemma {:induction false} FilterTwice(s: seq<real>, p: real -> bool, q: real -> bool)
    requires forall x :: x in s && q(x) ==> p(x)
    ensures Filter(Filter(s, p), q) == Filter(s, q)
  {
    if s != [] {
      var front, last := s[..|s| - 1], s[|s| - 1];
      FilterTwice(front, p, q);
      if p(last) {
        assert Filter(s, p)[..|Filter(s, p)| - 1] == Filter(front, p);
      } else {
        assert Filter(s, p) == Filter(front, p);
      }
    }
  }

  /** The calls of the 60 seconds up to `now`. */
  function Recent(calls: seq<real>, now: real): seq<real>
  {
    Filter(calls, t => t > now - 60.0)
  }

  /** How many of the calls come after `start`. */
  function CountAfter(calls: seq<real>, start: real): nat
  {
    if calls == [] then 0
    else CountAfter(calls[..|calls| - 1], start) + if calls[|calls| - 1] > start then 1 else 0
  }

  lemma {:induction false} RecentCount(calls: seq<real>, now: real)
    ensures |Recent(calls, now)| == CountAfter(calls, now - 60.0)
  {
    if calls != [] {
      RecentCount(calls[..|calls| - 1], now);
    }
  }

  /** Whether a call at `now` is refused, given every call accepted before. */
  predicate Refused(history: seq<real>, limit: int, now: real)
  {
    0 < limit <= |Recent(history, now)|
  }

  /** What is accepted after an attempt at `now`; without a limit nothing is recorded. */
  function Attempted(history: seq<real>, limit: int, now: real): seq<real>
  {
    if limit <= 0 || Refused(history, limit, now) then history else history + [now]
  }

  predicate NotAfter(history: seq<real>, now: real)
  {
    forall t :: t in history ==> t <= now
  }

  /** Pruning at an earlier time loses nothing that is recent now. */
  lemma PrunedAgrees(history: seq<real>, before: real, now: real)
    requires before <= now
    ensures Recent(Recent(history, before), now) == Recent(history, now)
  {
    FilterTwice(history, t => t > before - 60.0, t => t > now - 60.0);
  }

  /** `pruned` is the accepted history without what was old when the last call was accepted. */
  ghost predicate Prunes(pruned: seq<real>, history: seq<real>)
  {
    if history == [] then pruned == [] else pruned == Recent(history, history[|history| - 1])
  }

  lemma PrunedIsEnough(pruned: seq<real>, history: seq<real>, now: real)
    requires Prunes(pruned, history) && NotAfter(history, now)
    ensures Recent(pruned, now) == Recent(history, now)
  {
    if history != [] {
      PrunedAgrees(history, history[|history| - 1], now);
    }
  }

  class Limiter {
    var calls: map<string, seq<real>>
    ghost var accepted: map<string, seq<real>>

    ghost predicate Valid()
      reads this
    {
      calls.Keys == accepted.Keys && forall id :: id in calls ==> Prunes(calls[id], accepted[id])
    }

    ghost function History(id: string): seq<real>
      reads this
    {
      if id in accepted then accepted[id] else []
    }

    constructor ()
      ensures Valid() && accepted == map[]
    {
      calls, accepted := map[], map[];
    }

    /** Refuses exactly when the full accepted history has `limit` calls in the last 60 seconds. */
    method CheckLimit(id: string, limit: int, now: real) returns (refused: bool)
      requires Valid() && NotAfter(History(id), now)
      modifies this
      ensures Valid()
      ensures refused <==> Refused(old(History(id)), limit, now)
      ensures refused <==> 0 < limit <= CountAfter(old(History(id)), now - 60.0)
      ensures accepted == if limit <= 0 || refused then old(accepted)
                          else old(accepted)[id := Attempted(old(History(id)), limit, now)]
    {
      if limit <= 0 {
        return false;
      }
      var timestamps := if id in calls then calls[id] else [];
      ghost var history := History(id);
      RecentCount(history, now);
      PrunedIsEnough(timestamps, history, now);
      timestamps := Recent(timestamps, now);
      if |timestamps| >= limit {
        return true;
      }
      calls := calls[id := timestamps + [now]];
      accepted := accepted[id := history + [now]];
      return false;
    }
  }

  // ---- Every window ----

  /** All attempts at one key in turn. */
  function Accepted(attempts: seq<real>, limit: int): seq<real>
  {
    if attempts == [] then []
    else Attempted(Accepted(attempts[..|attempts| - 1], limit), limit, attempts[|attempts| - 1])
  }

  ghost predicate Ascending(ts: seq<real>)
  {
    forall i, j :: 0 <= i < j < |ts| ==> ts[i] <= ts[j]
  }

  lemma {:induction false} AcceptedAreAttempts(attempts: seq<real>, limit: int)
    ensures forall t :: t in Accepted(attempts, limit) ==> t in attempts
  {
    if attempts != [] {
      AcceptedAreAttempts(attempts[..|attempts| - 1], limit);
    }
  }

  /** A window: 60 seconds from `start`, open at one end. */
  datatype Window = ClosedOpen(start: real) | OpenClosed(start: real)

  predicate InWindow(w: Window, t: real)
  {
    match w
    case ClosedOpen(a) => a <= t < a + 60.0
    case OpenClosed(a) => a < t <= a + 60.0
  }

  /** With a clock that does not go back, no 60-second window has more accepted calls than the limit. */
  lemma {:induction false} NoWindowExceedsTheLimit(attempts: seq<real>, limit: int, w: Window)
    requires limit > 0 && Ascending(attempts)
    ensures |Filter(Accepted(attempts, limit), t => InWindow(w, t))| <= limit
  {
    if attempts != [] {
      var front, now := attempts[..|attempts| - 1], attempts[|attempts| - 1];
      var history := Accepted(front, limit);
      NoWindowExceedsTheLimit(front, limit, w);
      assert (history + [now])[..|history|] == history;
      if InWindow(w, now) && !Refused(history, limit, now) {
        AcceptedAreAttempts(front, limit);
        FilterLess(history, t => InWindow(w, t), t => t > now - 60.0);
      }
    }
  }
}
