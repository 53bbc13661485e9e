/**
 * When a node can succeed more often than its successes were lost, and when its answers can differ
 * (app/actions/engine.py:182-230): the exact condition, over everything that may happen next without a
 * further unguarded step.
 */
module RepeatedCalls {
  import opened Wrappers
  import opened JobQueue
  import opened Worker
  import opened ActionLedger
  import opened DurableProtocol
  import opened DurableRuns
  import opened OrderlyRuns
  import opened DoubleHolds
  import opened ActionProtocol

  /** Two successes more than were lost. */
  ghost predicate Repeated(s: System, k: Key)
  {
    SuccessfulCalls(s.calls, k) >= Occurrences(s.lost, k) + 2
  }

  /** Two different answers for one node. */
  ghost predicate Disagreed(s: System)
  {
    exists a, b :: a in s.answers && b in s.answers && a.key == b.key && a != b
  }

  ghost predicate MayRepeat(s: System)
  {
    exists more, k :: Orderly(s, more) && Repeated(RunFrom(s, more), k)
  }

  ghost predicate MayDisagree(s: System)
  {
    exists more :: Orderly(s, more) && Disagreed(RunFrom(s, more))
  }

  /** What every run without a double hold so far keeps. */
  ghost predicate SoundSoFar(s: System)
  {
    RunInv(s) && ActionInv(s) && PlainCalls(s)
  }

  // ---- Without a double hold in reach ----

  /** Exclusive at the end of every orderly continuation means exclusive all the way along each. */
  lemma {:induction false} StaysExclusive(s: System, more: seq<Step>)
    requires !MayDoublyHold(s) && Orderly(s, more)
    ensures NeverDoublyHeld(s, more)
    decreases |more|
  {
    assert Orderly(s, []) && RunFrom(s, []) == s;
    if more != [] {
      forall rest | Orderly(Do(s, more[0]), rest)
        ensures Exclusive(RunFrom(Do(s, more[0]), rest))
      {
        Prepend(s, more[0], rest);
      }
      StaysExclusive(Do(s, more[0]), more[1..]);
    }
  }

  lemma {:induction false} UnloggedSucceedsNever(calls: seq<Call>, k: Key)
    requires forall c :: c in calls ==> c.key != k
    ensures SuccessfulCalls(calls, k) == 0
  {
    if calls != [] {
      UnloggedSucceedsNever(calls[..|calls| - 1], k);
    }
  }

  lemma NeverRepeats(s: System, k: Key)
    requires ActionInv(s) && PlainCalls(s)
    ensures !Repeated(s, k)
  {
    if Plain(k) {
      assert KeyInv(s, k);
      if Landing(s, k) {
        var w :| LandsWith(s, w, k);
        assert FliesWith(s, w, k);
      }
    } else {
      UnloggedSucceedsNever(s.calls, k);
    }
  }

  lemma NeverDisagrees(s: System)
    requires ActionInv(s)
    ensures !Disagreed(s)
  {
    forall a, b | a in s.answers && b in s.answers && a.key == b.key
      ensures a == b
    {
      OneAnswerPerNode(s, a, b);
    }
  }

  // ---- From a double hold ----

  /** One more step of a continuation. */
  lemma Extend(s: System, steps: seq<Step>, step: Step) returns (more: seq<Step>)
    requires Orderly(s, steps) && Possible(RunFrom(s, steps), step) && !step.Recover? && !step.ResumeJob?
    ensures Orderly(s, more) && RunFrom(s, more) == Next(RunFrom(s, steps), step)
  {
    more := steps + [step];
    RunSnoc(s, steps, step);
    OrderlySnoc(s, steps, step);
  }

  /** A worker's action run in progress is brought to its end. */
  lemma Land(s: System, steps: seq<Step>, v: string) returns (more: seq<Step>)
    requires Orderly(s, steps) && v in RunFrom(s, steps).held
    ensures var t := RunFrom(s, steps); var u := RunFrom(s, more);
      Orderly(s, more) && u.held == t.held && u.flights == t.flights - {v}
  {
    more := steps;
    var t := RunFrom(s, steps);
    if v !in t.flights {
      assert t.flights == t.flights - {v};
      return;
    }
    if t.flights[v].Ready? {
      more := Extend(s, more, Invoke(v, false, None));
      assert RunFrom(s, more).flights - {v} == t.flights - {v};
    }
    more := Extend(s, more, Save(v, true));
  }

  lemma {:induction false} UnlistedOccursNever(keys: seq<Key>, k: Key)
    requires k !in keys
    ensures Occurrences(keys, k) == 0
  {
    if keys != [] {
      UnlistedOccursNever(keys[..|keys| - 1], k);
    }
  }

  /** Nothing is recorded of the node. */
  ghost predicate Untouched(s: System, k: Key)
  {
    SuccessfulRows(s.rows, k) == 0 && SuccessfulCalls(s.calls, k) == 0 && Occurrences(s.lost, k) == 0
  }

  /** A node whose name is longer than every key in the tables. */
  lemma FreshNode(s: System, tenant: string, execution: string) returns (node: string)
    ensures Untouched(s, Key(tenant, execution, node))
  {
    node := FreshName((set row | row in s.rows :: row.idempotencyKey) + (set c | c in s.calls :: c.key.node)
                      + (set key | key in s.lost :: key.node));
    var k := Key(tenant, execution, node);
    forall row | row in s.rows
      ensures !Matches(row, k)
    {
      assert |row.idempotencyKey| < |node|;
    }
    NoRowNoMatch(s.rows, k);
    UnloggedSucceedsNever(s.calls, k);
    UnlistedOccursNever(s.lost, k);
  }

  /** Two workers at one execution, neither running a node. */
  ghost predicate TwoFree(s: System, v: string, w: string)
  {
    && v != w && v in s.held && w in s.held && v !in s.flights && w !in s.flights
    && s.held[v].tenant == s.held[w].tenant && s.held[v].execution == s.held[w].execution
  }

  function KeyOf(s: System, w: string, node: string): Key
    requires w in s.held
  {
    Key(s.held[w].tenant, s.held[w].execution, node)
  }

  /** Both workers of a double hold finish the node they are running. */
  lemma LandBoth(s: System, v: string, w: string) returns (more: seq<Step>)
    requires RunInv(s) && v != w && v in s.held && w in s.held && s.held[v].id == s.held[w].id
    ensures Orderly(s, more) && TwoFree(RunFrom(s, more), v, w)
  {
    assert Orderly(s, []) && RunFrom(s, []) == s;
    more := Land(s, [], v);
    more := Land(s, more, w);
    assert CopyBounded(s, v) && CopyBounded(s, w);
  }

  /** Both find no saved success ... */
  lemma LookTwice(s: System, steps: seq<Step>, v: string, w: string, node: string) returns (more: seq<Step>)
    requires Orderly(s, steps)
    requires var t := RunFrom(s, steps); TwoFree(t, v, w) && SuccessfulRows(t.rows, KeyOf(t, v, node)) == 0
    ensures var t := RunFrom(s, steps);
      Orderly(s, more) && RunFrom(s, more) == t.(flights := t.flights[v := Ready(node)][w := Ready(node)])
  {
    more := Extend(s, steps, Look(v, node));
    more := Extend(s, more, Look(w, node));
  }

  /** ... so both call ... */
  lemma InvokeTwice(s: System, steps: seq<Step>, v: string, w: string, node: string) returns (more: seq<Step>)
    requires Orderly(s, steps)
    requires var t := RunFrom(s, steps);
      && v != w && v in t.held && w in t.held && KeyOf(t, v, node) == KeyOf(t, w, node)
      && v in t.flights && w in t.flights && t.flights[v] == Ready(node) && t.flights[w] == Ready(node)
    ensures var t := RunFrom(s, steps); var k := KeyOf(t, v, node);
      && Orderly(s, more)
      && RunFrom(s, more) == t.(calls := t.calls + [Call(k, true, Some("A")), Call(k, true, Some("B"))],
           flights := t.flights[v := Made(node, true, Some("A"))][w := Made(node, true, Some("B"))])
  {
    var t := RunFrom(s, steps);
    var k := KeyOf(t, v, node);
    more := Extend(s, steps, Invoke(v, true, Some("A")));
    more := Extend(s, more, Invoke(w, true, Some("B")));
    assert t.calls + [Call(k, true, Some("A"))] + [Call(k, true, Some("B"))]
        == t.calls + [Call(k, true, Some("A")), Call(k, true, Some("B"))];
  }

  lemma TwoMoreCalls(calls: seq<Call>, k: Key, a: Option<string>, b: Option<string>)
    ensures SuccessfulCalls(calls + [Call(k, true, a), Call(k, true, b)], k) == SuccessfulCalls(calls, k) + 2
  {
    var one, two := calls + [Call(k, true, a)], calls + [Call(k, true, a), Call(k, true, b)];
    assert one[..|one| - 1] == calls && two[..|two| - 1] == one;
  }

  /** ... and save, each an answer of its own. */
  lemma SaveTwice(s: System, steps: seq<Step>, v: string, w: string, node: string) returns (more: seq<Step>)
    requires Orderly(s, steps)
    requires var t := RunFrom(s, steps);
      && v != w && v in t.held && w in t.held && KeyOf(t, v, node) == KeyOf(t, w, node)
      && v in t.flights && w in t.flights
      && t.flights[v] == Made(node, true, Some("A")) && t.flights[w] == Made(node, true, Some("B"))
    ensures Orderly(s, more) && Disagreed(RunFrom(s, more))
  {
    var k := KeyOf(RunFrom(s, steps), v, node);
    more := Extend(s, steps, Save(v, true));
    assert Answer(k, Some("A")) in RunFrom(s, more).answers;
    more := Extend(s, more, Save(w, true));
    var t := RunFrom(s, more);
    assert Answer(k, Some("A")) in t.answers && Answer(k, Some("B")) in t.answers;
  }

  /** Two workers at one execution can call twice, lose nothing, and answer differently. */
  lemma TwoFreeRepeat(s: System, steps: seq<Step>, v: string, w: string)
    requires Orderly(s, steps) && TwoFree(RunFrom(s, steps), v, w)
    ensures MayRepeat(s) && MayDisagree(s)
  {
    var t := RunFrom(s, steps);
    var node := FreshNode(t, t.held[v].tenant, t.held[v].execution);
    var k := KeyOf(t, v, node);
    var looked := LookTwice(s, steps, v, w, node);
    var called := InvokeTwice(s, looked, v, w, node);
    TwoMoreCalls(t.calls, k, Some("A"), Some("B"));
    assert Repeated(RunFrom(s, called), k);
    var saved := SaveTwice(s, called, v, w, node);
  }

  lemma DoubleHoldRepeats(s: System)
    requires RunInv(s) && !Exclusive(s)
    ensures MayRepeat(s) && MayDisagree(s)
  {
    var v, w :| v in s.held && w in s.held && s.held[v].id == s.held[w].id && v != w;
    var more := LandBoth(s, v, w);
    TwoFreeRepeat(s, more, v, w);
  }

  lemma {:induction false} RunConcat(s: System, first: seq<Step>, second: seq<Step>)
    requires Orderly(s, first)
    ensures RunFrom(s, first + second) == RunFrom(RunFrom(s, first), second)
    ensures Orderly(RunFrom(s, first), second) ==> Orderly(s, first + second)
    decreases |first|
  {
    if first == [] {
      assert first + second == second;
    } else {
      assert (first + second)[1..] == first[1..] + second;
      RunConcat(Do(s, first[0]), first[1..], second);
    }
  }

  /** What may follow an orderly continuation may follow now. */
  lemma MayLater(s: System, first: seq<Step>)
    requires Orderly(s, first)
    ensures MayRepeat(RunFrom(s, first)) ==> MayRepeat(s)
    ensures MayDisagree(RunFrom(s, first)) ==> MayDisagree(s)
  {
    var t := RunFrom(s, first);
    if MayRepeat(t) {
      var more, k :| Orderly(t, more) && Repeated(RunFrom(t, more), k);
      RunConcat(s, first, more);
      assert Repeated(RunFrom(s, first + more), k);
    }
    if MayDisagree(t) {
      var more :| Orderly(t, more) && Disagreed(RunFrom(t, more));
      RunConcat(s, first, more);
    }
  }

  // ---- The exact condition ----

  lemma NoDoubleHoldNoRepeat(s: System)
    requires SoundSoFar(s) && !MayDoublyHold(s)
    ensures !MayRepeat(s) && !MayDisagree(s)
  {
    forall more | Orderly(s, more)
      ensures !Disagreed(RunFrom(s, more)) && forall k :: !Repeated(RunFrom(s, more), k)
    {
      StaysExclusive(s, more);
      RunKeepsActionInv(s, more);
      NeverDisagrees(RunFrom(s, more));
      forall k
        ensures !Repeated(RunFrom(s, more), k)
      {
        NeverRepeats(RunFrom(s, more), k);
      }
    }
  }

  /**
   * Some continuation repeats a success that was not lost, and some makes a node's answers differ, exactly
   * when a double hold may follow.
   */
  lemma RepeatIffDoubleHold(s: System)
    requires SoundSoFar(s)
    ensures MayRepeat(s) <==> MayDoublyHold(s)
    ensures MayDisagree(s) <==> MayDoublyHold(s)
  {
    if MayDoublyHold(s) {
      var more :| Orderly(s, more) && !Exclusive(RunFrom(s, more));
      RunKeepsRunInv(s, more);
      DoubleHoldRepeats(RunFrom(s, more));
      MayLater(s, more);
    } else {
      NoDoubleHoldNoRepeat(s);
    }
  }

  lemma OrderlyIsSound(steps: seq<Step>)
    requires Orderly(INIT, steps)
    ensures JobInv(Run(steps)) && SoundSoFar(Run(steps))
  {
    OrderlyRunsKeepJobInv(INIT, steps);
    RunKeepsActionInv(INIT, steps);
  }

  lemma StepKeepsSound(s: System, step: Step)
    requires SoundSoFar(s) && Exclusive(s) && Possible(s, step)
    ensures SoundSoFar(Next(s, step))
  {
    StepKeepsRunInv(s, step);
    StepKeepsActionInv(s, step);
    StepKeepsPlainCalls(s, step);
  }

  /** After a recovery: exactly when some worker holds a job with attempts left. */
  lemma RecoveryMayRepeat(steps: seq<Step>, now: int)
    requires Orderly(INIT, steps)
    ensures var s := Run(steps); var t := Recovering(s, now);
      && (MayRepeat(t) <==> exists w :: w in s.held && s.held[w].attempts < s.held[w].maxAttempts)
      && (MayDisagree(t) <==> MayRepeat(t))
  {
    var s := Run(steps);
    OrderlyIsSound(steps);
    StepKeepsSound(s, Recover(now));
    RepeatIffDoubleHold(Recovering(s, now));
    RecoveryMayDoublyHold(s, now);
  }

  /** After a resume is written: exactly when some worker holds that job. */
  lemma ResumeMayRepeat(steps: seq<Step>, client: string, approved: bool)
    requires Orderly(INIT, steps) && client in Run(steps).reading
    ensures var s := Run(steps); var t := Resuming(s, client, approved);
      && (MayRepeat(t) <==> !Unheld(s, s.reading[client].id))
      && (MayDisagree(t) <==> MayRepeat(t))
  {
    var s := Run(steps);
    OrderlyIsSound(steps);
    StepKeepsSound(s, ResumeJob(client, approved));
    RepeatIffDoubleHold(Resuming(s, client, approved));
    ResumeMayDoublyHold(s, client, approved);
  }

  /** Until a step is unguarded nothing is ever repeated without loss. */
  lemma OrderlyNeverRepeats(steps: seq<Step>)
    requires Orderly(INIT, steps)
    ensures !MayRepeat(Run(steps)) && !MayDisagree(Run(steps))
  {
    var s := Run(steps);
    OrderlyIsSound(steps);
    RepeatIffDoubleHold(s);
    forall w | w in s.held
      ensures s.held[w].id in s.jobs && !Waiting(s.jobs[s.held[w].id])
    {
      assert Holds(s, w);
    }
    DoubleHoldIffInReach(s);
  }
}
