/** What the durable protocol guarantees about connector calls, while no job comes to two workers. */
module ActionProtocol {
  import opened Wrappers
  import opened JobQueue
  import opened Worker
  import opened ActionLedger
  import opened DurableProtocol
  import opened DurableRuns

  predicate Plain(k: Key) { ':' !in k.execution }

  predicate FliesWith(s: System, w: string, k: Key)
  {
    w in s.flights && w in s.held && FlightKey(s, w) == k
  }

  predicate LandsWith(s: System, w: string, k: Key)
  {
    FliesWith(s, w, k) && s.flights[w].Made? && s.flights[w].success
  }

  /** A successful call for `k` has been made and is about to be saved. */
  ghost predicate Landing(s: System, k: Key)
  {
    exists w :: LandsWith(s, w, k)
  }

  /** Every successful call for `k` is saved, about to be saved, or lost. */
  ghost predicate Accounted(s: System, k: Key)
  {
    SuccessfulCalls(s.calls, k)
      == SuccessfulRows(s.rows, k) + Occurrences(s.lost, k) + (if Landing(s, k) then 1 else 0)
  }

  /** While a call for `k` is in progress nothing is saved for `k`, and at most one success ever is. */
  ghost predicate SavedOnce(s: System, k: Key)
  {
    && SuccessfulRows(s.rows, k) <= 1
    && forall w :: FliesWith(s, w, k) ==> SuccessfulRows(s.rows, k) == 0
  }

  ghost predicate KeyInv(s: System, k: Key)
  {
    Accounted(s, k) && SavedOnce(s, k)
  }

  /** Every answer given is the one of a saved success, which is that of a call. */
  ghost predicate Grounded(s: System, a: Answer)
  {
    && Plain(a.key)
    && (exists row :: row in s.rows && Matches(row, a.key) && row.externalId == a.externalId)
  }

  ghost predicate FromCall(s: System, row: ActionRow)
  {
    exists c :: c in s.calls && c.success && row == RowFor(c.key, true, c.externalId)
  }

  ghost predicate Balanced(s: System)
  {
    forall k :: Plain(k) ==> KeyInv(s, k)
  }

  /** Answers come from rows, successful rows from calls, and flights that have called are logged. */
  ghost predicate Documented(s: System)
  {
    && s.flights.Keys <= s.held.Keys
    && (forall a :: a in s.answers ==> Grounded(s, a))
    && (forall row :: row in s.rows && row.success ==> FromCall(s, row))
    && (forall w :: w in s.flights && s.flights[w].Made? ==>
          Call(FlightKey(s, w), s.flights[w].success, s.flights[w].externalId) in s.calls)
  }

  ghost predicate ActionInv(s: System)
  {
    Balanced(s) && Documented(s)
  }

  /** No other worker runs `k` while `w` does. */
  ghost predicate SoleFlight(s: System, w: string, k: Key)
  {
    FliesWith(s, w, k) ==> forall v :: FliesWith(s, v, k) ==> v == w
  }

  /** How appending a row or a call counts. */
  lemma AppendCounts(s: System, row: ActionRow, c: Call, more: seq<Key>, k: Key)
    ensures SuccessfulRows(s.rows + [row], k) == SuccessfulRows(s.rows, k) + if Matches(row, k) then 1 else 0
    ensures SuccessfulCalls(s.calls + [c], k) == SuccessfulCalls(s.calls, k) + if c.key == k && c.success then 1 else 0
    ensures |more| == 1 ==> Occurrences(s.lost + more, k) == Occurrences(s.lost, k) + if more[0] == k then 1 else 0
    ensures more == [] ==> s.lost + more == s.lost
  {
    assert (s.rows + [row])[..|s.rows|] == s.rows;
    assert (s.calls + [c])[..|s.calls|] == s.calls;
    if |more| == 1 {
      assert (s.lost + more)[..|s.lost|] == s.lost;
    }
  }

  lemma RowMatches(k: Key, success: bool, externalId: Option<string>, l: Key)
    requires Plain(k) && Plain(l)
    ensures Matches(RowFor(k, success, externalId), l) <==> success && k == l
  {
    if k.tenant == l.tenant && IdempotencyKey(k) == IdempotencyKey(l) {
      KeysDiffer(k, l);
    }
  }

  /** Steps that touch no action table and no flight, and take no held job away. */
  lemma OtherStepsKeepBalance(s: System, t: System)
    requires Balanced(s) && s.flights.Keys <= s.held.Keys
    requires t.flights == s.flights && t.rows == s.rows && t.calls == s.calls && t.lost == s.lost
    requires forall w :: w in s.flights ==> w in t.held && t.held[w] == s.held[w]
    ensures Balanced(t)
  {
    forall k | Plain(k)
      ensures KeyInv(t, k)
    {
      assert KeyInv(s, k);
      forall w
        ensures FliesWith(t, w, k) <==> FliesWith(s, w, k)
        ensures LandsWith(t, w, k) <==> LandsWith(s, w, k)
      {
      }
    }
  }

  lemma OtherStepsKeepActionInv(s: System, t: System)
    requires ActionInv(s)
    requires t.flights == s.flights && t.rows == s.rows && t.calls == s.calls
    requires t.lost == s.lost && t.answers == s.answers
    requires forall w :: w in s.flights ==> w in t.held && t.held[w] == s.held[w]
    ensures ActionInv(t)
  {
    OtherStepsKeepBalance(s, t);
  }

  // ---- Steps of one worker ----

  /** Worker `v` flies and holds the same in `s` and `t`. */
  ghost predicate SameFor(s: System, t: System, v: string)
  {
    && (v in t.flights <==> v in s.flights) && (v in s.flights ==> t.flights[v] == s.flights[v])
    && (v in t.held <==> v in s.held) && (v in s.held ==> t.held[v] == s.held[v])
  }

  ghost predicate OnlyFlightOf(s: System, t: System, w: string)
  {
    forall v :: v != w ==> SameFor(s, t, v)
  }

  /** A step of worker `w` keeps the books of `k` when what it adds to them balances. */
  lemma KeyAfter(s: System, t: System, w: string, k: Key)
    requires KeyInv(s, k) && SoleFlight(s, w, k) && OnlyFlightOf(s, t, w)
    requires FliesWith(t, w, k) ==> SuccessfulRows(s.rows, k) == 0 && (FliesWith(s, w, k) || !LandsWith(t, w, k))
    requires SuccessfulRows(t.rows, k) != SuccessfulRows(s.rows, k) ==>
      FliesWith(s, w, k) && !FliesWith(t, w, k) && SuccessfulRows(t.rows, k) == 1
    requires SuccessfulCalls(t.calls, k) - SuccessfulCalls(s.calls, k)
          == SuccessfulRows(t.rows, k) - SuccessfulRows(s.rows, k) + Occurrences(t.lost, k) - Occurrences(s.lost, k)
             + (if LandsWith(t, w, k) then 1 else 0) - (if LandsWith(s, w, k) then 1 else 0)
    ensures KeyInv(t, k)
  {
    forall v | v != w
      ensures FliesWith(t, v, k) <==> FliesWith(s, v, k)
      ensures LandsWith(t, v, k) <==> LandsWith(s, v, k)
      ensures FliesWith(s, w, k) ==> !FliesWith(s, v, k)
    {
      assert SameFor(s, t, v);
    }
    if Landing(s, k) && !LandsWith(s, w, k) {
      var v :| LandsWith(s, v, k);
      assert LandsWith(t, v, k);
    }
    if Landing(t, k) && !LandsWith(t, w, k) {
      var v :| LandsWith(t, v, k);
      assert LandsWith(s, v, k);
    }
    if LandsWith(t, w, k) && !LandsWith(s, w, k) {
      forall v
        ensures !LandsWith(s, v, k)
      {
      }
    }
  }

  lemma LookKeepsKeyInv(s: System, w: string, node: string, k: Key)
    requires SoleFlight(s, w, k) && KeyInv(s, k) && w in s.held && w !in s.flights
    ensures KeyInv(Looked(s, w, node), k)
  {
    LookAnswersOrReadies(s, w, node);
    KeyAfter(s, Looked(s, w, node), w, k);
  }

  lemma LookKeepsBalance(s: System, w: string, node: string)
    requires RunInv(s) && Exclusive(s) && Balanced(s) && w in s.held && w !in s.flights
    ensures Balanced(Looked(s, w, node))
  {
    forall k | Plain(k)
      ensures KeyInv(Looked(s, w, node), k)
    {
      assert KeyInv(s, k);
      LookKeepsKeyInv(s, w, node, k);
    }
  }

  lemma LookKeepsDocuments(s: System, w: string, node: string)
    requires RunInv(s) && Documented(s) && w in s.held && w !in s.flights
    ensures Documented(Looked(s, w, node))
  {
    NoRowNoMatch(s.rows, Key(s.held[w].tenant, s.held[w].execution, node));
  }

  lemma InvokeKeepsKeyInv(s: System, w: string, success: bool, externalId: Option<string>, k: Key)
    requires SoleFlight(s, w, k) && KeyInv(s, k) && w in s.held && w in s.flights && s.flights[w].Ready?
    ensures KeyInv(Invoking(s, w, success, externalId), k)
  {
    var t := Invoking(s, w, success, externalId);
    AppendCounts(s, RowFor(k, false, None), Call(FlightKey(s, w), success, externalId), [], k);
    assert FliesWith(t, w, k) ==> FliesWith(s, w, k);
    KeyAfter(s, t, w, k);
  }

  lemma InvokeKeepsBalance(s: System, w: string, success: bool, externalId: Option<string>)
    requires RunInv(s) && Exclusive(s) && Balanced(s) && w in s.held && w in s.flights && s.flights[w].Ready?
    ensures Balanced(Invoking(s, w, success, externalId))
  {
    forall k | Plain(k)
      ensures KeyInv(Invoking(s, w, success, externalId), k)
    {
      assert KeyInv(s, k);
      InvokeKeepsKeyInv(s, w, success, externalId, k);
    }
  }

  lemma InvokeKeepsDocuments(s: System, w: string, success: bool, externalId: Option<string>)
    requires RunInv(s) && Documented(s) && w in s.held && w in s.flights && s.flights[w].Ready?
    ensures Documented(Invoking(s, w, success, externalId))
  {
  }

  /** A failed row after the saved one counts for nothing. */
  lemma SavedRowsCount(rows: seq<ActionRow>, k0: Key, success: bool, externalId: Option<string>, audited: bool, k: Key)
    requires Plain(k0) && Plain(k)
    ensures SuccessfulRows(rows + RowsOf(k0, Returned(success, externalId), Persistence(true, audited)), k)
         == SuccessfulRows(rows, k) + if success && k0 == k then 1 else 0
  {
    var saved, failed := RowFor(k0, success, externalId), RowFor(k0, false, None);
    RowMatches(k0, success, externalId, k);
    if audited {
      assert [saved] + [] == [saved];
    } else {
      RowMatches(k0, false, None, k);
      assert rows + ([saved] + [failed]) == rows + [saved] + [failed];
    }
  }

  /** Saving adds a success for `k` exactly when the worker was landing one. */
  lemma SaveCounts(s: System, w: string, audited: bool, k: Key)
    requires w in s.held && w in s.flights && s.flights[w].Made?
    requires Plain(k) && Plain(FlightKey(s, w))
    ensures var t := Saving(s, w, audited);
      && SuccessfulRows(t.rows, k) == SuccessfulRows(s.rows, k) + (if LandsWith(s, w, k) then 1 else 0)
      && SuccessfulCalls(t.calls, k) == SuccessfulCalls(s.calls, k) && Occurrences(t.lost, k) == Occurrences(s.lost, k)
      && OnlyFlightOf(s, t, w) && !FliesWith(t, w, k)
  {
    SavedRowsCount(s.rows, FlightKey(s, w), s.flights[w].success, s.flights[w].externalId, audited, k);
  }

  lemma SaveKeepsKeyInv(s: System, w: string, audited: bool, k: Key)
    requires SoleFlight(s, w, k) && KeyInv(s, k) && w in s.held && w in s.flights && s.flights[w].Made?
    requires Plain(k) && Plain(FlightKey(s, w))
    ensures KeyInv(Saving(s, w, audited), k)
  {
    SaveCounts(s, w, audited, k);
    KeyAfter(s, Saving(s, w, audited), w, k);
  }

  lemma SaveKeepsBalance(s: System, w: string, audited: bool)
    requires RunInv(s) && Exclusive(s) && Balanced(s) && w in s.held && w in s.flights && s.flights[w].Made?
    ensures Balanced(Saving(s, w, audited))
  {
    forall k | Plain(k)
      ensures KeyInv(Saving(s, w, audited), k)
    {
      assert KeyInv(s, k);
      SaveKeepsKeyInv(s, w, audited, k);
    }
  }

  lemma SaveKeepsDocuments(s: System, w: string, audited: bool)
    requires RunInv(s) && Documented(s) && w in s.held && w in s.flights && s.flights[w].Made?
    ensures Documented(Saving(s, w, audited))
  {
    var t := Saving(s, w, audited);
    var k0, f := FlightKey(s, w), s.flights[w];
    var row0 := RowFor(k0, f.success, f.externalId);
    assert row0 in RowsOf(k0, Returned(f.success, f.externalId), Persistence(true, audited)) && row0 in t.rows;
    assert Call(k0, f.success, f.externalId) in s.calls;
    assert f.success ==> FromCall(t, row0) && Matches(row0, k0);
  }

  lemma CrashKeepsKeyInv(s: System, w: string, k: Key)
    requires SoleFlight(s, w, k) && KeyInv(s, k) && w in s.held
    ensures KeyInv(Crashing(s, w), k)
  {
    AppendCounts(s, RowFor(k, false, None), Call(k, false, None), LostBy(s, w), k);
    KeyAfter(s, Crashing(s, w), w, k);
  }

  lemma CrashKeepsBalance(s: System, w: string)
    requires RunInv(s) && Exclusive(s) && Balanced(s) && w in s.held
    ensures Balanced(Crashing(s, w))
  {
    forall k | Plain(k)
      ensures KeyInv(Crashing(s, w), k)
    {
      assert KeyInv(s, k);
      CrashKeepsKeyInv(s, w, k);
    }
  }

  lemma CrashKeepsDocuments(s: System, w: string)
    requires RunInv(s) && Documented(s) && w in s.held
    ensures Documented(Crashing(s, w))
  {
  }

  lemma SaveFailureKeepsKeyInv(s: System, w: string, k: Key)
    requires SoleFlight(s, w, k) && KeyInv(s, k) && w in s.held && w in s.flights && s.flights[w].Made?
    requires Plain(k) && Plain(FlightKey(s, w))
    ensures KeyInv(FailingToSave(s, w), k)
  {
    AppendCounts(s, RowFor(FlightKey(s, w), false, None), Call(k, false, None), LostBy(s, w), k);
    RowMatches(FlightKey(s, w), false, None, k);
    KeyAfter(s, FailingToSave(s, w), w, k);
  }

  lemma SaveFailureKeepsBalance(s: System, w: string)
    requires RunInv(s) && Exclusive(s) && Balanced(s) && w in s.held && w in s.flights && s.flights[w].Made?
    ensures Balanced(FailingToSave(s, w))
  {
    forall k | Plain(k)
      ensures KeyInv(FailingToSave(s, w), k)
    {
      assert KeyInv(s, k);
      SaveFailureKeepsKeyInv(s, w, k);
    }
  }

  lemma SaveFailureKeepsDocuments(s: System, w: string)
    requires RunInv(s) && Documented(s) && w in s.held && w in s.flights && s.flights[w].Made?
    ensures Documented(FailingToSave(s, w))
  {
  }

  lemma JobStepKeepsActionInv(s: System, step: Step)
    requires ActionInv(s) && Possible(s, step)
    requires step.Enqueue? || step.Claim? || step.Finish? || step.CancelJob? || step.ReadJob?
      || step.ResumeJob? || step.Recover?
    ensures ActionInv(Next(s, step))
  {
    OtherStepsKeepActionInv(s, Next(s, step));
  }

  lemma StepKeepsActionInv(s: System, step: Step)
    requires RunInv(s) && Exclusive(s) && ActionInv(s)
    ensures ActionInv(Do(s, step))
  {
    if Possible(s, step) {
      match step
      case Look(w, node) =>
        LookKeepsBalance(s, w, node);
        LookKeepsDocuments(s, w, node);
      case Invoke(w, success, externalId) =>
        InvokeKeepsBalance(s, w, success, externalId);
        InvokeKeepsDocuments(s, w, success, externalId);
      case Save(w, audited) =>
        SaveKeepsBalance(s, w, audited);
        SaveKeepsDocuments(s, w, audited);
      case SaveFails(w) =>
        SaveFailureKeepsBalance(s, w);
        SaveFailureKeepsDocuments(s, w);
      case Crash(w) =>
        CrashKeepsBalance(s, w);
        CrashKeepsDocuments(s, w);
      case _ => JobStepKeepsActionInv(s, step);
    }
  }

  /** Calls are only ever made for executions with colon-free ids. */
  ghost predicate PlainCalls(s: System)
  {
    forall c :: c in s.calls ==> Plain(c.key)
  }

  lemma StepKeepsPlainCalls(s: System, step: Step)
    requires RunInv(s) && PlainCalls(s)
    ensures PlainCalls(Do(s, step))
  {
    if Possible(s, step) && step.Invoke? {
      assert CopyBounded(s, step.worker);
    }
  }

  lemma {:induction false} RunKeepsActionInv(s: System, steps: seq<Step>)
    requires RunInv(s) && ActionInv(s) && PlainCalls(s) && NeverDoublyHeld(s, steps)
    ensures ActionInv(RunFrom(s, steps)) && PlainCalls(RunFrom(s, steps))
    decreases |steps|
  {
    if steps != [] {
      StepKeepsRunInv(s, steps[0]);
      StepKeepsActionInv(s, steps[0]);
      StepKeepsPlainCalls(s, steps[0]);
      RunKeepsActionInv(Do(s, steps[0]), steps[1..]);
    }
  }

  // ---- The guarantees ----

  /**
   * Over any attempts, crashes, retries, recoveries and resumes in which no job comes to two
   * workers, a node's action succeeds at most once more than the number of its successes that
   * were lost between call and save.
   */
  lemma CallsSucceedOncePlusLosses(steps: seq<Step>, k: Key)
    requires Plain(k) && NeverDoublyHeld(INIT, steps)
    ensures var s := Run(steps);
      SuccessfulCalls(s.calls, k) - Occurrences(s.lost, k)
        == if SuccessfulRows(s.rows, k) > 0 || Landing(s, k) then 1 else 0
  {
    var s := Run(steps);
    RunKeepsActionInv(INIT, steps);
    assert KeyInv(s, k);
    if Landing(s, k) {
      var w :| LandsWith(s, w, k);
      assert FliesWith(s, w, k);
    }
  }

  lemma OneAnswerPerNode(s: System, a: Answer, b: Answer)
    requires ActionInv(s) && a in s.answers && b in s.answers && a.key == b.key
    ensures a == b
  {
    assert Grounded(s, a) && Grounded(s, b);
    var k := a.key;
    assert KeyInv(s, k);
    var ra :| ra in s.rows && Matches(ra, k) && ra.externalId == a.externalId;
    var rb :| rb in s.rows && Matches(rb, k) && rb.externalId == b.externalId;
    OneRowIsUnique(s.rows, k, ra, rb);
  }

  /** All answers for one node carry the same external id, that of a successful call for it. */
  lemma AnswersAgree(steps: seq<Step>, a: Answer, b: Answer)
    requires NeverDoublyHeld(INIT, steps)
    requires var s := Run(steps); a in s.answers && b in s.answers && a.key == b.key
    ensures a == b
    ensures var s := Run(steps);
      exists c :: c in s.calls && c.success && c.key == a.key && c.externalId == a.externalId
  {
    var s := Run(steps);
    RunKeepsActionInv(INIT, steps);
    OneAnswerPerNode(s, a, b);
    assert Grounded(s, a);
    var row :| row in s.rows && Matches(row, a.key) && row.externalId == a.externalId;
    assert FromCall(s, row);
    var c :| c in s.calls && c.success && row == RowFor(c.key, true, c.externalId);
    RowMatches(c.key, true, c.externalId, a.key);
  }
}
