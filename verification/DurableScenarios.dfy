/** Reachable runs of the durable protocol in which a promise fails (app/jobs/worker.py, app/actions/engine.py). */
module DurableScenarios {
  import opened Wrappers
  import opened JobQueue
  import opened Worker
  import opened ActionLedger
  import opened DurableProtocol
  import opened DurableRuns
  import EE = ExecutionEngine

  function SampleJob(maxAttempts: int): Job
  {
    Job("job", "t", "exec", "bundle", 1, QUEUED, 0, maxAttempts, 0, None, None, None,
        EXECUTE, None, "user", None, 100, None)
  }

  const NODE := Key("t", "exec", "node")

  /** One more step of a run. */
  lemma Then(steps: seq<Step>, step: Step) returns (more: seq<Step>)
    requires Possible(Run(steps), step)
    ensures more == steps + [step] && Run(more) == Next(Run(steps), step)
    ensures Orderly(INIT, steps) && Guarded(Run(steps), step) ==> Orderly(INIT, more)
  {
    more := steps + [step];
    RunSnoc(INIT, steps, step);
    if Orderly(INIT, steps) && Guarded(Run(steps), step) {
      OrderlySnoc(INIT, steps, step);
    }
  }

  /** The job is submitted and a first worker claims it. */
  lemma FirstClaim(maxAttempts: int) returns (steps: seq<Step>)
    ensures Orderly(INIT, steps)
    ensures var job := Claimed(SampleJob(maxAttempts), "w1", 1);
      Run(steps) == INIT.(jobs := map["job" := job], held := map["w1" := job],
                          claims := map["job" := 1], resumes := map["job" := 0])
  {
    var first := Then([], Enqueue(SampleJob(maxAttempts)));
    assert Run(first).jobs == map["job" := SampleJob(maxAttempts)];
    steps := Then(first, Claim("w1", "job", 1));
  }

  /** A worker looks for a saved success, finds none and calls the connector. */
  lemma LookAndCall(steps: seq<Step>, w: string, externalId: string) returns (more: seq<Step>)
    requires var s := Run(steps);
      w in s.held && w !in s.flights && s.held[w].tenant == "t" && s.held[w].execution == "exec" && s.rows == []
    ensures var s := Run(steps);
      Run(more) == s.(flights := s.flights[w := Made("node", true, Some(externalId))],
                      calls := s.calls + [Call(NODE, true, Some(externalId))])
    ensures Orderly(INIT, steps) ==> Orderly(INIT, more)
  {
    var s := Run(steps);
    var looked := Then(steps, Look(w, "node"));
    more := Then(looked, Invoke(w, true, Some(externalId)));
    assert s.flights[w := Ready("node")][w := Made("node", true, Some(externalId))]
        == s.flights[w := Made("node", true, Some(externalId))];
  }

  lemma TwoCalls(a: Call, b: Call, k: Key)
    requires a.key == k && b.key == k && a.success && b.success
    ensures SuccessfulCalls([a, b], k) == 2
  {
    assert [a, b][..1] == [a] && [a][..0] == [];
    assert SuccessfulCalls([a], k) == 1;
  }

  /** Recovery makes the job of a crashed or a live worker claimable, and a second worker claims it. */
  lemma RecoverAndClaim(steps: seq<Step>, w: string, now: int) returns (more: seq<Step>)
    requires var s := Run(steps);
      && s.jobs.Keys == {"job"} && IsOrphan(s.jobs["job"]) && s.jobs["job"].attempts < s.jobs["job"].maxAttempts
      && w !in s.held && w != SUSPENDED
    ensures var s := Run(steps); var job := Claimed(Recovered(s.jobs["job"], now), w, now);
      Run(more) == s.(jobs := map["job" := job], held := s.held[w := job], claims := Bump(s.claims, "job"))
    ensures Orderly(INIT, steps) && Run(steps).held == map[] ==> Orderly(INIT, more)
  {
    var s := Run(steps);
    var recovered := Then(steps, Recover(now));
    more := Then(recovered, Claim(w, "job", now));
    assert Run(more).jobs == map["job" := Claimed(Recovered(s.jobs["job"], now), w, now)];
  }

  /** Even in order: a crash after the call and before the save makes the next attempt call again. */
  lemma CrashCanRepeatACall()
    ensures exists steps :: Orderly(INIT, steps) && SuccessfulCalls(Run(steps).calls, NODE) == 2
  {
    var claimed := FirstClaim(3);
    var called := LookAndCall(claimed, "w1", "A");
    var crashed := Then(called, Crash("w1"));
    assert Run(crashed).held == map[];
    var again := RecoverAndClaim(crashed, "w2", 2);
    var repeated := LookAndCall(again, "w2", "B");
    TwoCalls(Call(NODE, true, Some("A")), Call(NODE, true, Some("B")), NODE);
    assert Run(repeated).calls == [Call(NODE, true, Some("A")), Call(NODE, true, Some("B"))];
  }

  /** A job is with two workers, and its action has succeeded twice with no success lost. */
  ghost predicate SucceedsTwiceUnlost(s: System)
  {
    !Exclusive(s) && s.lost == [] && SuccessfulCalls(s.calls, NODE) == 2
  }

  /** Recovery beside a live worker: two holders, and two successful calls of which none is lost. */
  lemma RecoveryCanRepeatACall()
    ensures exists steps :: SucceedsTwiceUnlost(Run(steps))
  {
    var claimed := FirstClaim(3);
    var again := RecoverAndClaim(claimed, "w2", 2);
    CallTwice(again);
  }

  /** The resume route makes the job claimable, whoever holds it. */
  lemma ReadAndResume(steps: seq<Step>) returns (more: seq<Step>)
    requires var s := Run(steps); s.jobs.Keys == {"job"} && s.jobs["job"].id == "job"
    ensures var s := Run(steps); var t := Run(more);
      && t.jobs == map["job" := Requeued(s.jobs["job"], true)]
      && t.held == s.held && t.flights == s.flights && t.rows == s.rows && t.calls == s.calls && t.lost == s.lost
  {
    var read := Then(steps, ReadJob("client", "job"));
    more := Then(read, ResumeJob("client", true));
    assert Run(more).jobs == map["job" := Requeued(Run(steps).jobs["job"], true)];
  }

  /** A resume beside a live worker does the same, even on the last attempt. */
  lemma ResumeCanRepeatACall()
    ensures exists steps :: SucceedsTwiceUnlost(Run(steps))
  {
    var claimed := FirstClaim(1);
    var resumed := ReadAndResume(claimed);
    var again := Then(resumed, Claim("w2", "job", 2));
    CallTwice(again);
  }

  lemma CallTwice(steps: seq<Step>)
    requires var s := Run(steps);
      && s.held.Keys == {"w1", "w2"} && s.flights == map[] && s.rows == [] && s.calls == [] && s.lost == []
      && forall w :: w in s.held ==> s.held[w].id == "job" && s.held[w].tenant == "t" && s.held[w].execution == "exec"
    ensures exists more :: SucceedsTwiceUnlost(Run(more))
  {
    var first := LookAndCall(steps, "w1", "A");
    var second := LookAndCall(first, "w2", "B");
    var s := Run(second);
    TwoCalls(Call(NODE, true, Some("A")), Call(NODE, true, Some("B")), NODE);
    assert s.calls == [Call(NODE, true, Some("A")), Call(NODE, true, Some("B"))];
    assert "w1" in s.held && "w2" in s.held && s.held["w1"].id == s.held["w2"].id;
    assert SucceedsTwiceUnlost(s);
  }

  /** One node has answered with two different external ids. */
  ghost predicate AnswersDiffer(s: System)
  {
    Answer(NODE, Some("A")) in s.answers && Answer(NODE, Some("B")) in s.answers
  }

  /** Saved, the two successful calls after a recovery answer differently. */
  lemma AnswersCanDiffer()
    ensures exists steps :: AnswersDiffer(Run(steps)) && Run(steps).lost == []
  {
    var claimed := FirstClaim(3);
    var again := RecoverAndClaim(claimed, "w2", 2);
    var first := LookAndCall(again, "w1", "A");
    var second := LookAndCall(first, "w2", "B");
    var saved := Then(second, Save("w1", true));
    assert Answer(NODE, Some("A")) in Run(saved).answers;
    var both := Then(saved, Save("w2", true));
    assert AnswersDiffer(Run(both));
  }

  ghost predicate ClaimedBeyondBound(s: System)
  {
    && "job" in s.jobs && "job" in s.resumes && "job" in s.claims
    && s.jobs["job"].maxAttempts == 2 && s.resumes["job"] == 0 && s.claims["job"] == 3
  }

  /** The first holder fails and writes its copy back, with the attempts it had. */
  lemma StaleFinish(steps: seq<Step>) returns (more: seq<Step>)
    requires var s := Run(steps);
      && s.jobs.Keys == {"job"} && s.jobs["job"].id == "job" && s.jobs["job"].tenant == "t"
      && "w1" in s.held && "w1" !in s.flights && s.held["w1"].id == "job" && s.held["w1"].tenant == "t"
      && s.held["w1"].attempts == 1 && s.held["w1"].maxAttempts == 2
    ensures var s := Run(steps); var t := Run(more);
      && t.jobs.Keys == {"job"} && t.jobs["job"].status == RETRYING && t.jobs["job"].runAt == Some(4)
      && t.jobs["job"].maxAttempts == s.jobs["job"].maxAttempts
      && t.claims == s.claims && t.resumes == s.resumes && t.held.Keys == s.held.Keys - {"w1"}
  {
    more := Then(steps, Finish("w1", Ended(EE.FAILED), 3, 4));
  }

  /**
   * A stale copy written back after a recovery lowers the attempts of the row: a job with two
   * attempts and no resume is claimed three times.
   */
  lemma StaleCopyAddsAClaim()
    ensures exists steps :: ClaimedBeyondBound(Run(steps))
  {
    var claimed := FirstClaim(2);
    var again := RecoverAndClaim(claimed, "w2", 2);
    var lowered := StaleFinish(again);
    var third := Then(lowered, Claim("w3", "job", 4));
    assert ClaimedBeyondBound(Run(third));
  }
}
