/**
 * What becomes of a job once an attempt has ended (app/jobs/worker.py:183-226): nothing but a resume moves a
 * settled job, over any steps, and a retry waits for its time.
 */
module SettledJobs {
  import opened Wrappers
  import opened JobQueue
  import opened Worker
  import opened DurableProtocol
  import opened DurableRuns
  import EE = ExecutionEngine

  /** Ended, or suspended until an approval. */
  predicate IsSettled(job: Job)
  {
    || job.status == COMPLETED || job.status == FAILED || job.status == CANCELLED
    || (job.status == RUNNING && job.worker == Some("HIL_SUSPENDED"))
  }

  /** Nobody has the job, and it is settled or waits. */
  ghost predicate Idle(s: System, id: string)
  {
    id in s.jobs && Unheld(s, id) && (IsSettled(s.jobs[id]) || Waiting(s.jobs[id]))
  }

  /** No resume of the job is written. */
  ghost predicate NotResumed(s: System, steps: seq<Step>, id: string)
    decreases |steps|
  {
    steps != [] ==>
      && (steps[0].ResumeJob? && steps[0].client in s.reading ==> s.reading[steps[0].client].id != id)
      && NotResumed(Do(s, steps[0]), steps[1..], id)
  }

  ghost predicate ClaimsSame(s: System, t: System, id: string)
  {
    id in s.claims && id in t.claims && t.claims[id] == s.claims[id]
  }

  /** The row of the job is as it was, and nobody has claimed it. */
  ghost predicate Untouched(s: System, t: System, id: string)
    requires id in s.jobs
  {
    id in t.jobs && t.jobs[id] == s.jobs[id] && Unheld(t, id) && ClaimsSame(s, t, id)
  }

  /** What a step can do to a waiting job: claim it, or cancel it. */
  ghost predicate ClaimedOrCancelled(s: System, t: System, id: string)
    requires id in s.jobs
  {
    && Waiting(s.jobs[id]) && id in t.jobs && id in s.claims && id in t.claims
    && (t.claims[id] == s.claims[id] + 1
        || (t.jobs[id].status == CANCELLED && Unheld(t, id) && t.claims[id] == s.claims[id]))
  }

  lemma EnqueuingLeaves(s: System, job: Job, id: string)
    requires RunInv(s) && Idle(s, id) && IsNew(s, job)
    ensures Untouched(s, Enqueuing(s, job), id)
  {
    assert RowBounded(s, id);
  }

  lemma ClaimingLeaves(s: System, w: string, other: string, now: int, id: string)
    requires RunInv(s) && Idle(s, id) && Possible(s, Claim(w, other, now))
    ensures var t := Claiming(s, w, other, now); Untouched(s, t, id) || ClaimedOrCancelled(s, t, id)
  {
    assert RowBounded(s, id) && s.jobs[other].id == other;
  }

  lemma FinishingLeaves(s: System, w: string, result: AttemptResult, now: int, retryAt: int, id: string)
    requires RunInv(s) && Idle(s, id) && w in s.held
    ensures Untouched(s, Finishing(s, w, result, now, retryAt), id)
  {
    assert RowBounded(s, id);
    FinishWrites(s, w, result, now, retryAt);
  }

  lemma ResumingLeaves(s: System, client: string, approved: bool, id: string)
    requires RunInv(s) && Idle(s, id) && client in s.reading && s.reading[client].id != id
    ensures Untouched(s, Resuming(s, client, approved), id)
  {
    assert RowBounded(s, id);
  }

  lemma RecoveringLeaves(s: System, now: int, id: string)
    requires RunInv(s) && Idle(s, id)
    ensures Untouched(s, Recovering(s, now), id)
  {
    assert RowBounded(s, id);
  }

  lemma CancellingLeaves(s: System, other: string, now: int, id: string)
    requires RunInv(s) && Idle(s, id) && other in s.jobs && Waiting(s.jobs[other])
    ensures var t := Cancelling(s, other, now); Untouched(s, t, id) || ClaimedOrCancelled(s, t, id)
  {
    assert RowBounded(s, id);
  }

  lemma ActionStepLeaves(s: System, step: Step, id: string)
    requires RunInv(s) && Idle(s, id) && Possible(s, step)
    requires step.Look? || step.Invoke? || step.Save? || step.SaveFails? || step.Crash?
    ensures Untouched(s, Next(s, step), id)
  {
    assert RowBounded(s, id);
    OnlyActionTables(s, step);
  }

  /** Any step but a resume of the job leaves an idle job as it is, unless it waits and is claimed or cancelled. */
  lemma StepLeavesIdle(s: System, step: Step, id: string)
    requires RunInv(s) && Idle(s, id) && Possible(s, step)
    requires step.ResumeJob? ==> s.reading[step.client].id != id
    ensures Untouched(s, Next(s, step), id) || ClaimedOrCancelled(s, Next(s, step), id)
  {
    match step
    case Enqueue(job) => EnqueuingLeaves(s, job, id);
    case Claim(w, other, now) => ClaimingLeaves(s, w, other, now, id);
    case Finish(w, result, now, retryAt) => FinishingLeaves(s, w, result, now, retryAt, id);
    case CancelJob(_, other, now) => CancellingLeaves(s, other, now, id);
    case ReadJob(_, _) => assert RowBounded(s, id);
    case ResumeJob(client, approved) => ResumingLeaves(s, client, approved, id);
    case Recover(now) => RecoveringLeaves(s, now, id);
    case _ => ActionStepLeaves(s, step, id);
  }

  lemma StepLeavesSettled(s: System, step: Step, id: string)
    requires RunInv(s) && Idle(s, id) && IsSettled(s.jobs[id])
    requires step.ResumeJob? && step.client in s.reading ==> s.reading[step.client].id != id
    ensures Untouched(s, Do(s, step), id)
  {
    assert RowBounded(s, id);
    if Possible(s, step) {
      StepLeavesIdle(s, step, id);
    }
  }

  /** A settled job that nobody holds stays as it is and is never claimed, until it is resumed. */
  lemma {:induction false} SettledStays(s: System, steps: seq<Step>, id: string)
    requires RunInv(s) && Idle(s, id) && IsSettled(s.jobs[id]) && NotResumed(s, steps, id)
    ensures Untouched(s, RunFrom(s, steps), id)
    decreases |steps|
  {
    assert RowBounded(s, id);
    if steps != [] {
      StepKeepsRunInv(s, steps[0]);
      StepLeavesSettled(s, steps[0], id);
      SettledStays(Do(s, steps[0]), steps[1..], id);
    }
  }

  /** A waiting job changes only by a claim or a cancellation. */
  ghost predicate WaitsOn(s: System, t: System, id: string)
    requires id in s.jobs && id in s.claims
  {
    && id in t.jobs && id in t.claims && t.claims[id] >= s.claims[id]
    && (t.claims[id] == s.claims[id] ==>
          Unheld(t, id) && (t.jobs[id] == s.jobs[id] || t.jobs[id].status == CANCELLED))
  }

  lemma StepKeepsClaims(s: System, step: Step, id: string)
    requires RunInv(s) && id in s.jobs
    ensures id in s.claims && id in Do(s, step).claims && Do(s, step).claims[id] >= s.claims[id]
  {
    assert RowBounded(s, id);
  }

  lemma {:induction false} ClaimsGrow(s: System, steps: seq<Step>, id: string)
    requires RunInv(s) && id in s.jobs
    ensures id in s.claims && id in RunFrom(s, steps).jobs
    ensures id in RunFrom(s, steps).claims && RunFrom(s, steps).claims[id] >= s.claims[id]
    decreases |steps|
  {
    assert RowBounded(s, id);
    if steps != [] {
      StepKeepsRunInv(s, steps[0]);
      StepKeepsClaims(s, steps[0], id);
      ClaimsGrow(Do(s, steps[0]), steps[1..], id);
    }
  }

  lemma {:induction false} WaitingWaits(s: System, steps: seq<Step>, id: string)
    requires RunInv(s) && Idle(s, id) && id in s.claims && NotResumed(s, steps, id)
    ensures WaitsOn(s, RunFrom(s, steps), id)
    decreases |steps|
  {
    if steps != [] {
      var t := Do(s, steps[0]);
      StepKeepsRunInv(s, steps[0]);
      if Possible(s, steps[0]) {
        StepLeavesIdle(s, steps[0], id);
      }
      ClaimsGrow(t, steps[1..], id);
      if ClaimsSame(s, t, id) {
        WaitingWaits(t, steps[1..], id);
      }
    }
  }

  // ---- After an attempt ----

  ghost predicate OnlyHolder(s: System, w: string)
  {
    w in s.held && forall v :: v in s.held && v != w ==> s.held[v].id != s.held[w].id
  }

  predicate Fails(result: AttemptResult)
  {
    result.RaisedError? || result == Ended(EE.FAILED)
  }

  /** The attempt completed or paused the execution, or failed and was the last. */
  predicate EndsFor(job: Job, result: AttemptResult)
  {
    result == Ended(EE.COMPLETED) || result == Ended(EE.RUNNING) || (Fails(result) && job.attempts >= job.maxAttempts)
  }

  /** How the row of a job stands after such an attempt. */
  predicate StandsAs(row: Job, result: AttemptResult)
  {
    match result
    case Ended(COMPLETED) => row.status == COMPLETED
    case Ended(RUNNING) => row.status == RUNNING && row.worker == Some("HIL_SUSPENDED")
    case _ => row.status == FAILED
  }

  lemma FinishSettles(s: System, w: string, result: AttemptResult, now: int, retryAt: int)
    requires RunInv(s) && OnlyHolder(s, w) && EndsFor(s.held[w], result)
    ensures var t := Finishing(s, w, result, now, retryAt); var id := s.held[w].id;
      Idle(t, id) && IsSettled(t.jobs[id]) && StandsAs(t.jobs[id], result) && ClaimsSame(s, t, id)
  {
    assert CopyBounded(s, w) && RowBounded(s, s.held[w].id);
  }

  /**
   * A job whose execution completed stays completed, one whose execution paused stays suspended, out of reach of any
   * recovery, and one that failed for good stays failed: over any steps until it is resumed it is not claimed again.
   */
  lemma SettledForGood(s: System, w: string, result: AttemptResult, now: int, retryAt: int, more: seq<Step>)
    requires RunInv(s) && OnlyHolder(s, w) && EndsFor(s.held[w], result)
    requires NotResumed(Finishing(s, w, result, now, retryAt), more, s.held[w].id)
    ensures var t := RunFrom(Finishing(s, w, result, now, retryAt), more); var id := s.held[w].id;
      id in t.jobs && StandsAs(t.jobs[id], result) && Unheld(t, id) && ClaimsSame(s, t, id)
  {
    FinishSettles(s, w, result, now, retryAt);
    FinishingKeepsRunInv(s, w, result, now, retryAt);
    SettledStays(Finishing(s, w, result, now, retryAt), more, s.held[w].id);
  }

  lemma FinishRetries(s: System, w: string, result: AttemptResult, now: int, retryAt: int)
    requires RunInv(s) && OnlyHolder(s, w) && Fails(result) && s.held[w].attempts < s.held[w].maxAttempts
    ensures var t := Finishing(s, w, result, now, retryAt); var id := s.held[w].id;
      && Idle(t, id) && t.jobs[id].status == RETRYING && t.jobs[id].runAt == Some(retryAt) && ClaimsSame(s, t, id)
  {
    assert CopyBounded(s, w) && RowBounded(s, s.held[w].id);
  }

  /**
   * A job that failed with attempts left is claimed again only from `retryAt` on, whatever happens before, unless it
   * is resumed.
   */
  lemma RetriesWait(s: System, w: string, result: AttemptResult, now: int, retryAt: int, more: seq<Step>,
                    v: string, at: int)
    requires RunInv(s) && OnlyHolder(s, w) && Fails(result) && s.held[w].attempts < s.held[w].maxAttempts
    requires NotResumed(Finishing(s, w, result, now, retryAt), more, s.held[w].id)
    ensures var t := RunFrom(Finishing(s, w, result, now, retryAt), more); var id := s.held[w].id;
      ClaimsSame(s, t, id) && Possible(t, Claim(v, id, at)) ==> at >= retryAt
  {
    FinishRetries(s, w, result, now, retryAt);
    FinishingKeepsRunInv(s, w, result, now, retryAt);
    WaitingWaits(Finishing(s, w, result, now, retryAt), more, s.held[w].id);
  }
}
