/**
 * What orderly runs of the durable protocol keep: those in which recovery meets no busy worker
 * and a resume neither a worker that holds the job nor a claim made since its row was read.
 */
module OrderlyRuns {
  import opened Wrappers
  import opened JobQueue
  import opened Worker
  import opened ActionLedger
  import opened DurableProtocol
  import opened DurableRuns

  /** A worker's copy is the row, marked as running by that worker. */
  ghost predicate Holds(s: System, w: string)
  {
    && w in s.held && s.held[w].id in s.jobs && s.jobs[s.held[w].id] == s.held[w]
    && s.held[w].status == RUNNING && s.held[w].worker == Some(w) && w != SUSPENDED
  }

  ghost predicate Holding(s: System)
  {
    forall w :: w in s.held ==> Holds(s, w)
  }

  /** Every claim counts: the attempts of a row are its claims. */
  ghost predicate Counted(s: System)
  {
    forall id :: id in s.jobs ==> id in s.claims && s.claims[id] == s.jobs[id].attempts
  }

  ghost predicate JobInv(s: System)
  {
    RunInv(s) && Holding(s) && Counted(s)
  }

  /** A step that writes at most a row no other worker holds keeps the workers' copies. */
  lemma StillHolding(s: System, t: System, id: string)
    requires Holding(s)
    requires forall other :: other in s.jobs && other != id ==> other in t.jobs && t.jobs[other] == s.jobs[other]
    requires forall w :: w in t.held ==> Holds(t, w) || (w in s.held && t.held[w] == s.held[w] && s.held[w].id != id)
    ensures Holding(t)
  {
    forall w | w in t.held
      ensures Holds(t, w)
    {
      assert w in s.held ==> Holds(s, w);
    }
  }

  lemma EnqueuingKeepsHolding(s: System, job: Job)
    requires JobInv(s) && IsNew(s, job)
    ensures Holding(Enqueuing(s, job)) && Counted(Enqueuing(s, job))
  {
    if !FireTaken(s.jobs, job.fireId) {
      assert forall w :: w in s.held ==> Holds(s, w) && s.held[w].id != job.id;
    }
  }

  lemma CancellingKeepsHolding(s: System, id: string, now: int)
    requires JobInv(s) && id in s.jobs && Waiting(s.jobs[id])
    ensures Holding(Cancelling(s, id, now)) && Counted(Cancelling(s, id, now))
  {
    forall w | w in s.held
      ensures s.held[w].id != id
    {
      assert Holds(s, w);
    }
    StillHolding(s, Cancelling(s, id, now), id);
  }

  lemma ResumingKeepsHolding(s: System, client: string, approved: bool)
    requires JobInv(s) && client in s.reading && Unheld(s, s.reading[client].id) && StillAsRead(s, client)
    ensures Holding(Resuming(s, client, approved)) && Counted(Resuming(s, client, approved))
  {
    StillHolding(s, Resuming(s, client, approved), s.reading[client].id);
  }

  lemma ActionStepKeepsHolding(s: System, step: Step)
    requires JobInv(s) && Possible(s, step)
    requires step.Look? || step.Invoke? || step.Save? || step.SaveFails? || step.Crash? || step.ReadJob?
    ensures Holding(Next(s, step)) && Counted(Next(s, step))
  {
    forall w | w in Next(s, step).held
      ensures Holds(Next(s, step), w)
    {
      assert Holds(s, w);
    }
  }

  lemma ClaimingKeepsHolding(s: System, w: string, id: string, now: int)
    requires JobInv(s) && Possible(s, Claim(w, id, now))
    ensures Holding(Claiming(s, w, id, now)) && Counted(Claiming(s, w, id, now))
  {
    var t := Claiming(s, w, id, now);
    forall v | v in s.held
      ensures s.held[v].id != id
    {
      assert Holds(s, v);
    }
    assert Holds(t, w);
    StillHolding(s, t, id);
  }

  lemma FinishingKeepsHolding(s: System, w: string, result: AttemptResult, now: int, retryAt: int)
    requires JobInv(s) && w in s.held
    ensures var t := Finishing(s, w, result, now, retryAt); Holding(t) && Counted(t)
  {
    assert Holds(s, w);
    AttemptWrites(s.held[w], result, now, retryAt);
    StillHolding(s, Finishing(s, w, result, now, retryAt), s.held[w].id);
  }

  lemma StepKeepsHolding(s: System, step: Step)
    requires JobInv(s) && Possible(s, step) && Guarded(s, step)
    ensures Holding(Next(s, step)) && Counted(Next(s, step))
  {
    match step
    case Enqueue(job) => EnqueuingKeepsHolding(s, job);
    case Claim(w, id, now) => ClaimingKeepsHolding(s, w, id, now);
    case Finish(w, result, now, retryAt) => FinishingKeepsHolding(s, w, result, now, retryAt);
    case CancelJob(_, id, now) => CancellingKeepsHolding(s, id, now);
    case ResumeJob(client, approved) => ResumingKeepsHolding(s, client, approved);
    case Recover(now) =>
    case _ => ActionStepKeepsHolding(s, step);
  }

  lemma StepKeepsJobInv(s: System, step: Step)
    requires JobInv(s) && Guarded(s, step)
    ensures JobInv(Do(s, step))
  {
    StepKeepsRunInv(s, step);
    if Possible(s, step) {
      StepKeepsHolding(s, step);
    }
  }

  /** Orderly runs keep every job with at most one worker, whose copy is the row, and count every claim. */
  lemma {:induction false} OrderlyRunsKeepJobInv(s: System, steps: seq<Step>)
    requires JobInv(s) && Orderly(s, steps)
    ensures JobInv(RunFrom(s, steps)) && NeverDoublyHeld(s, steps)
    decreases |steps|
  {
    if steps != [] {
      StepKeepsJobInv(s, steps[0]);
      OrderlyRunsKeepJobInv(Do(s, steps[0]), steps[1..]);
    }
  }

  /** After an orderly run no job has two holders, and it was claimed as often as its attempts say: within the bound. */
  lemma ClaimsAreBoundedAndExclusive(steps: seq<Step>)
    requires Orderly(INIT, steps)
    ensures var s := Run(steps);
      Exclusive(s) && forall id :: id in s.jobs ==> RowBounded(s, id) && s.claims[id] == s.jobs[id].attempts
  {
    OrderlyRunsKeepJobInv(INIT, steps);
  }
}
