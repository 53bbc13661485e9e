/**
 * How often a job can be claimed when recovery and resumes do not wait for live workers
 * (app/jobs/queue.py:100-111, app/jobs/worker.py:57-101): stale copies lower the attempts of the
 * row again, yet the claims stay bounded, since every copy is written back at most once.
 */
module ClaimBudget {
  import opened Wrappers
  import opened JobQueue
  import opened Worker
  import opened DurableProtocol
  import opened DurableRuns

  function Pow2(n: nat): (p: nat)
    ensures p >= 1
  {
    if n == 0 then 1 else 2 * Pow2(n - 1)
  }

  lemma {:induction false} Pow2Grows(m: nat, n: nat)
    requires m <= n
    ensures Pow2(m) <= Pow2(n)
  {
    if m < n {
      Pow2Grows(m, n - 1);
    }
  }

  /** The claims a waiting row can lead to, its own copies included. */
  function Worth(attempts: int, maxAttempts: int): nat
  {
    if attempts < maxAttempts then Pow2(maxAttempts - attempts) - 1 else 1
  }

  /** What a running row, or a worker's copy, can still lead to: only with attempts left does it wait again. */
  function Remaining(attempts: int, maxAttempts: int): nat
  {
    if attempts < maxAttempts then Worth(attempts, maxAttempts) else 0
  }

  /** A claim spends one and leaves a running row and a copy. */
  lemma ClaimSpendsOne(attempts: int, maxAttempts: int)
    ensures Worth(attempts, maxAttempts) == 1 + 2 * Remaining(attempts + 1, maxAttempts)
  {
  }

  function OfRow(job: Job): nat
  {
    if Waiting(job) then Worth(job.attempts, job.maxAttempts)
    else if IsOrphan(job) then Remaining(job.attempts, job.maxAttempts)
    else 0
  }

  function OfCopy(copy: Job, id: string): nat
  {
    if copy.id == id then Remaining(copy.attempts, copy.maxAttempts) else 0
  }

  ghost function OfCopies(held: map<string, Job>, id: string): nat
    decreases |held|
  {
    if held == map[] then 0
    else
      var w :| w in held;
      OfCopy(held[w], id) + OfCopies(held - {w}, id)
  }

  /** The sum does not depend on the order in which copies are taken. */
  lemma {:induction false} TakeCopy(held: map<string, Job>, w: string, id: string)
    requires w in held
    ensures OfCopies(held, id) == OfCopy(held[w], id) + OfCopies(held - {w}, id)
    decreases |held|
  {
    var v :| v in held && OfCopies(held, id) == OfCopy(held[v], id) + OfCopies(held - {v}, id);
    if v != w {
      TakeCopy(held - {v}, w, id);
      TakeCopy(held - {w}, v, id);
      assert held - {v} - {w} == held - {w} - {v};
    }
  }

  lemma AddCopy(held: map<string, Job>, w: string, copy: Job, id: string)
    requires w !in held
    ensures OfCopies(held[w := copy], id) == OfCopies(held, id) + OfCopy(copy, id)
  {
    TakeCopy(held[w := copy], w, id);
    assert held[w := copy] - {w} == held;
  }

  lemma DropCopy(held: map<string, Job>, w: string, id: string)
    ensures OfCopies(held - {w}, id) + (if w in held then OfCopy(held[w], id) else 0) == OfCopies(held, id)
  {
    if w in held {
      TakeCopy(held, w, id);
    } else {
      assert held - {w} == held;
    }
  }

  /** What the job has spent and may still spend. */
  ghost function Spending(s: System, id: string): nat
    requires id in s.jobs && id in s.claims
  {
    s.claims[id] + OfRow(s.jobs[id]) + OfCopies(s.held, id)
  }

  function Budget(maxAttempts: int, resumes: nat): nat
  {
    (Pow2(Max(1, maxAttempts)) - 1) * (1 + resumes)
  }

  ghost predicate InBudget(s: System, id: string)
    requires id in s.jobs && id in s.claims && id in s.resumes
  {
    Spending(s, id) <= Budget(s.jobs[id].maxAttempts, s.resumes[id])
  }

  ghost predicate BudgetInv(s: System)
  {
    RunInv(s) && forall id :: id in s.jobs ==> RowBounded(s, id) && InBudget(s, id)
  }

  lemma WorthIsBounded(attempts: int, maxAttempts: int)
    requires attempts >= 0
    ensures Worth(attempts, maxAttempts) <= Pow2(Max(1, maxAttempts)) - 1
  {
    if attempts < maxAttempts {
      Pow2Grows(maxAttempts - attempts, maxAttempts);
    } else {
      Pow2Grows(1, Max(1, maxAttempts));
    }
  }

  lemma OneMoreResume(maxAttempts: int, resumes: nat)
    ensures Budget(maxAttempts, resumes + 1) == Budget(maxAttempts, resumes) + Pow2(Max(1, maxAttempts)) - 1
  {
  }

  /** No copy is of a job that is not in the table. */
  lemma {:induction false} NoCopies(held: map<string, Job>, id: string)
    requires forall w :: w in held ==> held[w].id != id
    ensures OfCopies(held, id) == 0
    decreases |held|
  {
    if held != map[] {
      var w :| w in held;
      TakeCopy(held, w, id);
      NoCopies(held - {w}, id);
    }
  }

  /** A new job has its whole budget ahead. */
  lemma NewJobInBudget(s: System, job: Job)
    requires RunInv(s) && IsNew(s, job)
    ensures OfCopies(s.held, job.id) == 0 && OfRow(job) <= Budget(job.maxAttempts, 0)
  {
    forall w | w in s.held
      ensures s.held[w].id != job.id
    {
      assert CopyBounded(s, w);
    }
    NoCopies(s.held, job.id);
    WorthIsBounded(0, job.maxAttempts);
  }

  lemma EnqueuingKeepsBudget(s: System, job: Job, id: string)
    requires BudgetInv(s) && IsNew(s, job) && id in Enqueuing(s, job).jobs
    ensures var t := Enqueuing(s, job); id in t.claims && id in t.resumes && InBudget(t, id)
  {
    if id in s.jobs {
      assert RowBounded(s, id) && InBudget(s, id);
    } else {
      NewJobInBudget(s, job);
    }
  }

  lemma ClaimingKeepsBudget(s: System, w: string, claimed: string, now: int, id: string)
    requires BudgetInv(s) && Possible(s, Claim(w, claimed, now)) && id in s.jobs
    ensures var t := Claiming(s, w, claimed, now); id in t.claims && id in t.resumes && InBudget(t, id)
  {
    assert RowBounded(s, id) && InBudget(s, id) && s.jobs[claimed].id == claimed;
    AddCopy(s.held, w, Claimed(s.jobs[claimed], w, now), id);
    ClaimSpendsOne(s.jobs[claimed].attempts, s.jobs[claimed].maxAttempts);
  }

  lemma FinishingKeepsBudget(s: System, w: string, result: AttemptResult, now: int, retryAt: int, id: string)
    requires BudgetInv(s) && w in s.held && id in s.jobs
    ensures var t := Finishing(s, w, result, now, retryAt);
      id in t.jobs && id in t.claims && id in t.resumes && InBudget(t, id)
  {
    assert RowBounded(s, id) && InBudget(s, id) && CopyBounded(s, w);
    FinishingKeepsRunInv(s, w, result, now, retryAt);
    DropCopy(s.held, w, id);
    AttemptWrites(s.held[w], result, now, retryAt);
  }

  lemma ResumingKeepsBudget(s: System, client: string, approved: bool, id: string)
    requires BudgetInv(s) && client in s.reading && id in s.jobs
    ensures var t := Resuming(s, client, approved);
      id in t.jobs && id in t.claims && id in t.resumes && InBudget(t, id)
  {
    assert RowBounded(s, id) && InBudget(s, id) && ReadingBounded(s, client);
    WorthIsBounded(s.reading[client].attempts, s.jobs[id].maxAttempts);
    OneMoreResume(s.jobs[id].maxAttempts, s.resumes[id]);
  }

  lemma RecoveringKeepsBudget(s: System, now: int, id: string)
    requires BudgetInv(s) && id in s.jobs
    ensures var t := Recovering(s, now); id in t.claims && id in t.resumes && InBudget(t, id)
  {
    assert RowBounded(s, id) && InBudget(s, id);
  }

  lemma CancellingKeepsBudget(s: System, cancelled: string, now: int, id: string)
    requires BudgetInv(s) && cancelled in s.jobs && id in s.jobs
    ensures var t := Cancelling(s, cancelled, now); id in t.claims && id in t.resumes && InBudget(t, id)
  {
    assert RowBounded(s, id) && InBudget(s, id);
  }

  lemma ActionStepKeepsBudget(s: System, step: Step, id: string)
    requires BudgetInv(s) && Possible(s, step) && id in s.jobs
    requires step.Look? || step.Invoke? || step.Save? || step.SaveFails? || step.Crash?
    ensures var t := Next(s, step); id in t.jobs && id in t.claims && id in t.resumes && InBudget(t, id)
  {
    assert RowBounded(s, id) && InBudget(s, id);
    DropCopy(s.held, step.worker, id);
  }

  lemma StepKeepsInBudget(s: System, step: Step, id: string)
    requires BudgetInv(s) && Possible(s, step) && id in Next(s, step).jobs
    requires step.Enqueue? || id in s.jobs
    ensures var t := Next(s, step); id in t.claims && id in t.resumes && InBudget(t, id)
  {
    match step
    case Enqueue(job) => EnqueuingKeepsBudget(s, job, id);
    case Claim(w, claimed, now) => ClaimingKeepsBudget(s, w, claimed, now, id);
    case Finish(w, result, now, retryAt) => FinishingKeepsBudget(s, w, result, now, retryAt, id);
    case CancelJob(_, cancelled, now) => CancellingKeepsBudget(s, cancelled, now, id);
    case ResumeJob(client, approved) => ResumingKeepsBudget(s, client, approved, id);
    case ReadJob(_, _) => assert InBudget(s, id);
    case Recover(now) => RecoveringKeepsBudget(s, now, id);
    case _ => ActionStepKeepsBudget(s, step, id);
  }

  /** Only a submission adds rows. */
  lemma OnlyEnqueueAdds(s: System, step: Step)
    requires RunInv(s) && Possible(s, step) && !step.Enqueue?
    ensures Next(s, step).jobs.Keys == s.jobs.Keys
  {
    if step.Finish? {
      assert CopyBounded(s, step.worker);
    } else if step.ResumeJob? {
      assert ReadingBounded(s, step.client);
    }
  }

  lemma StepKeepsBudget(s: System, step: Step)
    requires BudgetInv(s)
    ensures BudgetInv(Do(s, step))
  {
    StepKeepsRunInv(s, step);
    if Possible(s, step) {
      if !step.Enqueue? {
        OnlyEnqueueAdds(s, step);
      }
      forall id | id in Next(s, step).jobs
        ensures RowBounded(Next(s, step), id) && InBudget(Next(s, step), id)
      {
        StepKeepsInBudget(s, step, id);
      }
    }
  }

  lemma {:induction false} RunKeepsBudget(s: System, steps: seq<Step>)
    requires BudgetInv(s)
    ensures BudgetInv(RunFrom(s, steps))
    decreases |steps|
  {
    if steps != [] {
      StepKeepsBudget(s, steps[0]);
      RunKeepsBudget(Do(s, steps[0]), steps[1..]);
    }
  }

  /** Over any steps a job is claimed at most 2^max(1, max_attempts) - 1 times for each of its starts. */
  lemma ClaimsStayInBudget(steps: seq<Step>, id: string)
    requires id in Run(steps).jobs
    ensures var s := Run(steps);
      id in s.claims && id in s.resumes && s.claims[id] <= Budget(s.jobs[id].maxAttempts, s.resumes[id])
  {
    RunKeepsBudget(INIT, steps);
    assert RowBounded(Run(steps), id) && InBudget(Run(steps), id);
  }
}
