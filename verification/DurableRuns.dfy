/** What every run of the durable protocol keeps, whatever recovers or resumes beside live workers. */
module DurableRuns {
  import opened Wrappers
  import opened JobQueue
  import opened Worker
  import opened ActionLedger
  import opened DurableProtocol

  /** What never changes about a job. */
  ghost predicate SameJob(a: Job, b: Job)
  {
    && a.id == b.id && a.tenant == b.tenant && a.execution == b.execution && a.bundle == b.bundle
    && a.bundleVersion == b.bundleVersion && a.maxAttempts == b.maxAttempts && a.createdAt == b.createdAt
    && a.createdBy == b.createdBy && a.priority == b.priority && a.fireId == b.fireId
  }

  ghost predicate Kept(s: System, t: System)
  {
    forall id :: id in s.jobs ==> id in t.jobs && SameJob(s.jobs[id], t.jobs[id])
  }

  ghost predicate Identified(s: System)
  {
    forall id :: id in s.jobs ==> s.jobs[id].id == id && ':' !in s.jobs[id].execution
  }

  ghost predicate OwnExecutions(s: System)
  {
    forall a, b :: a in s.jobs && b in s.jobs && s.jobs[a].execution == s.jobs[b].execution ==> a == b
  }

  /** How often a job may be attempted: its attempts, at least one, and one more for each resume. */
  function Bound(s: System, id: string): int
    requires id in s.jobs && id in s.resumes
  {
    Max(1, s.jobs[id].maxAttempts) + s.resumes[id]
  }

  function Max(a: int, b: int): int { if a < b then b else a }

  /** The attempts of a row are within the bound, and below it while another attempt may start. */
  ghost predicate RowBounded(s: System, id: string)
    requires id in s.jobs
  {
    && id in s.claims && id in s.resumes
    && 0 <= s.jobs[id].attempts <= Bound(s, id)
    && (Waiting(s.jobs[id]) ==> s.jobs[id].attempts < Bound(s, id))
  }

  /** A copy of a row, current or stale, is of a known job and within its bound. */
  ghost predicate IsCopy(s: System, copy: Job)
  {
    && copy.id in s.jobs && SameJob(copy, s.jobs[copy.id])
    && copy.id in s.resumes && 0 <= copy.attempts <= Bound(s, copy.id)
  }

  ghost predicate CopyBounded(s: System, w: string)
    requires w in s.held
  {
    IsCopy(s, s.held[w])
  }

  ghost predicate ReadingBounded(s: System, client: string)
    requires client in s.reading
  {
    IsCopy(s, s.reading[client])
  }

  ghost predicate RunInv(s: System)
  {
    && Identified(s) && OwnExecutions(s)
    && (forall id :: id in s.jobs ==> RowBounded(s, id))
    && (forall w :: w in s.held ==> CopyBounded(s, w))
    && (forall client :: client in s.reading ==> ReadingBounded(s, client))
  }

  /** A step that writes one known row, keeping its identity. */
  lemma WriteKeepsRunInv(s: System, t: System, id: string)
    requires RunInv(s) && id in s.jobs && id in t.jobs && t.jobs == s.jobs[id := t.jobs[id]]
    requires SameJob(s.jobs[id], t.jobs[id]) && RowBounded(t, id)
    requires s.claims.Keys <= t.claims.Keys
    requires forall other :: other in s.resumes ==> other in t.resumes && s.resumes[other] <= t.resumes[other]
    requires forall w :: w in t.held ==> CopyBounded(t, w)
    requires forall client :: client in t.reading ==> ReadingBounded(t, client)
    ensures RunInv(t) && Kept(s, t)
  {
    forall other | other in t.jobs && other != id
      ensures RowBounded(t, other)
    {
      assert RowBounded(s, other);
    }
  }

  lemma CopiesStayBounded(s: System, t: System)
    requires RunInv(s) && Kept(s, t)
    requires forall other :: other in s.resumes ==> other in t.resumes && s.resumes[other] <= t.resumes[other]
    ensures forall w :: w in t.held && w in s.held && t.held[w] == s.held[w] ==> CopyBounded(t, w)
    ensures forall client ::
      (client in t.reading && client in s.reading && t.reading[client] == s.reading[client])
      ==> ReadingBounded(t, client)
  {
    forall w | w in t.held && w in s.held && t.held[w] == s.held[w]
      ensures CopyBounded(t, w)
    {
      assert CopyBounded(s, w);
    }
    forall client | client in t.reading && client in s.reading && t.reading[client] == s.reading[client]
      ensures ReadingBounded(t, client)
    {
      assert ReadingBounded(s, client);
    }
  }

  lemma AddingKeepsRows(s: System, t: System, job: Job)
    requires RunInv(s) && IsNew(s, job) && t.jobs == s.jobs[job.id := job]
    requires t.claims == s.claims[job.id := 0] && t.resumes == s.resumes[job.id := 0]
    ensures forall id :: id in t.jobs ==> RowBounded(t, id)
  {
    forall id | id in t.jobs
      ensures RowBounded(t, id)
    {
      assert id != job.id ==> RowBounded(s, id);
    }
  }

  lemma AddingKeepsCopies(s: System, t: System, job: Job)
    requires RunInv(s) && job.id !in s.jobs && t.jobs == s.jobs[job.id := job]
    requires t.held == s.held && t.reading == s.reading && t.resumes == s.resumes[job.id := 0]
    ensures forall w :: w in t.held ==> CopyBounded(t, w)
    ensures forall client :: client in t.reading ==> ReadingBounded(t, client)
  {
    forall w | w in t.held
      ensures CopyBounded(t, w)
    {
      assert CopyBounded(s, w);
    }
    forall client | client in t.reading
      ensures ReadingBounded(t, client)
    {
      assert ReadingBounded(s, client);
    }
  }

  /** A new row, for an execution of its own. */
  lemma AddingKeepsRunInv(s: System, t: System, job: Job)
    requires RunInv(s) && IsNew(s, job) && t.jobs == s.jobs[job.id := job]
    requires t.held == s.held && t.reading == s.reading
    requires t.claims == s.claims[job.id := 0] && t.resumes == s.resumes[job.id := 0]
    ensures RunInv(t) && Kept(s, t)
  {
    AddingKeepsRows(s, t, job);
    AddingKeepsCopies(s, t, job);
  }

  lemma EnqueuingKeepsRunInv(s: System, job: Job)
    requires RunInv(s) && IsNew(s, job)
    ensures RunInv(Enqueuing(s, job)) && Kept(s, Enqueuing(s, job))
  {
    if !FireTaken(s.jobs, job.fireId) {
      AddingKeepsRunInv(s, Enqueuing(s, job), job);
    }
  }

  lemma ClaimingKeepsRunInv(s: System, w: string, id: string, now: int)
    requires RunInv(s) && Possible(s, Claim(w, id, now))
    ensures RunInv(Claiming(s, w, id, now)) && Kept(s, Claiming(s, w, id, now))
  {
    var t := Claiming(s, w, id, now);
    CopiesStayBounded(s, t);
    WriteKeepsRunInv(s, t, id);
  }

  lemma CancellingKeepsRunInv(s: System, id: string, now: int)
    requires RunInv(s) && id in s.jobs && Waiting(s.jobs[id])
    ensures RunInv(Cancelling(s, id, now)) && Kept(s, Cancelling(s, id, now))
  {
    assert RowBounded(s, id);
    CopiesStayBounded(s, Cancelling(s, id, now));
    WriteKeepsRunInv(s, Cancelling(s, id, now), id);
  }

  lemma ReadingKeepsRunInv(s: System, client: string, id: string)
    requires RunInv(s) && id in s.jobs
    ensures RunInv(Next(s, ReadJob(client, id))) && Kept(s, Next(s, ReadJob(client, id)))
  {
    var t := Next(s, ReadJob(client, id));
    assert RowBounded(s, id);
    CopiesStayBounded(s, t);
    assert ReadingBounded(t, client);
    WriteKeepsRunInv(s, t, id);
  }

  lemma ResumingKeepsRunInv(s: System, client: string, approved: bool)
    requires RunInv(s) && client in s.reading
    ensures RunInv(Resuming(s, client, approved)) && Kept(s, Resuming(s, client, approved))
  {
    var t := Resuming(s, client, approved);
    var id := s.reading[client].id;
    assert ReadingBounded(s, client) && RowBounded(s, id);
    CopiesStayBounded(s, t);
    WriteKeepsRunInv(s, t, id);
  }

  lemma RecoveringKeepsRunInv(s: System, now: int)
    requires RunInv(s)
    ensures RunInv(Recovering(s, now)) && Kept(s, Recovering(s, now))
  {
    var t := Recovering(s, now);
    forall id | id in s.jobs
      ensures t.jobs[id] == Recovered(s.jobs[id], now) && SameJob(s.jobs[id], t.jobs[id]) && RowBounded(t, id)
    {
      assert RowBounded(s, id);
    }
    CopiesStayBounded(s, t);
  }

  /** What an attempt writes back: the same job, waiting only while attempts are left. */
  lemma AttemptWrites(job: Job, result: AttemptResult, now: int, retryAt: int)
    ensures match AfterAttempt(job, result, now, retryAt)
      case Some(written) => Overwrite(job, written) == written && SameJob(job, written)
        && written.attempts == job.attempts && (Waiting(written) ==> job.attempts < job.maxAttempts)
      case None => true
  {
  }

  lemma FinishWrites(s: System, w: string, result: AttemptResult, now: int, retryAt: int)
    requires RunInv(s) && w in s.held
    ensures var id := s.held[w].id; var t := Finishing(s, w, result, now, retryAt);
      && id in s.jobs && id in t.jobs && t.jobs == s.jobs[id := t.jobs[id]]
      && SameJob(s.jobs[id], t.jobs[id]) && RowBounded(t, id) && Kept(s, t)
  {
    AttemptWrites(s.held[w], result, now, retryAt);
    assert CopyBounded(s, w) && RowBounded(s, s.held[w].id);
  }

  lemma FinishingKeepsRunInv(s: System, w: string, result: AttemptResult, now: int, retryAt: int)
    requires RunInv(s) && w in s.held
    ensures RunInv(Finishing(s, w, result, now, retryAt)) && Kept(s, Finishing(s, w, result, now, retryAt))
  {
    var t := Finishing(s, w, result, now, retryAt);
    FinishWrites(s, w, result, now, retryAt);
    CopiesStayBounded(s, t);
    WriteKeepsRunInv(s, t, s.held[w].id);
  }

  lemma OnlyActionTables(s: System, step: Step)
    requires Possible(s, step)
    requires step.Look? || step.Invoke? || step.Save? || step.SaveFails? || step.Crash?
    ensures var t := Next(s, step);
      && t.jobs == s.jobs && t.claims == s.claims && t.resumes == s.resumes && t.reading == s.reading
      && forall w :: w in t.held ==> w in s.held && t.held[w] == s.held[w]
  {
    match step
    case Look(w, node) =>
    case Crash(w) =>
    case _ =>
  }

  /** Steps on the action tables, and crashes, leave the jobs alone. */
  lemma OtherTablesKeepRunInv(s: System, t: System)
    requires RunInv(s) && t.jobs == s.jobs && t.claims == s.claims && t.resumes == s.resumes && t.reading == s.reading
    requires forall w :: w in t.held ==> w in s.held && t.held[w] == s.held[w]
    ensures RunInv(t) && Kept(s, t)
  {
    CopiesStayBounded(s, t);
    forall id | id in t.jobs
      ensures RowBounded(t, id)
    {
      assert RowBounded(s, id);
    }
  }

  lemma ActionStepKeepsRunInv(s: System, step: Step)
    requires RunInv(s) && Possible(s, step)
    requires step.Look? || step.Invoke? || step.Save? || step.SaveFails? || step.Crash?
    ensures RunInv(Next(s, step)) && Kept(s, Next(s, step))
  {
    OnlyActionTables(s, step);
    OtherTablesKeepRunInv(s, Next(s, step));
  }

  lemma StepKeepsRunInv(s: System, step: Step)
    requires RunInv(s)
    ensures RunInv(Do(s, step)) && Kept(s, Do(s, step))
  {
    if Possible(s, step) {
      match step
      case Enqueue(job) => EnqueuingKeepsRunInv(s, job);
      case Claim(w, id, now) => ClaimingKeepsRunInv(s, w, id, now);
      case Finish(w, result, now, retryAt) => FinishingKeepsRunInv(s, w, result, now, retryAt);
      case CancelJob(_, id, now) => CancellingKeepsRunInv(s, id, now);
      case ReadJob(client, id) => ReadingKeepsRunInv(s, client, id);
      case ResumeJob(client, approved) => ResumingKeepsRunInv(s, client, approved);
      case Recover(now) => RecoveringKeepsRunInv(s, now);
      case _ => ActionStepKeepsRunInv(s, step);
    }
  }

  /** Over any steps, recovery beside live workers and resumes of any job included, nothing is lost or out of bounds. */
  lemma {:induction false} RunKeepsRunInv(s: System, steps: seq<Step>)
    requires RunInv(s)
    ensures RunInv(RunFrom(s, steps)) && Kept(s, RunFrom(s, steps))
    decreases |steps|
  {
    if steps != [] {
      var t := Do(s, steps[0]);
      StepKeepsRunInv(s, steps[0]);
      RunKeepsRunInv(t, steps[1..]);
    }
  }

  lemma {:induction false} RunSnoc(s: System, steps: seq<Step>, step: Step)
    ensures RunFrom(s, steps + [step]) == Do(RunFrom(s, steps), step)
    decreases |steps|
  {
    var all := steps + [step];
    if steps == [] {
      assert all == [step] && all[1..] == [];
    } else {
      assert all[0] == steps[0] && all[1..] == steps[1..] + [step];
      RunSnoc(Do(s, steps[0]), steps[1..], step);
    }
  }

  lemma {:induction false} OrderlySnoc(s: System, steps: seq<Step>, step: Step)
    requires Orderly(s, steps) && Guarded(RunFrom(s, steps), step)
    ensures Orderly(s, steps + [step])
    decreases |steps|
  {
    var all := steps + [step];
    if steps == [] {
      assert all == [step] && all[1..] == [];
    } else {
      assert all[0] == steps[0] && all[1..] == steps[1..] + [step];
      OrderlySnoc(Do(s, steps[0]), steps[1..], step);
    }
  }

  /** `attempt_count` never exceeds max(1, max_attempts) + resumes, and is below it while the job waits. */
  lemma AttemptsAreBounded(steps: seq<Step>)
    ensures var s := Run(steps); forall id :: id in s.jobs ==> RowBounded(s, id)
  {
    RunKeepsRunInv(INIT, steps);
  }

  /** No job that was ever submitted disappears or becomes another one. */
  lemma JobsAreNeverLost(steps: seq<Step>, more: seq<Step>)
    ensures Kept(Run(steps), RunFrom(Run(steps), more))
  {
    RunKeepsRunInv(INIT, steps);
    RunKeepsRunInv(Run(steps), more);
  }

  /** From its submission on, a job is found by its own tenant and by no other. */
  lemma JobsStayFound(steps: seq<Step>, more: seq<Step>, tenant: string, id: string)
    requires id in Run(steps).jobs
    ensures var before := Run(steps).jobs[id]; var found := Lookup(RunFrom(Run(steps), more).jobs, tenant, id);
      if tenant == before.tenant then found.Some? && SameJob(before, found.value) else found.None?
  {
    JobsAreNeverLost(steps, more);
  }
}
