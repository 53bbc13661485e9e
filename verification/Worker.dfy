/** The background worker: attempts, retries with back-off, suspension and recovery (app/jobs/worker.py). */
module Worker {
  import opened Wrappers
  import opened JobQueue
  import EE = ExecutionEngine
  import EH = ExecutionHistory

  const SUSPENDED := "HIL_SUSPENDED"

  const ORPHAN_ERROR := "Job execution orphaned and exceeded maximum attempts"

  predicate IsOrphan(job: Job)
  {
    job.status == RUNNING && job.worker != Some(SUSPENDED)
  }

  function Recovered(job: Job, now: int): Job
  {
    if !IsOrphan(job) then job
    else if job.attempts < job.maxAttempts then job.(status := QUEUED, worker := None, runAt := None)
    else job.(status := FAILED, completedAt := Some(now), lastError := Some(ORPHAN_ERROR))
  }

  function RecoveredTable(table: Table, now: int): Table
  {
    map id | id in table :: Recovered(table[id], now)
  }

  /** A failed attempt: another try at `retryAt` while attempts are left. */
  function AfterFailure(job: Job, error: string, now: int, retryAt: int): Job
  {
    var noted := job.(lastError := Some(error));
    if job.attempts < job.maxAttempts then noted.(status := RETRYING, runAt := Some(retryAt))
    else noted.(status := FAILED, completedAt := Some(now))
  }

  /** How one attempt at an execution ends: with the execution's status, or with an exception. */
  datatype AttemptResult = Ended(status: EE.Status) | RaisedError(error: string)

  /** The job as the worker writes it back; None when it writes nothing (a cancelled execution). */
  function AfterAttempt(job: Job, result: AttemptResult, now: int, retryAt: int): Option<Job>
  {
    match result
    case RaisedError(error) => Some(AfterFailure(job, error, now, retryAt))
    case Ended(status) =>
      match status
      case COMPLETED => Some(job.(status := COMPLETED, completedAt := Some(now)))
      case FAILED => Some(AfterFailure(job, "Workflow execution status failed", now, retryAt))
      case RUNNING => Some(job.(status := RUNNING, worker := Some(SUSPENDED)))
      case PENDING => None
      case CANCELLED => None
  }

  function ErrorText(e: EE.EngineError): string
  {
    match e
    case BundleMissing => "Bundle not found in tenant"
    case NoEntryNode => "Execution graph lacks a valid entry_node"
    case NotResumable => "Execution run is not in a resumeable state"
    case NoPendingApproval => "No active pending approval found for execution"
    case BundleIsNone => "'NoneType' object has no attribute 'payload'"
    case AuditFailed => "Audit entry not written"
    case NotCancellable => "Execution run cannot be cancelled"
  }

  /** The engine call an attempt makes, on the rows of the job's execution. */
  ghost function EngineCall(skill: EE.Skill, maxNodes: int, r: EE.Rows, job: Job, world: EE.World): EE.Reply
  {
    match job.action
    case RESUME(approved) => EE.Resumed(skill, maxNodes, r, if approved then EE.APPROVED else EE.REJECTED, world)
    case EXECUTE => EE.Started(skill, maxNodes, if job.attempts > 1 then EH.Cleared(r) else r, world)
  }

  function AttemptOf(call: EE.Reply): AttemptResult
  {
    match call.error
    case None => Ended(call.rows.record.status)
    case Some(e) => RaisedError(ErrorText(e))
  }

  /** A retried attempt, or a first one, is exactly a `Begin`; a resume is exactly a `Resume`. */
  lemma AttemptIsCommand(skill: EE.Skill, maxNodes: int, r: EE.Rows, job: Job, world: EE.World)
    requires job.action.EXECUTE? && job.attempts <= 1 ==> r.runs == [] && r.approvals == []
    ensures EngineCall(skill, maxNodes, r, job, world).rows == EH.After(skill, maxNodes, r,
      match job.action
      case EXECUTE => EH.Begin(world)
      case RESUME(approved) => EH.Resume(if approved then EE.APPROVED else EE.REJECTED, world))
  {
    assert job.action.EXECUTE? && job.attempts <= 1 ==> EH.Cleared(r) == r;
  }

  /** The jobs table after the worker has written the job back. */
  function Written(table: Table, job: Job, result: AttemptResult, now: int, retryAt: int): Table
  {
    match AfterAttempt(job, result, now, retryAt)
    case Some(written) => Updated(table, job.tenant, written)
    case None => table
  }

  /** Another try from `retryAt` on while attempts are left, or failure. */
  ghost predicate FailsOrRetries(job: Job, row: Job, now: int, retryAt: int)
  {
    if job.attempts < job.maxAttempts then row.status == RETRYING && row.runAt == Some(retryAt)
    else row.status == FAILED && row.completedAt == Some(now)
  }

  /** What an attempt makes of its row: a paused execution's job is suspended, a completed one's is completed. */
  ghost predicate Settles(job: Job, call: EE.Reply, row: Job, now: int, retryAt: int)
  {
    match call.error
    case Some(_) => FailsOrRetries(job, row, now, retryAt)
    case None =>
      match call.rows.record.status
      case COMPLETED => row.status == COMPLETED && row.completedAt == Some(now)
      case RUNNING => row.status == RUNNING && row.worker == Some("HIL_SUSPENDED")
      case FAILED => FailsOrRetries(job, row, now, retryAt)
      case _ => true
  }

  lemma AttemptSettles(table: Table, job: Job, call: EE.Reply, now: int, retryAt: int)
    ensures job.id in table && table[job.id].tenant == job.tenant ==>
      var t := Written(table, job, AttemptOf(call), now, retryAt);
      job.id in t && Settles(job, call, t[job.id], now, retryAt)
  {
  }

  class BackgroundWorker {
    const queue: Queue
    const workerId: string

    constructor (queue: Queue, workerId: string)
      ensures this.queue == queue && this.workerId == workerId
    {
      this.queue := queue;
      this.workerId := workerId;
    }

    /**
     * One transaction over all orphans, each with an audit entry that may fail to be written;
     * a failure rolls everything back and is only logged.
     */
    method RecoverOrphanedJobs(now: int, audited: set<string>) returns (recovered: bool)
      modifies queue
      ensures recovered <==> forall id :: id in old(queue.jobs) && IsOrphan(old(queue.jobs)[id]) ==> id in audited
      ensures queue.jobs == if recovered then RecoveredTable(old(queue.jobs), now) else old(queue.jobs)
      ensures recovered ==> forall id :: id in old(queue.jobs) ==>
        var row := old(queue.jobs)[id];
        && id in queue.jobs
        && if row.status != RUNNING || row.worker == Some("HIL_SUSPENDED") then queue.jobs[id] == row
           else if row.attempts < row.maxAttempts then
             queue.jobs[id] == row.(status := QUEUED, worker := None, runAt := None)
           else queue.jobs[id].status == FAILED && queue.jobs[id].completedAt == Some(now)
    {
      var table := queue.jobs;
      var rest := set id | id in table && IsOrphan(table[id]);
      while rest != {}
        invariant queue.jobs == old(queue.jobs) && rest <= table.Keys == queue.jobs.Keys
        invariant forall id :: id in rest ==> IsOrphan(queue.jobs[id])
        invariant forall id :: id in queue.jobs && id !in rest ==> (IsOrphan(queue.jobs[id]) ==> id in audited)
        invariant forall id :: id in table ==>
          table[id] == if id in rest then queue.jobs[id] else Recovered(queue.jobs[id], now)
      {
        var id :| id in rest;
        rest := rest - {id};
        var job := table[id];
        if job.attempts < job.maxAttempts {
          table := table[id := job.(status := QUEUED, worker := None, runAt := None)];
        } else {
          table := table[id := job.(status := FAILED, completedAt := Some(now), lastError := Some(ORPHAN_ERROR))];
        }
        if id !in audited {
          return false;
        }
      }
      queue.jobs := table;
      return true;
    }

    method HandleFailure(job: Job, error: string, now: int, retryAt: int)
      modifies queue
      ensures queue.jobs == Updated(old(queue.jobs), job.tenant, AfterFailure(job, error, now, retryAt))
    {
      var failed := job.(lastError := Some(error));
      if job.attempts < job.maxAttempts {
        failed := failed.(status := RETRYING, runAt := Some(retryAt));
        queue.UpdateJob(job.tenant, failed);
      } else {
        failed := failed.(status := FAILED, completedAt := Some(now));
        queue.UpdateJob(job.tenant, failed);
      }
    }

    /** Clears the history of the previous attempt; action runs are not among the cleared rows. */
    method ClearHistory(run: EE.Engine)
      modifies run
      ensures run.Tables() == EH.Cleared(old(run.Tables()))
    {
      run.runs := [];
      run.approvals := [];
    }

    method ProcessJob(job: Job, run: EE.Engine, world: EE.World, now: int, retryAt: int)
      modifies queue, run
      ensures var call := EngineCall(run.skill, run.maxNodes, old(run.Tables()), job, world);
        && run.Tables() == call.rows
        && queue.jobs == Written(old(queue.jobs), job, AttemptOf(call), now, retryAt)
      ensures var call := EngineCall(run.skill, run.maxNodes, old(run.Tables()), job, world);
        job.id in old(queue.jobs) && old(queue.jobs)[job.id].tenant == job.tenant ==>
          job.id in queue.jobs && Settles(job, call, queue.jobs[job.id], now, retryAt)
    {
      var r: Result<EE.Status, EE.EngineError>;
      match job.action {
        case RESUME(approved) =>
          r := run.Resume(if approved then EE.APPROVED else EE.REJECTED, world);
        case EXECUTE =>
          if job.attempts > 1 {
            ClearHistory(run);
          }
          r := run.Execute(world);
      }
      ghost var call := EngineCall(run.skill, run.maxNodes, old(run.Tables()), job, world);
      AttemptSettles(queue.jobs, job, call, now, retryAt);
      Conclude(job, r, now, retryAt);
    }

    /** Writes the job back by how the engine call ended. */
    method Conclude(job: Job, r: Result<EE.Status, EE.EngineError>, now: int, retryAt: int)
      modifies queue
      ensures var result := match r case Ok(status) => Ended(status) case Err(e) => RaisedError(ErrorText(e));
        queue.jobs == Written(old(queue.jobs), job, result, now, retryAt)
    {
      match r {
        case Err(e) =>
          HandleFailure(job, ErrorText(e), now, retryAt);
        case Ok(status) =>
          match status {
            case COMPLETED =>
              queue.UpdateJob(job.tenant, job.(status := COMPLETED, completedAt := Some(now)));
            case FAILED =>
              HandleFailure(job, "Workflow execution status failed", now, retryAt);
            case RUNNING =>
              queue.UpdateJob(job.tenant, job.(status := RUNNING, worker := Some(SUSPENDED)));
            case PENDING =>
            case CANCELLED =>
          }
      }
    }
  }
}
