/**
 * The durable queue of background jobs (app/jobs/queue.py).  Each operation is one locked
 * transaction on the jobs table.
 */
module JobQueue {
  import opened Wrappers

  datatype JobStatus = QUEUED | RUNNING | RETRYING | COMPLETED | FAILED | CANCELLED

  /** What a worker is to do with the job: `payload["action"]`, and the decision of a resume. */
  datatype JobAction = EXECUTE | RESUME(approved: bool)

  /** The de-duplication key of a scheduled run. */
  datatype FireId = FireId(schedule: string, at: int)

  datatype Job = Job(
    id: string, tenant: string, execution: string, bundle: string, bundleVersion: int,
    status: JobStatus, attempts: int, maxAttempts: int,
    createdAt: int, startedAt: Option<int>, completedAt: Option<int>, lastError: Option<string>,
    action: JobAction, runAt: Option<int>, createdBy: string, worker: Option<string>,
    priority: int, fireId: Option<FireId>)

  type Table = map<string, Job>

  datatype EnqueueResult = Enqueued | Ignored | Raised

  predicate Waiting(job: Job)
  {
    job.status == QUEUED || job.status == RETRYING
  }

  predicate Due(job: Job, now: int)
  {
    Waiting(job) && (job.runAt.None? || job.runAt.value <= now)
  }

  /** `ORDER BY priority ASC, created_at ASC`. */
  predicate NoLater(a: Job, b: Job)
  {
    a.priority < b.priority || (a.priority == b.priority && a.createdAt <= b.createdAt)
  }

  /** The row a worker takes next: due, and no due row comes strictly before it. */
  ghost predicate IsNext(table: Table, id: string, now: int)
  {
    && id in table && Due(table[id], now)
    && forall other :: other in table && Due(table[other], now) ==> NoLater(table[id], table[other])
  }

  function Claimed(job: Job, worker: string, now: int): Job
  {
    job.(status := RUNNING, startedAt := Some(now), worker := Some(worker), attempts := job.attempts + 1)
  }

  /** `after` is `before` with the next due row, at `id`, claimed by `worker` and returned as `job`. */
  ghost predicate ClaimsAt(before: Table, after: Table, id: string, job: Job, worker: string, now: int)
  {
    IsNext(before, id, now) && job == Claimed(before[id], worker, now) && after == before[id := job]
  }

  /** Row `id` waits and may start by `now`. */
  ghost predicate MayStart(table: Table, id: string, now: int)
  {
    && id in table && (table[id].status == QUEUED || table[id].status == RETRYING)
    && (table[id].runAt == None || table[id].runAt.value <= now)
  }

  /** `id` may start, and no row that may comes before it by priority, then by age; it is taken for `worker`. */
  ghost predicate TakesFirst(before: Table, after: Table, id: string, taken: Job, worker: string, now: int)
  {
    && MayStart(before, id, now)
    && (forall other :: MayStart(before, other, now) ==>
          && before[id].priority <= before[other].priority
          && (before[id].priority == before[other].priority ==> before[id].createdAt <= before[other].createdAt))
    && after == before[id := taken]
    && taken.status == RUNNING && taken.worker == Some(worker) && taken.attempts == before[id].attempts + 1
    && taken == before[id].(status := RUNNING, worker := taken.worker, attempts := taken.attempts,
                            startedAt := Some(now))
  }

  /** The row has the job's progress and its own identity and terms. */
  ghost predicate TakesProgress(before: Job, after: Job, job: Job)
  {
    && after.status == job.status && after.attempts == job.attempts && after.startedAt == job.startedAt
    && after.completedAt == job.completedAt && after.lastError == job.lastError && after.runAt == job.runAt
    && after.worker == job.worker && after.action == job.action
    && after.id == before.id && after.tenant == before.tenant && after.execution == before.execution
    && after.bundle == before.bundle && after.bundleVersion == before.bundleVersion
    && after.maxAttempts == before.maxAttempts && after.createdAt == before.createdAt
    && after.createdBy == before.createdBy && after.priority == before.priority && after.fireId == before.fireId
  }

  predicate FireTaken(table: Table, fire: Option<FireId>)
  {
    fire.Some? && exists id :: id in table && table[id].fireId == fire
  }

  /** The columns `update_job` writes; the others keep the row's values. */
  function Overwrite(row: Job, job: Job): Job
  {
    row.(status := job.status, attempts := job.attempts, startedAt := job.startedAt,
         completedAt := job.completedAt, lastError := job.lastError, runAt := job.runAt,
         worker := job.worker, action := job.action)
  }

  function Updated(table: Table, tenant: string, job: Job): Table
  {
    if job.id in table && table[job.id].tenant == tenant
    then table[job.id := Overwrite(table[job.id], job)]
    else table
  }

  predicate Cancellable(table: Table, tenant: string, id: string)
  {
    id in table && table[id].tenant == tenant && Waiting(table[id])
  }

  /** What a tenant sees under a job id. */
  function Lookup(table: Table, tenant: string, id: string): Option<Job>
  {
    if id in table && table[id].tenant == tenant then Some(table[id]) else None
  }

  class Queue {
    var jobs: Table

    constructor ()
      ensures jobs == map[]
    {
      jobs := map[];
    }

    method Enqueue(job: Job) returns (r: EnqueueResult)
      modifies this
      ensures r == Enqueued <==> job.id !in old(jobs) && !FireTaken(old(jobs), job.fireId)
      ensures r == Raised <==> job.id in old(jobs)
      ensures jobs == if r == Enqueued then old(jobs)[job.id := job] else old(jobs)
      ensures r == Ignored ==> job.fireId.Some? && exists id :: id in old(jobs) && old(jobs)[id].fireId == job.fireId
      ensures r == Enqueued && job.fireId.Some? ==> forall id :: id in old(jobs) ==> old(jobs)[id].fireId != job.fireId
    {
      if job.id in jobs {
        return Raised;
      }
      if FireTaken(jobs, job.fireId) {
        return Ignored;
      }
      jobs := jobs[job.id := job];
      return Enqueued;
    }

    /** Takes the first due job by (priority, created_at); ties are broken by the database. */
    method Dequeue(worker: string, now: int) returns (taken: Option<Job>)
      modifies this
      ensures taken.None? <==> forall id :: id in old(jobs) ==> !Due(old(jobs)[id], now)
      ensures taken.None? ==> jobs == old(jobs)
      ensures taken.Some? ==> exists id :: ClaimsAt(old(jobs), jobs, id, taken.value, worker, now)
      ensures match taken
        case None => forall id :: !MayStart(old(jobs), id, now)
        case Some(job) => exists id :: TakesFirst(old(jobs), jobs, id, job, worker, now)
    {
      var best: Option<string> := None;
      var rest := jobs.Keys;
      while rest != {}
        invariant rest <= jobs.Keys && jobs == old(jobs)
        invariant best.Some? ==> best.value in jobs && Due(jobs[best.value], now)
        invariant forall id :: id in jobs && id !in rest && Due(jobs[id], now) ==>
          best.Some? && NoLater(jobs[best.value], jobs[id])
      {
        var id :| id in rest;
        rest := rest - {id};
        if Due(jobs[id], now) && (best.None? || !NoLater(jobs[best.value], jobs[id])) {
          best := Some(id);
        }
      }
      match best {
        case None =>
          taken := None;
        case Some(id) =>
          assert IsNext(jobs, id, now);
          var job := Claimed(jobs[id], worker, now);
          jobs := jobs[id := job];
          taken := Some(job);
          assert ClaimsAt(old(jobs), jobs, id, job, worker, now);
          assert TakesFirst(old(jobs), jobs, id, job, worker, now);
      }
    }

    method GetJob(tenant: string, id: string) returns (r: Option<Job>)
      ensures r == Lookup(jobs, tenant, id)
    {
      if id in jobs && jobs[id].tenant == tenant {
        return Some(jobs[id]);
      }
      return None;
    }

    method Cancel(tenant: string, id: string, now: int) returns (cancelled: bool)
      modifies this
      ensures cancelled <==> Cancellable(old(jobs), tenant, id)
      ensures jobs == if cancelled
        then old(jobs)[id := old(jobs)[id].(status := CANCELLED, completedAt := Some(now))]
        else old(jobs)
    {
      if id in jobs && jobs[id].tenant == tenant && Waiting(jobs[id]) {
        jobs := jobs[id := jobs[id].(status := CANCELLED, completedAt := Some(now))];
        return true;
      }
      return false;
    }

    method UpdateJob(tenant: string, job: Job)
      modifies this
      ensures jobs == Updated(old(jobs), tenant, job)
      ensures jobs.Keys == old(jobs).Keys
      ensures forall id :: id in old(jobs) ==>
        if id == job.id && old(jobs)[id].tenant == tenant then TakesProgress(old(jobs)[id], jobs[id], job)
        else jobs[id] == old(jobs)[id]
    {
      if job.id in jobs && jobs[job.id].tenant == tenant {
        jobs := jobs[job.id := Overwrite(jobs[job.id], job)];
      }
    }

    method GetQueueDepth(tenant: Option<string>) returns (depth: nat)
      ensures depth
           == |set id | id in jobs && Waiting(jobs[id]) && (Unscoped(tenant) || jobs[id].tenant == tenant.value)|
    {
      ghost var counted: set<string> := {};
      depth := 0;
      var rest := jobs.Keys;
      while rest != {}
        invariant rest <= jobs.Keys && depth == |counted|
        invariant forall id :: id in counted <==>
          id in jobs && id !in rest && Waiting(jobs[id]) && (Unscoped(tenant) || jobs[id].tenant == tenant.value)
      {
        var id :| id in rest;
        rest := rest - {id};
        if Waiting(jobs[id]) && (Unscoped(tenant) || jobs[id].tenant == tenant.value) {
          depth := depth + 1;
          counted := counted + {id};
        }
      }
      assert counted
          == set id | id in jobs && Waiting(jobs[id]) && (Unscoped(tenant) || jobs[id].tenant == tenant.value);
    }
  }

  /** `if tenant_id:` is false for no tenant and for the empty string. */
  predicate Unscoped(tenant: Option<string>)
  {
    tenant.None? || tenant.value == ""
  }
}
