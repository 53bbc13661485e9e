/**
 * The cron scheduler (app/jobs/scheduler.py:246-374).  A tick updates the schedules in one
 * transaction, while each enqueue commits on its own and may fail.
 */
module Scheduler {
  import opened Wrappers
  import opened JobQueue
  import opened CronPattern
  import opened Cron

  /** Times are in microseconds. */
  datatype Schedule = Schedule(
    tenant: string, bundle: string, bundleVersion: int, parts: seq<string>, enabled: bool,
    nextRun: int, createdBy: string, lastTriggered: Option<int>)

  type Schedules = map<string, Schedule>

  /**
   * Fresh ids for the row's job, whether the jobs table is locked when it is enqueued, and
   * whether the audit entry of a misfire can be written.
   */
  datatype Ticket = Ticket(job: string, execution: string, locked: bool, audited: bool)

  datatype TickError = NoNextRun(error: CronError) | AuditFailed

  datatype TickResult = Committed | Crashed | RolledBack(error: TickError)

  predicate IsDue(s: Schedule, now: nat)
  {
    s.enabled && s.nextRun <= now
  }

  /** The rows of `SELECT ... WHERE enabled = 1 AND next_run_at <= ?`, each once, in some order. */
  ghost predicate DueRows(schedules: Schedules, due: seq<string>, now: nat)
  {
    && (forall id :: id in due <==> id in schedules && IsDue(schedules[id], now))
    && (forall i, j :: 0 <= i < j < |due| ==> due[i] != due[j])
  }

  predicate IsMissed(s: Schedule, now: nat, maxLag: int)
  {
    now - s.nextRun > maxLag * MICROSECONDS
  }

  function Advanced(s: Schedule, now: nat, maxLag: int, next: nat): Schedule
  {
    if IsMissed(s, now, maxLag) then s.(nextRun := next * MICROSECONDS)
    else s.(nextRun := next * MICROSECONDS, lastTriggered := Some(now))
  }

  function ScheduledJob(id: string, s: Schedule, ticket: Ticket, now: nat): Job
  {
    Job(ticket.job, s.tenant, ticket.execution, s.bundle, s.bundleVersion, QUEUED, 0, 3,
        now, None, None, None, EXECUTE, None, s.createdBy, None, 100, Some(FireId(id, s.nextRun)))
  }

  function JobsAfterRow(jobs: Table, id: string, s: Schedule, ticket: Ticket, now: nat, maxLag: int): Table
  {
    var job := ScheduledJob(id, s, ticket, now);
    if IsMissed(s, now, maxLag) || ticket.locked || job.id in jobs || FireTaken(jobs, job.fireId) then jobs
    else jobs[job.id := job]
  }

  /** The jobs table after the first `n` rows. */
  function JobsAfter(schedules: Schedules, jobs: Table, due: seq<string>, tickets: seq<Ticket>,
                     now: nat, maxLag: int, n: nat): Table
    requires n <= |due| == |tickets| && forall i :: 0 <= i < |due| ==> due[i] in schedules
  {
    if n == 0 then jobs
    else
      JobsAfterRow(JobsAfter(schedules, jobs, due, tickets, now, maxLag, n - 1),
                   due[n - 1], schedules[due[n - 1]], tickets[n - 1], now, maxLag)
  }

  function NextOf(s: Schedule, now: nat): Result<nat, CronError>
  {
    NextRun(s.parts, now)
  }

  /** The schedules a committed tick writes. */
  function Advancing(schedules: Schedules, now: nat, maxLag: int): Schedules
  {
    map id | id in schedules :: AdvancedRow(schedules[id], now, maxLag)
  }

  function AdvancedRow(s: Schedule, now: nat, maxLag: int): Schedule
  {
    if IsDue(s, now) && NextOf(s, now).Ok? then Advanced(s, now, maxLag, NextOf(s, now).value) else s
  }

  /** What stops the tick at a row, if anything does. */
  function RowError(s: Schedule, ticket: Ticket, now: nat, maxLag: int): Option<TickError>
  {
    match NextOf(s, now)
    case Err(e) => Some(NoNextRun(e))
    case Ok(_) => if IsMissed(s, now, maxLag) && !ticket.audited then Some(AuditFailed) else None
  }

  /** The first `k` rows go through. */
  ghost predicate Passed(schedules: Schedules, due: seq<string>, tickets: seq<Ticket>, now: nat, maxLag: int, k: nat)
    requires k <= |due| == |tickets| && forall i :: 0 <= i < |due| ==> due[i] in schedules
  {
    forall i :: 0 <= i < k ==> RowError(schedules[due[i]], tickets[i], now, maxLag).None?
  }

  /** A tick ends with result `r` after `k` rows, given the row count after which the process dies, if it does. */
  ghost predicate Stops(schedules: Schedules, due: seq<string>, tickets: seq<Ticket>, now: nat, maxLag: int,
                        crash: Option<nat>, k: nat, r: TickResult)
    requires |due| == |tickets| && forall i :: 0 <= i < |due| ==> due[i] in schedules
  {
    && k <= |due| && Passed(schedules, due, tickets, now, maxLag, k)
    && match r
       case Committed => k == |due| && (crash.Some? ==> crash.value > k)
       case Crashed => crash.Some? && crash.value == k
       case RolledBack(e) =>
         k < |due| && RowError(schedules[due[k]], tickets[k], now, maxLag) == Some(e)
         && (crash.Some? ==> crash.value > k)
  }

  function Saved(schedules: Schedules, id: string, record: Schedule): Schedules
  {
    if id in schedules
    then schedules[id := schedules[id].(enabled := record.enabled, nextRun := record.nextRun,
                                        lastTriggered := record.lastTriggered)]
    else schedules[id := record]
  }

  /** `pending` is the transaction after the first `k` rows: those have moved on. */
  ghost predicate Pending(schedules: Schedules, due: seq<string>, now: nat, maxLag: int, k: nat, pending: Schedules)
    requires k <= |due|
  {
    && pending.Keys == schedules.Keys
    && (forall i :: 0 <= i < k && due[i] in schedules ==>
          pending[due[i]] == AdvancedRow(schedules[due[i]], now, maxLag))
    && (forall id :: id in schedules && id !in due[..k] ==> pending[id] == schedules[id])
  }

  lemma PendingRow(schedules: Schedules, due: seq<string>, now: nat, maxLag: int, k: nat, pending: Schedules)
    requires k < |due| && DueRows(schedules, due, now) && Pending(schedules, due, now, maxLag, k, pending)
    ensures due[k] in schedules && pending[due[k]] == schedules[due[k]]
    ensures Pending(schedules, due, now, maxLag, k + 1, pending[due[k] := AdvancedRow(schedules[due[k]], now, maxLag)])
  {
    var moved := pending[due[k] := AdvancedRow(schedules[due[k]], now, maxLag)];
    assert due[k] in due && due[k] !in due[..k];
    assert due[..k + 1] == due[..k] + [due[k]];
    forall i | 0 <= i < k + 1 && due[i] in schedules
      ensures moved[due[i]] == AdvancedRow(schedules[due[i]], now, maxLag)
    {
      assert i < k ==> due[i] != due[k];
    }
  }

  lemma AllPending(schedules: Schedules, due: seq<string>, now: nat, maxLag: int, pending: Schedules)
    requires DueRows(schedules, due, now) && Pending(schedules, due, now, maxLag, |due|, pending)
    ensures pending == Advancing(schedules, now, maxLag)
  {
    assert due[..|due|] == due;
    forall id | id in schedules
      ensures pending[id] == AdvancedRow(schedules[id], now, maxLag)
    {
      assert id in due || !IsDue(schedules[id], now);
    }
  }

  class CronScheduler {
    var schedules: Schedules
    const queue: Queue
    const maxLag: int

    constructor (queue: Queue, maxLag: int)
      ensures this.queue == queue && this.maxLag == maxLag && schedules == map[]
    {
      this.queue := queue;
      this.maxLag := maxLag;
      schedules := map[];
    }

    /** `ON CONFLICT(schedule_id) DO UPDATE` writes three columns of an existing row. */
    method SaveSchedule(id: string, record: Schedule)
      modifies this
      ensures schedules == Saved(old(schedules), id, record)
    {
      if id in schedules {
        schedules := schedules[id := schedules[id].(enabled := record.enabled, nextRun := record.nextRun,
                                                    lastTriggered := record.lastTriggered)];
      } else {
        schedules := schedules[id := record];
      }
    }

    method DeleteSchedule(tenant: string, id: string) returns (deleted: bool)
      modifies this
      ensures deleted <==> id in old(schedules) && old(schedules)[id].tenant == tenant
      ensures schedules == if deleted then old(schedules) - {id} else old(schedules)
    {
      deleted := id in schedules && schedules[id].tenant == tenant;
      if deleted {
        schedules := schedules - {id};
      }
    }

    /** One due row: its next run, and its job unless it is a misfire; a failing enqueue is only logged. */
    method EvaluateRow(pending: Schedules, id: string, ticket: Ticket, now: nat)
      returns (r: Result<Schedules, TickError>)
      requires id in pending && IsDue(pending[id], now)
      modifies queue
      ensures match r
        case Err(e) => RowError(pending[id], ticket, now, maxLag) == Some(e) && queue.jobs == old(queue.jobs)
        case Ok(p) => RowError(pending[id], ticket, now, maxLag).None?
                      && p == pending[id := AdvancedRow(pending[id], now, maxLag)]
                      && queue.jobs == JobsAfterRow(old(queue.jobs), id, pending[id], ticket, now, maxLag)
    {
      var row := pending[id];
      var next := GetNextRun(row.parts, now);
      if next.Err? {
        return Err(NoNextRun(next.error));
      }
      var advanced := pending[id := Advanced(row, now, maxLag, next.value)];
      if IsMissed(row, now, maxLag) {
        if !ticket.audited {
          return Err(AuditFailed);
        }
        return Ok(advanced);
      }
      if !ticket.locked {
        var _ := queue.Enqueue(ScheduledJob(id, row, ticket, now));
      }
      return Ok(advanced);
    }

    /** The loop over the due rows; what it returns as pending is not committed yet. */
    method EvaluateRows(now: nat, due: seq<string>, tickets: seq<Ticket>, crash: Option<nat>)
      returns (pending: Schedules, r: TickResult, ghost rows: nat)
      requires DueRows(schedules, due, now) && |tickets| == |due|
      modifies queue
      ensures Stops(schedules, due, tickets, now, maxLag, crash, rows, r)
      ensures Pending(schedules, due, now, maxLag, rows, pending)
      ensures queue.jobs == JobsAfter(schedules, old(queue.jobs), due, tickets, now, maxLag, rows)
    {
      pending := schedules;
      for i := 0 to |due|
        invariant Pending(schedules, due, now, maxLag, i, pending) && Passed(schedules, due, tickets, now, maxLag, i)
        invariant queue.jobs == JobsAfter(schedules, old(queue.jobs), due, tickets, now, maxLag, i)
        invariant crash.Some? ==> i <= crash.value
      {
        if crash.Some? && crash.value == i {
          return pending, Crashed, i;
        }
        PendingRow(schedules, due, now, maxLag, i, pending);
        var row := EvaluateRow(pending, due[i], tickets[i], now);
        match row {
          case Err(e) => return pending, RolledBack(e), i;
          case Ok(p) => pending := p;
        }
        assert RowError(schedules[due[i]], tickets[i], now, maxLag).None?;
      }
      return pending, if crash.Some? && crash.value == |due| then Crashed else Committed, |due|;
    }

    /** One tick; `crash` is the number of rows after which the process dies, if it does. */
    method EvaluateSchedules(now: nat, due: seq<string>, tickets: seq<Ticket>, crash: Option<nat>)
      returns (r: TickResult, ghost rows: nat)
      requires DueRows(schedules, due, now) && |tickets| == |due|
      modifies this, queue
      ensures Stops(old(schedules), due, tickets, now, maxLag, crash, rows, r)
      ensures schedules == if r == Committed then Advancing(old(schedules), now, maxLag) else old(schedules)
      ensures queue.jobs == JobsAfter(old(schedules), old(queue.jobs), due, tickets, now, maxLag, rows)
    {
      var pending;
      pending, r, rows := EvaluateRows(now, due, tickets, crash);
      if r == Committed {
        AllPending(schedules, due, now, maxLag, pending);
        schedules := pending;
      }
    }
  }
}
