/** What the scheduler guarantees over every run of ticks, crashes, edits and queue activity. */
module SchedulerHistory {
  import opened Wrappers
  import opened JobQueue
  import opened CronPattern
  import opened Cron
  import opened Scheduler

  datatype State = State(schedules: Schedules, jobs: Table, clock: nat)

  const INIT := State(map[], map[], 0)

  /** `Working` is whatever else happens to the jobs table between two ticks. */
  datatype Event =
    | Ticking(now: nat, due: seq<string>, tickets: seq<Ticket>, crash: Option<nat>, rows: nat, result: TickResult)
    | Saving(id: string, record: Schedule)
    | Deleting(id: string)
    | Working(jobs: Table)

  /** Workers and clients rewrite rows and enqueue jobs, but give no job a fire id or another creation time. */
  ghost predicate WorkedOn(jobs: Table, after: Table)
  {
    forall id :: id in after ==>
      if id in jobs then after[id].fireId == jobs[id].fireId && after[id].createdAt == jobs[id].createdAt
      else after[id].fireId == None
  }

  ghost predicate Enabled(s: State, event: Event, maxLag: int)
  {
    match event
    case Ticking(now, due, tickets, crash, rows, r) =>
      s.clock <= now && DueRows(s.schedules, due, now) && |tickets| == |due|
      && Stops(s.schedules, due, tickets, now, maxLag, crash, rows, r)
    case Saving(_, _) => true
    case Deleting(_) => true
    case Working(jobs) => WorkedOn(s.jobs, jobs)
  }

  ghost function Next(s: State, event: Event, maxLag: int): State
    requires Enabled(s, event, maxLag)
  {
    match event
    case Ticking(now, due, tickets, crash, rows, r) =>
      State(if r == Committed then Advancing(s.schedules, now, maxLag) else s.schedules,
            JobsAfter(s.schedules, s.jobs, due, tickets, now, maxLag, rows), now)
    case Saving(id, record) => s.(schedules := Saved(s.schedules, id, record))
    case Deleting(id) => s.(schedules := s.schedules - {id})
    case Working(jobs) => s.(jobs := jobs)
  }

  /** The state after a sequence of events; an event that is not enabled does not happen. */
  ghost function After(s: State, events: seq<Event>, maxLag: int): State
  {
    if events == [] then s
    else
      var t := After(s, events[..|events| - 1], maxLag);
      if Enabled(t, events[|events| - 1], maxLag) then Next(t, events[|events| - 1], maxLag) else t
  }

  // ---- Fires ----

  /** No two jobs belong to the same fire of a schedule. */
  ghost predicate FiredOnce(jobs: Table)
  {
    forall a, b :: a in jobs && b in jobs && jobs[a].fireId.Some? && jobs[a].fireId == jobs[b].fireId ==> a == b
  }

  /** A scheduled job was created at or after its fire time, and within the lag limit. */
  predicate OnTime(job: Job, clock: nat, maxLag: int)
  {
    job.fireId.Some? ==> job.fireId.value.at <= job.createdAt <= clock
                         && job.createdAt - job.fireId.value.at <= maxLag * MICROSECONDS
  }

  ghost predicate Fires(s: State, maxLag: int)
  {
    FiredOnce(s.jobs) && forall id :: id in s.jobs ==> OnTime(s.jobs[id], s.clock, maxLag)
  }

  lemma {:induction false} RowsKeepFires(s: State, due: seq<string>, tickets: seq<Ticket>, now: nat, maxLag: int,
                                         n: nat)
    requires Fires(s, maxLag) && s.clock <= now && n <= |due| == |tickets|
    requires forall i :: 0 <= i < |due| ==> due[i] in s.schedules && IsDue(s.schedules[due[i]], now)
    ensures Fires(State(map[], JobsAfter(s.schedules, s.jobs, due, tickets, now, maxLag, n), now), maxLag)
  {
    if n > 0 {
      RowsKeepFires(s, due, tickets, now, maxLag, n - 1);
    }
  }

  lemma EventKeepsFires(s: State, event: Event, maxLag: int)
    requires Fires(s, maxLag) && Enabled(s, event, maxLag)
    ensures Fires(Next(s, event, maxLag), maxLag)
  {
    match event
    case Ticking(now, due, tickets, crash, rows, r) =>
      forall i | 0 <= i < |due|
        ensures due[i] in s.schedules && IsDue(s.schedules[due[i]], now)
      {
        assert due[i] in due;
      }
      RowsKeepFires(s, due, tickets, now, maxLag, rows);
    case Saving(_, _) =>
    case Deleting(_) =>
    case Working(_) =>
  }

  /**
   * Over any run, ticks that crash and are replayed included, each fire time of a schedule gets
   * at most one job, and none outside the lag limit.
   */
  lemma {:induction false} FiresOnceAndOnTime(events: seq<Event>, maxLag: int)
    ensures Fires(After(INIT, events, maxLag), maxLag)
  {
    if events != [] {
      var s := After(INIT, events[..|events| - 1], maxLag);
      FiresOnceAndOnTime(events[..|events| - 1], maxLag);
      if Enabled(s, events[|events| - 1], maxLag) {
        EventKeepsFires(s, events[|events| - 1], maxLag);
      }
    }
  }

  // ---- One tick ----

  /** The schedule's next run is the one that follows `now`; it has triggered unless it came too late. */
  ghost predicate MovesTo(before: Schedule, after: Schedule, now: nat, maxLag: int)
  {
    && after == before.(nextRun := after.nextRun, lastTriggered := after.lastTriggered)
    && (exists m :: NextRun(before.parts, now) == Ok(m) && after.nextRun == m * 60_000_000)
    && after.lastTriggered == if now - before.nextRun <= maxLag * 60_000_000 then Some(now) else before.lastTriggered
  }

  /** A tick that commits moves each due schedule past `now`, and past every fire it ever had; it touches no other. */
  lemma CommittedTickMovesOn(events: seq<Event>, tick: Event, maxLag: int, id: string)
    requires var s := After(INIT, events, maxLag);
      tick.Ticking? && tick.result == Committed && Enabled(s, tick, maxLag) && id in s.schedules
    ensures var s := After(INIT, events, maxLag); var t := Next(s, tick, maxLag);
      && id in t.schedules
      && if id in tick.due then
           && t.schedules[id].nextRun > tick.now >= s.schedules[id].nextRun && NeverFired(t, id)
           && MovesTo(s.schedules[id], t.schedules[id], tick.now, maxLag)
         else t.schedules[id] == s.schedules[id]
  {
    var s := After(INIT, events, maxLag);
    FiresOnceAndOnTime(events, maxLag);
    EventKeepsFires(s, tick, maxLag);
    if id in tick.due {
      var i :| 0 <= i < |tick.due| && tick.due[i] == id;
      assert NextOf(s.schedules[tick.due[i]], tick.now).Ok?;
      NextRunIsLeast(s.schedules[id].parts, tick.now);
    }
  }

  /** No job exists yet for the schedule's next fire. */
  ghost predicate NeverFired(s: State, id: string)
    requires id in s.schedules
  {
    !FireTaken(s.jobs, Some(FireId(id, s.schedules[id].nextRun)))
  }

  /** Of the rows processed, exactly those in time, not locked out and with a fresh job id get a job they had not. */
  lemma {:induction false} RowFiresUnless(s: State, due: seq<string>, tickets: seq<Ticket>, now: nat, maxLag: int,
                                          n: nat, i: nat)
    requires i < |due| == |tickets| && n <= |due| && DueRows(s.schedules, due, now) && due[i] in s.schedules
    ensures var row := s.schedules[due[i]]; var before := JobsAfter(s.schedules, s.jobs, due, tickets, now, maxLag, i);
      FireTaken(JobsAfter(s.schedules, s.jobs, due, tickets, now, maxLag, n), Some(FireId(due[i], row.nextRun)))
      <==> FireTaken(s.jobs, Some(FireId(due[i], row.nextRun)))
           || (i < n && !IsMissed(row, now, maxLag) && !tickets[i].locked && tickets[i].job !in before)
  {
    if n > 0 {
      RowFiresUnless(s, due, tickets, now, maxLag, n - 1, i);
      RowFire(JobsAfter(s.schedules, s.jobs, due, tickets, now, maxLag, n - 1),
              due[n - 1], s.schedules[due[n - 1]], tickets[n - 1], now, maxLag,
              FireId(due[i], s.schedules[due[i]].nextRun));
    }
  }

  lemma RowFire(jobs: Table, id: string, row: Schedule, ticket: Ticket, now: nat, maxLag: int, fire: FireId)
    ensures FireTaken(JobsAfterRow(jobs, id, row, ticket, now, maxLag), Some(fire))
      <==> FireTaken(jobs, Some(fire))
           || (fire == FireId(id, row.nextRun) && !IsMissed(row, now, maxLag) && !ticket.locked && ticket.job !in jobs)
  {
    var after := JobsAfterRow(jobs, id, row, ticket, now, maxLag);
    if FireTaken(jobs, Some(fire)) {
      var j :| j in jobs && jobs[j].fireId == Some(fire);
      assert j in after && after[j].fireId == Some(fire);
    } else if ticket.job in after && ticket.job !in jobs {
      assert after[ticket.job].fireId == Some(FireId(id, row.nextRun));
    }
  }

  // ---- What a tick enqueues ----

  /** A first attempt, to start at once, at the schedule's bundle. */
  predicate IsJobOf(id: string, s: Schedule, ticket: Ticket, now: nat, job: Job)
  {
    && job.id == ticket.job && job.execution == ticket.execution && job.tenant == s.tenant
    && job.bundle == s.bundle && job.bundleVersion == s.bundleVersion && job.createdBy == s.createdBy
    && job.status == QUEUED && job.runAt == None && job.worker == None && job.action == EXECUTE
    && job.attempts == 0 && job.maxAttempts == 3 && job.priority == 100 && job.createdAt == now
    && job.fireId == Some(FireId(id, s.nextRun))
  }

  /** An enabled schedule whose time has come, not longer ago than the lag allows. */
  predicate MayTrigger(s: Schedule, now: nat, maxLag: int)
  {
    s.enabled && 0 <= now - s.nextRun <= maxLag * 60_000_000
  }

  /** Each job that is new comes from a row that may trigger. */
  lemma {:induction false} OnlyTriggersEnqueue(s: State, due: seq<string>, tickets: seq<Ticket>, now: nat, maxLag: int,
                                               n: nat)
    requires n <= |due| == |tickets| && DueRows(s.schedules, due, now)
    requires forall i :: 0 <= i < |due| ==> due[i] in s.schedules
    ensures var t := JobsAfter(s.schedules, s.jobs, due, tickets, now, maxLag, n);
      && (forall j :: j in s.jobs ==> j in t && t[j] == s.jobs[j])
      && forall j :: j in t && j !in s.jobs ==>
           exists i :: 0 <= i < n && j == tickets[i].job && MayTrigger(s.schedules[due[i]], now, maxLag)
                       && IsJobOf(due[i], s.schedules[due[i]], tickets[i], now, t[j])
  {
    if n > 0 {
      OnlyTriggersEnqueue(s, due, tickets, now, maxLag, n - 1);
      assert due[n - 1] in due;
    }
  }

  ghost predicate DistinctJobs(jobs: Table, tickets: seq<Ticket>)
  {
    && (forall i :: 0 <= i < |tickets| ==> tickets[i].job !in jobs)
    && forall i, j :: 0 <= i < j < |tickets| ==> tickets[i].job != tickets[j].job
  }

  lemma {:induction false} TriggersOnceReached(s: State, due: seq<string>, tickets: seq<Ticket>, now: nat, maxLag: int,
                                               i: nat, n: nat)
    requires i < n <= |due| == |tickets| && DueRows(s.schedules, due, now) && DistinctJobs(s.jobs, tickets)
    requires due[i] in s.schedules && MayTrigger(s.schedules[due[i]], now, maxLag) && !tickets[i].locked
    requires !FireTaken(s.jobs, Some(FireId(due[i], s.schedules[due[i]].nextRun)))
    ensures var t := JobsAfter(s.schedules, s.jobs, due, tickets, now, maxLag, n);
      tickets[i].job in t && IsJobOf(due[i], s.schedules[due[i]], tickets[i], now, t[tickets[i].job])
    decreases n
  {
    if i < n - 1 {
      TriggersOnceReached(s, due, tickets, now, maxLag, i, n - 1);
    } else {
      var before := JobsAfter(s.schedules, s.jobs, due, tickets, now, maxLag, i);
      OnlyTriggersEnqueue(s, due, tickets, now, maxLag, i);
      RowFiresUnless(s, due, tickets, now, maxLag, i, i);
    }
  }

  /** Unless the jobs table is locked then, the `i`-th due row has its job after the tick. */
  ghost predicate Triggers(s: State, tick: Event, maxLag: int, i: int)
    requires tick.Ticking? && Enabled(s, tick, maxLag) && 0 <= i < |tick.due| && tick.due[i] in s.schedules
  {
    var id, ticket, jobs := tick.due[i], tick.tickets[i], Next(s, tick, maxLag).jobs;
    !ticket.locked ==> ticket.job in jobs && IsJobOf(id, s.schedules[id], ticket, tick.now, jobs[ticket.job])
  }

  /**
   * A tick enqueues a job for every enabled schedule that is due and in time, has a fresh job id and meets no lock,
   * unless that run has its job already, and for no other.
   */
  lemma DueSchedulesTrigger(s: State, tick: Event, maxLag: int, id: string)
    requires tick.Ticking? && Enabled(s, tick, maxLag) && tick.rows == |tick.due| && DistinctJobs(s.jobs, tick.tickets)
    requires id in s.schedules && MayTrigger(s.schedules[id], tick.now, maxLag)
    requires !FireTaken(s.jobs, Some(FireId(id, s.schedules[id].nextRun)))
    ensures exists i :: 0 <= i < |tick.due| && tick.due[i] == id && Triggers(s, tick, maxLag, i)
  {
    assert id in tick.due;
    var i :| 0 <= i < |tick.due| && tick.due[i] == id;
    if !tick.tickets[i].locked {
      TriggersOnceReached(s, tick.due, tick.tickets, tick.now, maxLag, i, tick.rows);
    }
  }

  // ---- One bad schedule ----

  /** Unless the process dies, a tick commits exactly when every due row has a next run and every misfire is audited. */
  lemma CommitsUnlessOneIsBad(schedules: Schedules, due: seq<string>, tickets: seq<Ticket>, now: nat, maxLag: int,
                              k: nat, r: TickResult)
    requires DueRows(schedules, due, now) && |tickets| == |due|
    requires Stops(schedules, due, tickets, now, maxLag, None, k, r)
    ensures r == Committed <==> forall i :: 0 <= i < |due| ==> GoesThrough(schedules[due[i]], tickets[i], now, maxLag)
  {
  }

  predicate GoesThrough(s: Schedule, ticket: Ticket, now: nat, maxLag: int)
  {
    NextOf(s, now).Ok? && (IsMissed(s, now, maxLag) ==> ticket.audited)
  }

  /** An expression that never has a next run. */
  ghost predicate Broken(parts: seq<string>)
  {
    forall now: nat :: NextRun(parts, now).Err?
  }

  predicate OnlyTicksAndWork(events: seq<Event>)
  {
    forall i :: 0 <= i < |events| ==> events[i].Ticking? || events[i].Working?
  }

  /** At every tick of the events the expression has no next run. */
  predicate NoRunAtTicks(parts: seq<string>, events: seq<Event>)
  {
    forall i :: 0 <= i < |events| && events[i].Ticking? ==> NextRun(parts, events[i].now).Err?
  }

  /** While an enabled due schedule has no next run at the time of any tick, no schedule moves until one is edited. */
  lemma {:induction false} ScheduleWithoutRunStopsAll(s: State, events: seq<Event>, maxLag: int, id: string)
    requires id in s.schedules && s.schedules[id].enabled && s.schedules[id].nextRun <= s.clock
    requires NoRunAtTicks(s.schedules[id].parts, events) && OnlyTicksAndWork(events)
    ensures After(s, events, maxLag).schedules == s.schedules && After(s, events, maxLag).clock >= s.clock
  {
    if events != [] {
      var front, event := events[..|events| - 1], events[|events| - 1];
      ScheduleWithoutRunStopsAll(s, front, maxLag, id);
      var t := After(s, front, maxLag);
      if Enabled(t, event, maxLag) && event.Ticking? {
        assert id in event.due && event.result != Committed;
      }
    }
  }

  /** A broken expression stops all for good. */
  lemma OneBrokenScheduleStopsAll(s: State, events: seq<Event>, maxLag: int, id: string)
    requires id in s.schedules && s.schedules[id].enabled && s.schedules[id].nextRun <= s.clock
    requires Broken(s.schedules[id].parts) && OnlyTicksAndWork(events)
    ensures After(s, events, maxLag).schedules == s.schedules
  {
    ScheduleWithoutRunStopsAll(s, events, maxLag, id);
  }

  /** A step of zero in the minute field breaks an expression, and so does a wrong number of fields. */
  lemma ZeroMinuteStepIsBroken(parts: seq<string>)
    requires |parts| != 5 || ZeroStep(parts[0])
    ensures Broken(parts)
  {
    forall now: nat
      ensures NextRun(parts, now).Err?
    {
      NextRunIsLeast(parts, now);
      if |parts| == 5 {
        ZeroStepAlways(parts[0], Minute(now / MICROSECONDS + 1));
      }
    }
  }
}
