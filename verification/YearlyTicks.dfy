/** What a schedule that runs once a year does to the ticks of all schedules (app/jobs/scheduler.py:44-63, 246-379). */
module YearlyTicks {
  import opened Wrappers
  import opened CronPattern
  import opened Cron
  import opened Calendar
  import opened YearlyCron
  import opened Scheduler
  import opened SchedulerHistory

  /** The fields say one moment, on a day that every year has. */
  ghost predicate SaysYearly(parts: seq<string>, y: Yearly)
  {
    |parts| == 5 && IsYearly(Expressed(parts), y) && InEveryYear(y.month, y.day)
  }

  lemma YearlyHasNoRunIff(parts: seq<string>, y: Yearly, now: nat)
    requires SaysYearly(parts, y)
    ensures NextRun(parts, now).Err? <==> JustBeforeLeapDay(y, now / MICROSECONDS)
  {
    NextRunIsLeast(parts, now);
    var r := NextRun(parts, now);
    EveryYearRunIsFound(Expressed(parts), y, now / MICROSECONDS, r);
    YearlyRunIsFound(Expressed(parts), y, now / MICROSECONDS, r);
  }

  /** Every due row but the one of `id` has a next run, and every misfire is audited. */
  ghost predicate OthersGoThrough(schedules: Schedules, tick: Event, maxLag: int, id: string)
    requires tick.Ticking? && |tick.tickets| == |tick.due| && DueRows(schedules, tick.due, tick.now)
  {
    forall i :: 0 <= i < |tick.due| ==>
      && (IsMissed(schedules[tick.due[i]], tick.now, maxLag) ==> tick.tickets[i].audited)
      && (tick.due[i] != id ==> NextOf(schedules[tick.due[i]], tick.now).Ok?)
  }

  /**
   * Where nothing else stops it, a tick at which a yearly schedule is due commits, for any schedule, exactly when
   * it is not within the day after that schedule's moment with a leap day before the next.
   */
  lemma YearlyTickCommitsIff(s: State, tick: Event, maxLag: int, id: string, y: Yearly)
    requires tick.Ticking? && Enabled(s, tick, maxLag) && tick.crash.None?
    requires OthersGoThrough(s.schedules, tick, maxLag, id)
    requires id in tick.due && SaysYearly(s.schedules[id].parts, y)
    ensures tick.result == Committed <==> !JustBeforeLeapDay(y, tick.now / MICROSECONDS)
  {
    var i :| 0 <= i < |tick.due| && tick.due[i] == id;
    YearlyHasNoRunIff(s.schedules[id].parts, y, tick.now);
    CommitsUnlessOneIsBad(s.schedules, tick.due, tick.tickets, tick.now, maxLag, tick.rows, tick.result);
    assert GoesThrough(s.schedules[tick.due[i]], tick.tickets[i], tick.now, maxLag)
      <==> !JustBeforeLeapDay(y, tick.now / MICROSECONDS);
  }

  /** Throughout that day it stops every schedule, whatever else happens. */
  lemma YearlyScheduleStopsAll(s: State, events: seq<Event>, maxLag: int, id: string, y: Yearly)
    requires id in s.schedules && s.schedules[id].enabled && s.schedules[id].nextRun <= s.clock
    requires SaysYearly(s.schedules[id].parts, y) && OnlyTicksAndWork(events)
    requires forall i :: 0 <= i < |events| && events[i].Ticking? ==> JustBeforeLeapDay(y, events[i].now / MICROSECONDS)
    ensures After(s, events, maxLag).schedules == s.schedules
  {
    forall i | 0 <= i < |events| && events[i].Ticking?
      ensures NextRun(s.schedules[id].parts, events[i].now).Err?
    {
      YearlyHasNoRunIff(s.schedules[id].parts, y, events[i].now);
    }
    ScheduleWithoutRunStopsAll(s, events, maxLag, id);
  }
}
