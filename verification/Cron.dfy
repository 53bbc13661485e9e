/** Cron expressions (app/jobs/scheduler.py:15-63): field tests and the search for the next run. */
module Cron {
  import opened Wrappers
  import opened Calendar
  import opened CronPattern

  // ---- A whole expression ----

  datatype Expression = Expression(minute: string, hour: string, dom: string, month: string, dow: string)

  function Minute(t: nat): nat { t % 60 }

  function Hour(t: nat): nat { t / 60 % 24 }

  /** Sunday is 0; 0001-01-01 was a Monday. */
  function Weekday(t: nat): nat { (t / 1440 + 1) % 7 }

  /** The tests of one candidate minute in the order of the code, which stops at the first that fails. */
  function Test(e: Expression, t: nat): Match
  {
    var date := DateOf(t / 1440);
    var minute := CronMatches(e.minute, Minute(t));
    if minute != Yes then minute
    else
      var hour := CronMatches(e.hour, Hour(t));
      if hour != Yes then hour
      else
        var dom := CronMatches(e.dom, date.day);
        if dom != Yes then dom
        else
          var month := CronMatches(e.month, date.month);
          if month != Yes then month else CronMatches(e.dow, Weekday(t))
  }

  const YEAR := 525600
  const MICROSECONDS := 60_000_000

  datatype CronError = BadFieldCount | NoneWithinAYear | ZeroDivision

  function Expressed(parts: seq<string>): Expression
    requires |parts| == 5
  {
    Expression(parts[0], parts[1], parts[2], parts[3], parts[4])
  }

  ghost predicate NoneUntil(e: Expression, after: nat, until: nat)
  {
    forall t: nat :: after < t < until ==> Test(e, t) == No
  }

  /** The next run after minute `m`: the least of the following 525600 minutes that matches. */
  ghost predicate IsNextRun(e: Expression, m: nat, r: Result<nat, CronError>)
  {
    match r
    case Ok(t) => m < t <= m + YEAR && Test(e, t) == Yes && NoneUntil(e, m, t)
    case Err(NoneWithinAYear) => NoneUntil(e, m, m + YEAR + 1)
    case Err(ZeroDivision) => exists t: nat :: m < t <= m + YEAR && Test(e, t) == DivisionByZero && NoneUntil(e, m, t)
    case Err(BadFieldCount) => false
  }

  /** The first minute after `t` and up to `last` that matches. */
  function Search(e: Expression, t: nat, last: nat): Result<nat, CronError>
    decreases last - t
  {
    if t >= last then Err(NoneWithinAYear)
    else
      match Test(e, t + 1)
      case Yes => Ok(t + 1)
      case No => Search(e, t + 1, last)
      case DivisionByZero => Err(ZeroDivision)
  }

  /** The run after `base`, which is in microseconds, in whole minutes; both count from 0001-01-01T00:00. */
  function NextRun(parts: seq<string>, base: nat): Result<nat, CronError>
  {
    if |parts| != 5 then Err(BadFieldCount)
    else Search(Expressed(parts), base / MICROSECONDS, base / MICROSECONDS + YEAR)
  }

  lemma {:induction false} SearchFindsTheLeast(e: Expression, m: nat, t: nat)
    requires m <= t <= m + YEAR && NoneUntil(e, m, t + 1)
    ensures IsNextRun(e, m, Search(e, t, m + YEAR))
    decreases m + YEAR - t
  {
    if t < m + YEAR && Test(e, t + 1) == No {
      assert NoneUntil(e, m, t + 2);
      SearchFindsTheLeast(e, m, t + 1);
    }
  }

  /** The run found is the least matching minute of the year after `base`, and later than `base`. */
  lemma NextRunIsLeast(parts: seq<string>, base: nat)
    ensures NextRun(parts, base) == Err(BadFieldCount) <==> |parts| != 5
    ensures |parts| == 5 ==> IsNextRun(Expressed(parts), base / MICROSECONDS, NextRun(parts, base))
    ensures NextRun(parts, base).Ok? ==> NextRun(parts, base).value * MICROSECONDS > base
  {
    if |parts| == 5 {
      SearchFindsTheLeast(Expressed(parts), base / MICROSECONDS, base / MICROSECONDS);
    }
  }

  method GetNextRun(parts: seq<string>, base: nat) returns (r: Result<nat, CronError>)
    ensures r == NextRun(parts, base)
  {
    if |parts| != 5 {
      return Err(BadFieldCount);
    }
    var e := Expressed(parts);
    var curr := base / MICROSECONDS;
    for i := 0 to YEAR
      invariant curr == base / MICROSECONDS + i
      invariant NextRun(parts, base) == Search(e, curr, curr - i + YEAR)
    {
      curr := curr + 1;
      match Test(e, curr) {
        case No =>
        case DivisionByZero => return Err(ZeroDivision);
        case Yes => return Ok(curr);
      }
    }
    return Err(NoneWithinAYear);
  }

  // ---- When a run is found ----

  predicate HasZeroStep(e: Expression)
  {
    ZeroStep(e.minute) || ZeroStep(e.hour) || ZeroStep(e.dom) || ZeroStep(e.month) || ZeroStep(e.dow)
  }

  predicate MatchesAt(e: Expression, t: nat)
  {
    Test(e, t) == Yes
  }

  /** Without a zero step a run is found exactly when some minute of the year matches. */
  lemma FoundIffSomeMinuteMatches(e: Expression, m: nat, r: Result<nat, CronError>)
    requires IsNextRun(e, m, r) && !HasZeroStep(e)
    ensures r.Ok? <==> exists t: nat :: m < t <= m + YEAR && MatchesAt(e, t)
    ensures r.Ok? || r == Err(NoneWithinAYear)
  {
    if r.Ok? {
      assert MatchesAt(e, r.value);
    } else if r == Err(ZeroDivision) {
      var t: nat :| m < t <= m + YEAR && Test(e, t) == DivisionByZero;
      var date := DateOf(t / 1440);
      ZeroStepAlways(e.minute, Minute(t));
      ZeroStepAlways(e.hour, Hour(t));
      ZeroStepAlways(e.dom, date.day);
      ZeroStepAlways(e.month, date.month);
      ZeroStepAlways(e.dow, Weekday(t));
    }
  }

  predicate Satisfiable(pattern: string, bound: nat)
  {
    exists v: nat :: v < bound && CronMatches(pattern, v) == Yes
  }

  /**
   * With any day of the month and any month, a run is found, within a week, exactly when minute,
   * hour and weekday can match.
   */
  lemma WeeklyRunIsFound(e: Expression, m: nat, r: Result<nat, CronError>)
    requires IsNextRun(e, m, r) && e.dom == "*" && e.month == "*"
    ensures r.Ok? <==> Satisfiable(e.minute, 60) && Satisfiable(e.hour, 24) && Satisfiable(e.dow, 7)
    ensures r.Ok? ==> r.value <= m + 10080
    ensures r.Ok? && e.dow == "*" ==> r.value <= m + 1440
  {
    if r.Ok? {
      assert CronMatches(e.minute, Minute(r.value)) == Yes && CronMatches(e.hour, Hour(r.value)) == Yes;
      assert CronMatches(e.dow, Weekday(r.value)) == Yes;
    }
    if Satisfiable(e.minute, 60) && Satisfiable(e.hour, 24) && Satisfiable(e.dow, 7) {
      var mi: nat :| mi < 60 && CronMatches(e.minute, mi) == Yes;
      var ho: nat :| ho < 24 && CronMatches(e.hour, ho) == Yes;
      var wd: nat :| wd < 7 && CronMatches(e.dow, wd) == Yes;
      ZeroStepAlways(e.minute, mi);
      ZeroStepAlways(e.hour, ho);
      ZeroStepAlways(e.dow, wd);
      FoundIffSomeMinuteMatches(e, m, r);
      var t := MomentOfWeek(m, mi, ho, wd);
      assert MatchesAt(e, t);
      if e.dow == "*" {
        var u := MomentOfDay(m, mi, ho);
        assert MatchesAt(e, u);
      }
    }
  }

  lemma MomentParts(n: nat, hour: nat, minute: nat, t: nat)
    requires hour < 24 && minute < 60
    ensures t == n * 1440 + hour * 60 + minute <==> t / 1440 == n && Hour(t) == hour && Minute(t) == minute
  {
    var hours := t / 60;
    assert t == hours * 60 + Minute(t) && hours == hours / 24 * 24 + Hour(t) && hours / 24 == t / 1440;
    if t == n * 1440 + hour * 60 + minute {
      assert hours == n * 24 + hour;
    }
  }

  /** Each hour and minute comes once in the day after `m`. */
  lemma MomentOfDay(m: nat, mi: nat, ho: nat) returns (t: nat)
    requires mi < 60 && ho < 24
    ensures m < t <= m + 1440 && Minute(t) == mi && Hour(t) == ho
  {
    var today := m / 1440 * 1440 + ho * 60 + mi;
    t := if today > m then today else today + 1440;
    MomentParts(if today > m then m / 1440 else m / 1440 + 1, ho, mi, t);
  }

  lemma DaysUntil(n: nat, wd: nat) returns (wait: nat)
    requires wd < 7
    ensures wait < 7 && (n + wait + 1) % 7 == wd
  {
    wait := (wd + 7 - (n + 1) % 7) % 7;
  }

  lemma MomentOfWeek(m: nat, mi: nat, ho: nat, wd: nat) returns (t: nat)
    requires mi < 60 && ho < 24 && wd < 7
    ensures m < t <= m + 10080 && Minute(t) == mi && Hour(t) == ho && Weekday(t) == wd
  {
    var start := MomentOfDay(m, mi, ho);
    var n := start / 1440;
    var wait := DaysUntil(n, wd);
    t := start + wait * 1440;
    MomentParts(n, ho, mi, start);
    MomentParts(n + wait, ho, mi, t);
  }
}
