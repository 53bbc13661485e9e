/**
 * Cron expressions for one moment of the year (app/jobs/scheduler.py:44-63): the search covers 365
 * days, which is exactly too short around leap days.
 */
module YearlyCron {
  import opened Wrappers
  import opened Calendar
  import opened CronPattern
  import opened Cron

  /** One moment of the year, on any day that some year has. */
  datatype Yearly = Yearly(minute: nat, hour: nat, day: nat, month: nat)

  predicate IsMoment(y: Yearly)
  {
    y.minute < 60 && y.hour < 24 && 1 <= y.month <= 12 && 1 <= y.day <= DaysIn(4, y.month)
  }

  predicate IsYearly(e: Expression, y: Yearly)
  {
    && Literal(e.minute, y.minute) && Literal(e.hour, y.hour) && Literal(e.dom, y.day) && Literal(e.month, y.month)
    && e.dow == "*" && IsMoment(y)
  }

  /** Whether `year` has the day. */
  predicate Occurs(y: Yearly, year: nat)
  {
    IsMoment(y) && IsDate(Date(year, y.month, y.day))
  }

  function At(y: Yearly, day: nat): nat
  {
    day * 1440 + y.hour * 60 + y.minute
  }

  /** The minute of the run in `year`. */
  function MomentIn(y: Yearly, year: nat): nat
    requires Occurs(y, year)
  {
    At(y, DayNumber(Date(year, y.month, y.day)))
  }

  lemma DateOfMoment(y: Yearly, year: nat)
    requires Occurs(y, year)
    ensures DateOf(MomentIn(y, year) / 1440) == Date(year, y.month, y.day)
    ensures Hour(MomentIn(y, year)) == y.hour && Minute(MomentIn(y, year)) == y.minute
  {
    var d := Date(year, y.month, y.day);
    DayNumberDateOf(d);
    MomentParts(DayNumber(d), y.hour, y.minute, MomentIn(y, year));
  }

  /** Such an expression matches exactly the moments of the years that have its day. */
  lemma YearlyMatches(e: Expression, y: Yearly, t: nat)
    requires IsYearly(e, y)
    ensures var year := DateOf(t / 1440).year;
      Test(e, t) == if Occurs(y, year) && t == MomentIn(y, year) then Yes else No
  {
    var d := DateOf(t / 1440);
    DateOfDayNumber(t / 1440);
    LiteralMatchesOne(e.minute, y.minute, Minute(t));
    LiteralMatchesOne(e.hour, y.hour, Hour(t));
    LiteralMatchesOne(e.dom, y.day, d.day);
    LiteralMatchesOne(e.month, y.month, d.month);
    if Occurs(y, d.year) {
      var n := DayNumber(Date(d.year, y.month, y.day));
      MomentParts(n, y.hour, y.minute, t);
      if t / 1440 == n {
        DayNumberDateOf(Date(d.year, y.month, y.day));
      }
    }
  }

  /** The run of `year` lies in the 365 days after `m`. */
  predicate SoonIn(y: Yearly, year: nat, m: nat)
  {
    Occurs(y, year) && m < MomentIn(y, year) <= m + YEAR
  }

  ghost predicate Soon(y: Yearly, m: nat)
  {
    exists year: nat :: SoonIn(y, year, m)
  }

  lemma NoZeroStep(e: Expression, y: Yearly)
    requires IsYearly(e, y)
    ensures !HasZeroStep(e)
  {
    LiteralMatchesOne(e.minute, y.minute, 0);
    LiteralMatchesOne(e.hour, y.hour, 0);
    LiteralMatchesOne(e.dom, y.day, 0);
    LiteralMatchesOne(e.month, y.month, 0);
    ZeroStepAlways(e.minute, 0);
    ZeroStepAlways(e.hour, 0);
    ZeroStepAlways(e.dom, 0);
    ZeroStepAlways(e.month, 0);
  }

  /** For every day that some year has: the search raises exactly when the next run is more than 365 days away. */
  lemma YearlyRunIsFound(e: Expression, y: Yearly, m: nat, r: Result<nat, CronError>)
    requires IsYearly(e, y) && IsNextRun(e, m, r)
    ensures r.Ok? <==> Soon(y, m)
    ensures r.Ok? || r == Err(NoneWithinAYear)
  {
    NoZeroStep(e, y);
    FoundIffSomeMinuteMatches(e, m, r);
    if r.Ok? {
      YearlyMatches(e, y, r.value);
      assert SoonIn(y, DateOf(r.value / 1440).year, m);
    }
    if Soon(y, m) {
      var year: nat :| SoonIn(y, year, m);
      DateOfMoment(y, year);
      YearlyMatches(e, y, MomentIn(y, year));
      assert MatchesAt(e, MomentIn(y, year));
    }
  }

  // ---- Days that every year has ----

  lemma NextMoment(y: Yearly, year: nat)
    requires 1 <= year && IsMoment(y) && InEveryYear(y.month, y.day)
    ensures Occurs(y, year) && Occurs(y, year + 1)
    ensures MomentIn(y, year + 1) == MomentIn(y, year) + YEAR + if LeapDayFollows(year, y.month) then 1440 else 0
  {
    Anniversary(year, y.month, y.day);
  }

  lemma MomentsAscend(y: Yearly, a: nat, b: nat)
    requires 1 <= a < b && IsMoment(y) && InEveryYear(y.month, y.day)
    ensures Occurs(y, a) && Occurs(y, b) && MomentIn(y, a) + YEAR <= MomentIn(y, b)
  {
    AnniversariesAscend(a, b, y.month, y.day);
  }

  lemma FirstMomentIsEarly(y: Yearly)
    requires IsMoment(y) && InEveryYear(y.month, y.day)
    ensures Occurs(y, 1) && MomentIn(y, 1) < YEAR
  {
    WithinYear(Date(1, y.month, y.day));
  }

  /** The year of the last run up to `m`; zero when there is none. */
  lemma LastRun(y: Yearly, m: nat) returns (year: nat)
    requires IsMoment(y) && InEveryYear(y.month, y.day)
    ensures Occurs(y, year + 1) && m < MomentIn(y, year + 1)
    ensures year > 0 ==> Occurs(y, year) && MomentIn(y, year) <= m
  {
    var d := DateOf(m / 1440);
    DateOfDayNumber(m / 1440);
    var after := Date(d.year + 1, y.month, y.day);
    EarlierDatesComeFirst(d, after);
    if MomentIn(y, d.year) <= m {
      return d.year;
    }
    year := d.year - 1;
    if year > 0 {
      var before := Date(year, y.month, y.day);
      EarlierDatesComeFirst(before, d);
    }
  }

  predicate LastBefore(y: Yearly, year: nat, m: nat)
  {
    Occurs(y, year) && MomentIn(y, year) <= m < MomentIn(y, year) + 1440
  }

  /** The last run was less than a day ago and a leap day comes before the next one. */
  ghost predicate JustBeforeLeapDay(y: Yearly, m: nat)
  {
    exists year: nat :: LastBefore(y, year, m) && LeapDayFollows(year, y.month)
  }

  /** The run after the last one is the only one that can be soon. */
  lemma OnlyNextIsSoon(y: Yearly, m: nat, year: nat)
    requires IsMoment(y) && InEveryYear(y.month, y.day)
    requires Occurs(y, year + 1) && m < MomentIn(y, year + 1)
    requires year > 0 ==> Occurs(y, year) && MomentIn(y, year) <= m
    ensures Soon(y, m) <==> MomentIn(y, year + 1) <= m + YEAR
  {
    if Soon(y, m) {
      var soon: nat :| SoonIn(y, soon, m);
      if soon < year {
        MomentsAscend(y, soon, year);
      } else if soon > year + 1 {
        MomentsAscend(y, year + 1, soon);
      }
    }
    assert MomentIn(y, year + 1) <= m + YEAR ==> SoonIn(y, year + 1, m);
  }

  lemma LastBeforeIsUnique(y: Yearly, m: nat, year: nat, other: nat)
    requires IsMoment(y) && InEveryYear(y.month, y.day) && LastBefore(y, other, m)
    requires Occurs(y, year + 1) && m < MomentIn(y, year + 1)
    requires year > 0 ==> Occurs(y, year) && MomentIn(y, year) <= m
    ensures other == year
  {
    if other < year {
      MomentsAscend(y, other, year);
    } else if year + 1 < other {
      MomentsAscend(y, year + 1, other);
    }
  }

  /** For a day that every year has, the search raises exactly during the day after a run that a leap day follows. */
  lemma EveryYearRunIsFound(e: Expression, y: Yearly, m: nat, r: Result<nat, CronError>)
    requires IsYearly(e, y) && IsNextRun(e, m, r) && InEveryYear(y.month, y.day)
    ensures r == Err(NoneWithinAYear) <==> JustBeforeLeapDay(y, m)
  {
    YearlyRunIsFound(e, y, m, r);
    var year := LastRun(y, m);
    OnlyNextIsSoon(y, m, year);
    if year == 0 {
      FirstMomentIsEarly(y);
    } else {
      NextMoment(y, year);
      assert LastBefore(y, year, m) <==> m < MomentIn(y, year) + 1440;
    }
    forall other: nat | LastBefore(y, other, m)
      ensures other == year
    {
      LastBeforeIsUnique(y, m, year, other);
    }
  }

  // ---- 29 February ----

  predicate IsLeapDay(y: Yearly)
  {
    IsMoment(y) && y.month == 2 && y.day == 29
  }

  /** The moment of 1 March, from which the leap day of the year after is within 365 days. */
  function MarchFirst(y: Yearly, year: nat): nat
    requires 1 <= year
  {
    At(y, DayNumber(Date(year, 3, 1)))
  }

  /** Before the leap day of a leap year, or from 1 March of the year before one. */
  predicate NearLeapDay(y: Yearly, m: nat)
    requires IsLeapDay(y)
  {
    var year := DateOf(m / 1440).year;
    || (Occurs(y, year) && m < MomentIn(y, year))
    || (year >= 1 && Occurs(y, year + 1) && MarchFirst(y, year) <= m)
  }

  /** The leap day of the running year, when still ahead, is soon. */
  lemma ThisLeapDayIsSoon(y: Yearly, m: nat)
    requires IsLeapDay(y)
    ensures var year := DateOf(m / 1440).year; Occurs(y, year) && m < MomentIn(y, year) ==> SoonIn(y, year, m)
  {
    var d := DateOf(m / 1440);
    DateOfDayNumber(m / 1440);
    if Occurs(y, d.year) {
      LeapDayNumber(d.year);
    }
  }

  lemma LeapDayMoment(y: Yearly, year: nat)
    requires IsLeapDay(y) && year >= 1 && Occurs(y, year + 1)
    ensures MomentIn(y, year + 1) == MarchFirst(y, year) + YEAR
  {
    LeapDayAfterMarch(year);
  }

  lemma NextLeapDayIsAhead(y: Yearly, m: nat)
    requires IsLeapDay(y) && Occurs(y, DateOf(m / 1440).year + 1)
    ensures m < MomentIn(y, DateOf(m / 1440).year + 1)
  {
    var d := DateOf(m / 1440);
    DateOfDayNumber(m / 1440);
    EarlierDatesComeFirst(d, Date(d.year + 1, 2, 29));
  }

  /** The leap day of the year after the running one is soon from 1 March on. */
  lemma NextLeapDayIsSoon(y: Yearly, m: nat)
    requires IsLeapDay(y) && Occurs(y, DateOf(m / 1440).year + 1)
    ensures var year := DateOf(m / 1440).year; year >= 1 && (SoonIn(y, year + 1, m) <==> MarchFirst(y, year) <= m)
  {
    DateOfDayNumber(m / 1440);
    NextLeapDayIsAhead(y, m);
    LeapDayMoment(y, DateOf(m / 1440).year);
  }

  /** No other leap day is soon. */
  lemma OtherLeapDaysAreNotSoon(y: Yearly, m: nat, year: nat)
    requires IsLeapDay(y) && Occurs(y, year)
    requires var own := DateOf(m / 1440).year; year != own && year != own + 1
    ensures !SoonIn(y, year, m)
  {
    var d := DateOf(m / 1440);
    DateOfDayNumber(m / 1440);
    var leapDay := Date(year, 2, 29);
    if year < d.year {
      EarlierDatesComeFirst(leapDay, d);
    } else {
      FarLeapDay(d, year);
    }
  }

  /** From any day of a year, the leap days from the year after next on are more than 365 days ahead. */
  lemma FarLeapDay(d: Date, year: nat)
    requires IsDate(d) && year > d.year + 1 && IsLeap(year)
    ensures DayNumber(Date(year, 2, 29)) > DayNumber(d) + 365
  {
    var eve := Date(d.year + 1, 1, 1);
    EarlierDatesComeFirst(d, eve);
    YearsAscend(d.year + 1, year);
    LeapDayNumber(year);
  }

  /** Only the leap day of the running year or of the next one can be soon. */
  lemma WhichLeapDayIsSoon(y: Yearly, m: nat)
    requires IsLeapDay(y)
    ensures var own := DateOf(m / 1440).year; Soon(y, m) <==> SoonIn(y, own, m) || SoonIn(y, own + 1, m)
  {
    forall year: nat | Occurs(y, year) && year != DateOf(m / 1440).year && year != DateOf(m / 1440).year + 1
      ensures !SoonIn(y, year, m)
    {
      OtherLeapDaysAreNotSoon(y, m, year);
    }
  }

  lemma NearLeapDayIsSoon(y: Yearly, m: nat)
    requires IsLeapDay(y)
    ensures var own := DateOf(m / 1440).year; SoonIn(y, own, m) || SoonIn(y, own + 1, m) <==> NearLeapDay(y, m)
  {
    DateOfDayNumber(m / 1440);
    ThisLeapDayIsSoon(y, m);
    if Occurs(y, DateOf(m / 1440).year + 1) {
      NextLeapDayIsSoon(y, m);
    }
  }

  /** For 29 February, the search raises exactly when `m` is not near a leap day. */
  lemma LeapDayRunIsFound(e: Expression, y: Yearly, m: nat, r: Result<nat, CronError>)
    requires IsYearly(e, y) && IsNextRun(e, m, r) && IsLeapDay(y)
    ensures r == Err(NoneWithinAYear) <==> !NearLeapDay(y, m)
  {
    YearlyRunIsFound(e, y, m, r);
    WhichLeapDayIsSoon(y, m);
    NearLeapDayIsSoon(y, m);
  }

  // ---- Runs that are missed ----

  lemma Digit(s: string, v: nat)
    requires (s == "0" && v == 0) || (s == "1" && v == 1)
    ensures Literal(s, v)
  {
    assert s[..0] == "";
  }

  lemma WholeMinutes(m: nat)
    ensures m * MICROSECONDS / MICROSECONDS == m
  {
  }

  /** A schedule for New Year, advanced at New Year of any leap year, raises. */
  lemma NewYearIsMissed(year: nat)
    requires 1 <= year && IsLeap(year)
    ensures NextRun(["0", "0", "1", "1", "*"], MomentIn(Yearly(0, 0, 1, 1), year) * MICROSECONDS)
         == Err(NoneWithinAYear)
  {
    var parts, y := ["0", "0", "1", "1", "*"], Yearly(0, 0, 1, 1);
    var m := MomentIn(y, year);
    Digit("0", 0);
    Digit("1", 1);
    NextRunIsLeast(parts, m * MICROSECONDS);
    WholeMinutes(m);
    assert LastBefore(y, year, m) && LeapDayFollows(year, 1);
    EveryYearRunIsFound(Expressed(parts), y, m, NextRun(parts, m * MICROSECONDS));
  }

  lemma TwentyNine()
    ensures Literal("29", 29) && Literal("2", 2)
  {
    assert "29"[..1] == "2" && "2"[..0] == "";
    assert Value("2") == 2;
  }

  lemma FarFromLeapDay(y: Yearly, year: nat)
    requires IsLeapDay(y) && 1 <= year && !IsLeap(year) && !IsLeap(year + 1)
    ensures !NearLeapDay(y, DayNumber(Date(year, 1, 1)) * 1440)
  {
    DayNumberDateOf(Date(year, 1, 1));
    assert DayNumber(Date(year, 1, 1)) * 1440 / 1440 == DayNumber(Date(year, 1, 1));
  }

  /** A schedule for 29 February, entered on 1 January of a common year before a common year, raises. */
  lemma LeapDayIsMissed(year: nat)
    requires 1 <= year && !IsLeap(year) && !IsLeap(year + 1)
    ensures NextRun(["0", "0", "29", "2", "*"], DayNumber(Date(year, 1, 1)) * 1440 * MICROSECONDS)
         == Err(NoneWithinAYear)
  {
    var parts, y := ["0", "0", "29", "2", "*"], Yearly(0, 0, 29, 2);
    var m := DayNumber(Date(year, 1, 1)) * 1440;
    Digit("0", 0);
    TwentyNine();
    NextRunIsLeast(parts, m * MICROSECONDS);
    WholeMinutes(m);
    FarFromLeapDay(y, year);
    LeapDayRunIsFound(Expressed(parts), y, m, NextRun(parts, m * MICROSECONDS));
  }
}
