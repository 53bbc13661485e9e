/** What a cron expression means (app/jobs/scheduler.py:36-63), against the calendar. */
module CronMeaning {
  import opened Wrappers
  import opened Calendar
  import opened CronPattern
  import opened Cron

  /** A field as its author means it: any value, every k-th, one of some numerals, or one number. */
  datatype Field = Any | Every(step: nat) | Among(numerals: seq<string>) | At(number: nat)

  ghost predicate Writes(field: Field, pattern: string)
  {
    match field
    case Any => pattern == "*"
    case Every(k) => k > 0 && exists digits :: IsDigits(digits) && Value(digits) == k && pattern == "*/" + digits
    case Among(numerals) =>
      |numerals| >= 2 && (forall d :: d in numerals ==> IsDigits(d)) && pattern == JoinWith(numerals, ',')
    case At(v) => IsDigits(pattern) && Value(pattern) == v
  }

  ghost predicate Allows(field: Field, v: nat)
  {
    match field
    case Any => true
    case Every(k) => k > 0 && v % k == 0
    case Among(numerals) => exists d :: d in numerals && IsDigits(d) && Value(d) == v
    case At(number) => v == number
  }

  datatype Times = Times(minute: Field, hour: Field, day: Field, month: Field, weekday: Field)

  ghost predicate Expresses(parts: seq<string>, times: Times)
  {
    && |parts| == 5
    && Writes(times.minute, parts[0]) && Writes(times.hour, parts[1]) && Writes(times.day, parts[2])
    && Writes(times.month, parts[3]) && Writes(times.weekday, parts[4])
  }

  /**
   * The minute `t` after 0001-01-01T00:00 is one of the times.  That day was a Monday, and a Sunday is 0: so day
   * number 6 and every seventh after it is a Sunday.
   */
  ghost predicate Includes(times: Times, t: nat)
  {
    var day := t / 1440;
    && Allows(times.minute, t % 60) && Allows(times.hour, t % 1440 / 60)
    && Allows(times.weekday, (day + 1) % 7)
    && exists date :: IsDate(date) && DayNumber(date) == day && Allows(times.day, date.day)
                      && Allows(times.month, date.month)
  }

  /** A field matches exactly the values that are meant. */
  lemma MatchesAsMeant(field: Field, pattern: string, v: nat)
    requires Writes(field, pattern)
    ensures CronMatches(pattern, v) == if Allows(field, v) then Yes else No
  {
    match field
    case Any =>
    case Every(k) =>
      var digits :| IsDigits(digits) && Value(digits) == k && pattern == "*/" + digits;
      StepMatchesMultiples(digits, v);
    case Among(numerals) =>
      ListMatchesItsNumbers(numerals, v);
      assert (exists p :: p in numerals && Literal(p, v)) <==> Allows(field, v);
    case At(number) =>
      LiteralMatchesOne(pattern, number, v);
  }

  lemma HourOfDay(t: nat)
    ensures t / 60 % 24 == t % 1440 / 60
  {
    assert t == t / 1440 * 1440 + t % 1440;
    assert t / 60 == t / 1440 * 24 + t % 1440 / 60;
  }

  lemma DateIsOne(t: nat, date: Date)
    requires IsDate(date) && DayNumber(date) == t / 1440
    ensures date == DateOf(t / 1440)
  {
    DayNumberDateOf(date);
  }

  lemma TestsAsMeant(parts: seq<string>, times: Times, t: nat)
    requires Expresses(parts, times)
    ensures Test(Expressed(parts), t) == if Includes(times, t) then Yes else No
  {
    var date := DateOf(t / 1440);
    DateOfDayNumber(t / 1440);
    HourOfDay(t);
    MatchesAsMeant(times.minute, parts[0], t % 60);
    MatchesAsMeant(times.hour, parts[1], t % 1440 / 60);
    MatchesAsMeant(times.day, parts[2], date.day);
    MatchesAsMeant(times.month, parts[3], date.month);
    MatchesAsMeant(times.weekday, parts[4], (t / 1440 + 1) % 7);
    forall other | IsDate(other) && DayNumber(other) == t / 1440
      ensures other == date
    {
      DateIsOne(t, other);
    }
  }

  /** The next run is the first minute meant within the 525600 after the base, and an error says there is none. */
  lemma NextRunAsMeant(parts: seq<string>, times: Times, base: nat)
    requires Expresses(parts, times)
    ensures var m := base / 60_000_000;
      match NextRun(parts, base)
      case Ok(t) => m < t <= m + 525600 && Includes(times, t) && forall u :: m < u < t ==> !Includes(times, u)
      case Err(e) => e == NoneWithinAYear && forall u :: m < u <= m + 525600 ==> !Includes(times, u)
  {
    var m := base / 60_000_000;
    NextRunIsLeast(parts, base);
    forall t: nat
      ensures Test(Expressed(parts), t) == if Includes(times, t) then Yes else No
    {
      TestsAsMeant(parts, times, t);
    }
  }

  // ---- A known Sunday ----

  /** The leap days of the first `n` years. */
  function LeapDays(n: nat): int { n / 4 - n / 100 + n / 400 }

  lemma FourthsStep(n: nat)
    requires n > 0
    ensures n / 4 == (n - 1) / 4 + if n % 4 == 0 then 1 else 0
  {
  }

  lemma CenturiesStep(n: nat)
    requires n > 0
    ensures n / 100 == (n - 1) / 100 + if n % 100 == 0 then 1 else 0
    ensures n / 400 == (n - 1) / 400 + if n % 400 == 0 then 1 else 0
  {
  }

  lemma CenturiesAreFourths(q: nat, c: nat, n: nat)
    requires q == n / 400 && c == n / 100
    ensures n % 400 == 0 ==> n % 100 == 0
    ensures n % 100 == 0 ==> n % 4 == 0
  {
    if n % 400 == 0 {
      assert n == 100 * (4 * q);
    }
    if n % 100 == 0 {
      assert n == 4 * (25 * c);
    }
  }

  lemma LeapDaysStep(n: nat)
    requires n > 0
    ensures LeapDays(n) == LeapDays(n - 1) + if IsLeap(n) then 1 else 0
  {
    FourthsStep(n);
    CenturiesStep(n);
    CenturiesAreFourths(n / 400, n / 100, n);
  }

  lemma {:induction false} DaysBeforeYearIs(year: nat)
    requires year >= 1
    ensures DaysBeforeYear(year) == 365 * (year - 1) + LeapDays(year - 1)
  {
    if year > 1 {
      DaysBeforeYearIs(year - 1);
      LeapDaysStep(year - 1);
    }
  }

  /** 2024-01-07 was a Sunday, and the Friday before it is two days earlier. */
  lemma KnownSunday()
    ensures IsDate(Date(2024, 1, 7)) && (DayNumber(Date(2024, 1, 7)) + 1) % 7 == 0
    ensures IsDate(Date(2024, 1, 5)) && DayNumber(Date(2024, 1, 5)) == DayNumber(Date(2024, 1, 7)) - 2
  {
    DaysBeforeYearIs(2024);
  }

  const SUNDAY_AT_NINE := ["0", "9", "*", "*", "0"]

  lemma SundayAtNineIsMeant()
    ensures Expresses(SUNDAY_AT_NINE, Times(At(0), At(9), Any, Any, At(0)))
  {
    assert "0"[..0] == "" && "9"[..0] == "";
  }

  lemma MinuteOfDay(u: nat, day: nat)
    requires day * 1440 <= u < (day + 1) * 1440
    ensures u / 1440 == day && u == day * 1440 + u % 1440 / 60 * 60 + u % 60
  {
    HourOfDay(u);
    assert u == u / 60 * 60 + u % 60;
    assert u / 60 == day * 24 + u % 1440 / 60;
  }

  lemma SundayAfter(friday: nat, day: nat)
    requires (friday + 3) % 7 == 0 && friday <= day <= friday + 2
    ensures (day + 1) % 7 == 0 <==> day == friday + 2
  {
  }

  /** Within three days from a Friday, nine on Sunday comes once. */
  lemma OnlySundayAtNine(friday: nat, u: nat)
    requires (friday + 3) % 7 == 0 && friday * 1440 < u <= friday * 1440 + 3420
    ensures Includes(Times(At(0), At(9), Any, Any, At(0)), u) <==> u == friday * 1440 + 3420
  {
    var day := u / 1440;
    DateOfDayNumber(day);
    MinuteOfDay(u, day);
    SundayAfter(friday, day);
  }

  /** A schedule for nine on Sundays, asked on Friday 2024-01-05, next runs on Sunday 2024-01-07. */
  lemma SundayRunsOnSunday()
    ensures IsDate(Date(2024, 1, 7)) && IsDate(Date(2024, 1, 5))
    ensures NextRun(SUNDAY_AT_NINE, DayNumber(Date(2024, 1, 5)) * 1440 * 60_000_000)
         == Ok(DayNumber(Date(2024, 1, 7)) * 1440 + 9 * 60)
  {
    KnownSunday();
    SundayAtNineIsMeant();
    var friday := DayNumber(Date(2024, 1, 5));
    NextRunAsMeant(SUNDAY_AT_NINE, Times(At(0), At(9), Any, Any, At(0)), friday * 1440 * 60_000_000);
    OnlySundayAtNine(friday, friday * 1440 + 3420);
    var r := NextRun(SUNDAY_AT_NINE, friday * 1440 * 60_000_000);
    if r.Ok? && r.value < friday * 1440 + 3420 {
      OnlySundayAtNine(friday, r.value);
    }
  }
}
