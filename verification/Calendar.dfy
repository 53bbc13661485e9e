/** The proleptic Gregorian calendar that `datetime` follows, counted in days from 0001-01-01. */
module Calendar {
  datatype Date = Date(year: nat, month: nat, day: nat)

  predicate IsLeap(year: nat)
  {
    year % 4 == 0 && (year % 100 != 0 || year % 400 == 0)
  }

  function DaysIn(year: nat, month: nat): nat
  {
    if month == 2 then (if IsLeap(year) then 29 else 28)
    else if month == 4 || month == 6 || month == 9 || month == 11 then 30
    else 31
  }

  predicate IsDate(d: Date)
  {
    1 <= d.year && 1 <= d.month <= 12 && 1 <= d.day <= DaysIn(d.year, d.month)
  }

  function NextDay(d: Date): Date
  {
    if d.day < DaysIn(d.year, d.month) then d.(day := d.day + 1)
    else if d.month < 12 then Date(d.year, d.month + 1, 1)
    else Date(d.year + 1, 1, 1)
  }

  /** The date `n` days after 0001-01-01. */
  function DateOf(n: nat): Date
  {
    if n == 0 then Date(1, 1, 1) else NextDay(DateOf(n - 1))
  }

  function DaysBeforeMonth(year: nat, month: nat): nat
  {
    if month <= 1 then 0 else DaysBeforeMonth(year, month - 1) + DaysIn(year, month - 1)
  }

  function YearLength(year: nat): nat
  {
    if IsLeap(year) then 366 else 365
  }

  function DaysBeforeYear(year: nat): nat
  {
    if year <= 1 then 0 else DaysBeforeYear(year - 1) + YearLength(year - 1)
  }

  /** How many days `d` comes after 0001-01-01. */
  function DayNumber(d: Date): nat
    requires IsDate(d)
  {
    DaysBeforeYear(d.year) + DaysBeforeMonth(d.year, d.month) + d.day - 1
  }

  /** A leap day moves everything after February by one day. */
  function LeapShift(year: nat, month: nat): nat
  {
    if month > 2 && IsLeap(year) then 1 else 0
  }

  /** Where the months of a common year begin. */
  function CommonStart(month: nat): nat
    requires 1 <= month <= 12
  {
    [0, 31, 59, 90, 120, 151, 181, 212, 243, 273, 304, 334][month - 1]
  }

  lemma {:induction false} MonthStarts(year: nat, month: nat)
    requires 1 <= month <= 12
    ensures DaysBeforeMonth(year, month) == CommonStart(month) + LeapShift(year, month)
  {
    if month > 1 {
      MonthStarts(year, month - 1);
    }
  }

  /** A date falls within its year. */
  lemma WithinYear(d: Date)
    requires IsDate(d)
    ensures DaysBeforeMonth(d.year, d.month) + d.day <= YearLength(d.year)
    ensures d.month == 12 && d.day == 31 ==> DaysBeforeMonth(d.year, d.month) + d.day == YearLength(d.year)
  {
    MonthStarts(d.year, d.month);
  }

  lemma NextDayIsOneLater(d: Date)
    requires IsDate(d)
    ensures IsDate(NextDay(d)) && DayNumber(NextDay(d)) == DayNumber(d) + 1
  {
    WithinYear(d);
    if d.day == DaysIn(d.year, d.month) {
      if d.month < 12 {
        assert DaysBeforeMonth(d.year, d.month + 1) == DaysBeforeMonth(d.year, d.month) + d.day;
      } else {
        assert DaysBeforeYear(d.year + 1) == DaysBeforeYear(d.year) + YearLength(d.year);
      }
    }
  }

  lemma {:induction false} DateOfDayNumber(n: nat)
    ensures IsDate(DateOf(n)) && DayNumber(DateOf(n)) == n
  {
    if n > 0 {
      DateOfDayNumber(n - 1);
      NextDayIsOneLater(DateOf(n - 1));
    }
  }

  lemma {:induction false} YearsAscend(y: nat, z: nat)
    requires 1 <= y < z
    ensures DaysBeforeYear(y) + YearLength(y) <= DaysBeforeYear(z)
  {
    if y + 1 < z {
      YearsAscend(y, z - 1);
    }
  }

  predicate Earlier(d: Date, e: Date)
  {
    d.year < e.year || (d.year == e.year && (d.month < e.month || (d.month == e.month && d.day < e.day)))
  }

  lemma EarlierDatesComeFirst(d: Date, e: Date)
    requires IsDate(d) && IsDate(e) && Earlier(d, e)
    ensures DayNumber(d) < DayNumber(e)
  {
    if d.year < e.year {
      WithinYear(d);
      YearsAscend(d.year, e.year);
    } else if d.month < e.month {
      MonthStarts(d.year, d.month);
      MonthStarts(d.year, e.month);
    }
  }

  /** Counting days and reading the calendar are inverse. */
  lemma DayNumberDateOf(d: Date)
    requires IsDate(d)
    ensures DateOf(DayNumber(d)) == d
  {
    var e := DateOf(DayNumber(d));
    DateOfDayNumber(DayNumber(d));
    if Earlier(d, e) {
      EarlierDatesComeFirst(d, e);
    } else if Earlier(e, d) {
      EarlierDatesComeFirst(e, d);
    }
  }

  // ---- Anniversaries ----

  /** Whether 29 February lies between the anniversaries of a date in `year` and in the year after. */
  predicate LeapDayFollows(year: nat, month: nat)
  {
    IsLeap(if month <= 2 then year else year + 1)
  }

  /** A day that every year has: any but 29 February. */
  predicate InEveryYear(month: nat, day: nat)
  {
    1 <= month <= 12 && 1 <= day <= DaysIn(1, month)
  }

  /** From one anniversary to the next are 365 days, 366 across a leap day. */
  lemma Anniversary(year: nat, month: nat, day: nat)
    requires 1 <= year && InEveryYear(month, day)
    ensures DayNumber(Date(year + 1, month, day)) - DayNumber(Date(year, month, day))
         == if LeapDayFollows(year, month) then 366 else 365
  {
    MonthStarts(year, month);
    MonthStarts(year + 1, month);
  }

  lemma {:induction false} AnniversariesAscend(a: nat, b: nat, month: nat, day: nat)
    requires 1 <= a < b && InEveryYear(month, day)
    ensures DayNumber(Date(a, month, day)) + 365 <= DayNumber(Date(b, month, day))
  {
    Anniversary(b - 1, month, day);
    if a < b - 1 {
      AnniversariesAscend(a, b - 1, month, day);
    }
  }

  // ---- 29 February ----

  lemma LeapDayNumber(year: nat)
    requires 1 <= year && IsLeap(year)
    ensures DayNumber(Date(year, 2, 29)) == DaysBeforeYear(year) + 59
  {
    MonthStarts(year, 2);
  }

  lemma MarchFirstNumber(year: nat)
    requires 1 <= year && !IsLeap(year)
    ensures DayNumber(Date(year, 3, 1)) == DaysBeforeYear(year) + 59
  {
    MonthStarts(year, 3);
  }

  /** 29 February comes 365 days after 1 March of the year before, which is a common year. */
  lemma LeapDayAfterMarch(year: nat)
    requires 1 <= year && IsLeap(year + 1)
    ensures !IsLeap(year) && DayNumber(Date(year + 1, 2, 29)) == DayNumber(Date(year, 3, 1)) + 365
  {
    LeapDayNumber(year + 1);
    MarchFirstNumber(year);
    assert DaysBeforeYear(year + 1) == DaysBeforeYear(year) + YearLength(year);
  }
}
