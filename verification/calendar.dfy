/** The proleptic Gregorian calendar rule that Python's `datetime` applies when
    `strptime` turns the fields of a date string into a date: a month from 1 to
    12, a day from 1 to the length of that month, and a year from `MinYear` to
    `MaxYear`.

    As an independent check of the rule, the module numbers the days of a year
    (`DayOfYear`, the `tm_yday` that `strptime` computes) and proves that the
    valid dates of a year are in one-to-one correspondence with 1..365 (1..366
    in a leap year). */
module Calendar {

  /** Python's `datetime.MINYEAR` and `datetime.MAXYEAR`. */
  const MinYear: int := 1
  const MaxYear: int := 9999

  /** A day-month-year triple, not necessarily a real date. */
  datatype Date = Date(day: int, month: int, year: int)

  /** Gregorian leap years: divisible by 4, except centuries not divisible by 400. */
  predicate IsLeap(year: int) {
    year % 4 == 0 && (year % 100 != 0 || year % 400 == 0)
  }

  function DaysInYear(year: int): (n: int)
    ensures n == 365 || n == 366
  {
    if IsLeap(year) then 366 else 365
  }

  /** Length of `month` in `year`: 31, 30, or 28/29 for February. */
  function DaysInMonth(month: int, year: int): (n: int)
    requires 1 <= month <= 12
    ensures 28 <= n <= 31
    ensures n == 31 <==> month in {1, 3, 5, 7, 8, 10, 12}
    ensures n == 30 <==> month in {4, 6, 9, 11}
    ensures n == 29 <==> month == 2 && IsLeap(year)
    ensures n == 28 <==> month == 2 && !IsLeap(year)
  {
    if month == 2 then (if IsLeap(year) then 29 else 28)
    else if month == 4 || month == 6 || month == 9 || month == 11 then 30
    else 31
  }

  /** The triple names a day that exists: what `datetime(year, month, day)` accepts. */
  predicate ValidDate(d: Date) {
    && MinYear <= d.year <= MaxYear
    && 1 <= d.month <= 12
    && 1 <= d.day <= DaysInMonth(d.month, d.year)
  }

  /** 29 February exists exactly in the leap years; 1900 is not one, 2000 is. */
  lemma LeapDay(year: int)
    ensures ValidDate(Date(29, 2, year)) <==> MinYear <= year <= MaxYear && IsLeap(year)
    ensures !IsLeap(1900) && IsLeap(2000) && IsLeap(2024) && !IsLeap(2023)
  {
  }

  /** Days of `year` before the first day of `month`; month 13 stands for the
      end of the year. */
  function DaysBeforeMonth(month: int, year: int): (n: nat)
    requires 1 <= month <= 13
    decreases month
  {
    if month == 1 then 0
    else DaysBeforeMonth(month - 1, year) + DaysInMonth(month - 1, year)
  }

  /** The months partition the year: their lengths add up to the year's length. */
  lemma MonthsFillYear(year: int)
    ensures DaysBeforeMonth(13, year) == DaysInYear(year)
  {
    assert DaysBeforeMonth(3, year) == 31 + DaysInMonth(2, year);
    assert DaysBeforeMonth(7, year) == DaysBeforeMonth(3, year) + 122;
    assert DaysBeforeMonth(10, year) == DaysBeforeMonth(7, year) + 92;
    assert DaysBeforeMonth(13, year) == DaysBeforeMonth(10, year) + 92;
  }

  /** Later months do not start earlier in the year. */
  lemma {:induction false} DaysBeforeMonthGrows(m1: int, m2: int, year: int)
    requires 1 <= m1 <= m2 <= 13
    ensures DaysBeforeMonth(m1, year) <= DaysBeforeMonth(m2, year)
    decreases m2 - m1
  {
    if m1 < m2 {
      DaysBeforeMonthGrows(m1, m2 - 1, year);
    }
  }

  /** Position of a valid date within its year, counting 1 January as day 1. */
  function DayOfYear(d: Date): (n: int)
    requires ValidDate(d)
    ensures 1 <= n <= DaysInYear(d.year)
  {
    DaysBeforeMonthGrows(d.month + 1, 13, d.year);
    MonthsFillYear(d.year);
    DaysBeforeMonth(d.month, d.year) + d.day
  }

  /** The month holding day `n` of `year`, searching downward from `month`. */
  function MonthOfDay(n: int, year: int, month: int): (m: int)
    requires 1 <= month <= 12
    requires 1 <= n <= DaysBeforeMonth(month + 1, year)
    ensures 1 <= m <= month
    ensures DaysBeforeMonth(m, year) < n <= DaysBeforeMonth(m + 1, year)
    decreases month
  {
    if DaysBeforeMonth(month, year) < n then month
    else MonthOfDay(n, year, month - 1)
  }

  /** The date that is day `n` of `year`. */
  function DateOfDay(n: int, year: int): (d: Date)
    requires MinYear <= year <= MaxYear
    requires 1 <= n <= DaysInYear(year)
    ensures ValidDate(d)
    ensures d.year == year
  {
    MonthsFillYear(year);
    var m := MonthOfDay(n, year, 12);
    Date(n - DaysBeforeMonth(m, year), m, year)
  }

  /** Only one month's range of days contains a given day number. */
  lemma {:induction false} MonthRangeUnique(n: int, year: int, m1: int, m2: int)
    requires 1 <= m1 <= 12 && 1 <= m2 <= 12
    requires DaysBeforeMonth(m1, year) < n <= DaysBeforeMonth(m1 + 1, year)
    requires DaysBeforeMonth(m2, year) < n <= DaysBeforeMonth(m2 + 1, year)
    ensures m1 == m2
  {
    if m1 < m2 {
      DaysBeforeMonthGrows(m1 + 1, m2, year);
    } else if m2 < m1 {
      DaysBeforeMonthGrows(m2 + 1, m1, year);
    }
  }

  /** Numbering a valid date and turning the number back gives the same date. */
  lemma {:induction false} DateOfDayOfYear(d: Date)
    requires ValidDate(d)
    ensures DateOfDay(DayOfYear(d), d.year) == d
  {
    var n := DayOfYear(d);
    MonthsFillYear(d.year);
    var m := MonthOfDay(n, d.year, 12);
    MonthRangeUnique(n, d.year, m, d.month);
  }

  /** Every day number of a year is the number of exactly the date `DateOfDay` gives. */
  lemma {:induction false} DayOfYearOfDate(n: int, year: int)
    requires MinYear <= year <= MaxYear
    requires 1 <= n <= DaysInYear(year)
    ensures DayOfYear(DateOfDay(n, year)) == n
  {
  }

  /** Two valid dates of the same year with the same day number are the same date. */
  lemma DayOfYearInjective(d1: Date, d2: Date)
    requires ValidDate(d1) && ValidDate(d2) && d1.year == d2.year
    requires DayOfYear(d1) == DayOfYear(d2)
    ensures d1 == d2
  {
    DateOfDayOfYear(d1);
    DateOfDayOfYear(d2);
  }
}
