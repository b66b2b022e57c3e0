/**
 Dates: moving them by whole months and counting the days between them
 (scripts/seed_demo_data.py; `add_months` in backend/engineering/formulas.py is the
 same arithmetic).
 */
module Calendar {

  datatype Date = Date(year: int, month: int, day: int)

  predicate IsLeap(year: int)
  {
    year % 4 == 0 && (year % 100 != 0 || year % 400 == 0)
  }

  /** `calendar.monthrange(year, month)[1]`. */
  function DaysIn(year: int, month: int): (days: int)
    requires 1 <= month <= 12
    ensures 28 <= days <= 31
  {
    if month == 2 then (if IsLeap(year) then 29 else 28)
    else if month in {4, 6, 9, 11} then 30
    else 31
  }

  predicate Valid(d: Date)
  {
    1 <= d.month <= 12 && 1 <= d.day <= DaysIn(d.year, d.month)
  }

  /** Calendar order. */
  predicate Before(a: Date, b: Date)
  {
    || a.year < b.year
    || (a.year == b.year && a.month < b.month)
    || (a.year == b.year && a.month == b.month && a.day < b.day)
  }

  predicate NotAfter(a: Date, b: Date)
  {
    a == b || Before(a, b)
  }

  function Min(x: int, y: int): int
  {
    if x <= y then x else y
  }

  /** `_add_months`: the same day of the month, or the last one that month has. */
  function AddMonths(d: Date, months: int): (r: Date)
    requires Valid(d)
    ensures Valid(r)
  {
    var index := d.month - 1 + months;
    var year, month := d.year + index / 12, index % 12 + 1;
    Date(year, month, Min(d.day, DaysIn(year, month)))
  }

  // --- the number of a month -----------------------------------------------

  /** Months counted from year 0. */
  function MonthNumber(d: Date): int
  {
    12 * d.year + d.month - 1
  }

  lemma ByMonthNumber(a: Date, b: Date)
    requires Valid(a) && Valid(b)
    ensures Before(a, b) <==> MonthNumber(a) < MonthNumber(b) || (MonthNumber(a) == MonthNumber(b) && a.day < b.day)
    ensures MonthNumber(a) == MonthNumber(b) <==> a.year == b.year && a.month == b.month
  {
  }

  /** Adding months moves the month by exactly that many. */
  lemma MonthMovesExactly(d: Date, months: int)
    requires Valid(d)
    ensures MonthNumber(AddMonths(d, months)) == MonthNumber(d) + months
    ensures var r := AddMonths(d, months); r.day == Min(d.day, DaysIn(r.year, r.month))
  {
    var index := d.month - 1 + months;
    assert index == 12 * (index / 12) + index % 12;
  }

  /** No months is no change. */
  lemma NoMonthsNoChange(d: Date)
    requires Valid(d)
    ensures AddMonths(d, 0) == d
  {
    MonthMovesExactly(d, 0);
    ByMonthNumber(AddMonths(d, 0), d);
  }

  /** A later date is never due earlier. */
  lemma MonotoneInDate(a: Date, b: Date, months: int)
    requires Valid(a) && Valid(b) && NotAfter(a, b)
    ensures NotAfter(AddMonths(a, months), AddMonths(b, months))
  {
    MonthMovesExactly(a, months);
    MonthMovesExactly(b, months);
    ByMonthNumber(a, b);
    ByMonthNumber(AddMonths(a, months), AddMonths(b, months));
  }

  /** Dates come out in the order of the months added, and equal only for equal months. */
  lemma StrictInMonths(d: Date, m: int, n: int)
    requires Valid(d)
    ensures Before(AddMonths(d, m), AddMonths(d, n)) <==> m < n
    ensures AddMonths(d, m) == AddMonths(d, n) <==> m == n
  {
    MonthMovesExactly(d, m);
    MonthMovesExactly(d, n);
    ByMonthNumber(AddMonths(d, m), AddMonths(d, n));
  }

  /** Two steps can only lose days to a short month on the way, never gain them. */
  lemma SplitIsNeverLater(d: Date, m: int, n: int)
    requires Valid(d)
    ensures NotAfter(AddMonths(AddMonths(d, m), n), AddMonths(d, m + n))
    ensures MonthNumber(AddMonths(AddMonths(d, m), n)) == MonthNumber(AddMonths(d, m + n))
  {
    var once, twice := AddMonths(d, m + n), AddMonths(AddMonths(d, m), n);
    MonthMovesExactly(d, m);
    MonthMovesExactly(AddMonths(d, m), n);
    MonthMovesExactly(d, m + n);
    ByMonthNumber(twice, once);
  }

  /** It comes to the same exactly when the month on the way is long enough for the day that is left. */
  lemma SplitIsEqualIff(d: Date, m: int, n: int)
    requires Valid(d)
    ensures AddMonths(AddMonths(d, m), n) == AddMonths(d, m + n) <==> AddMonths(d, m + n).day <= AddMonths(d, m).day
  {
    var once, twice := AddMonths(d, m + n), AddMonths(AddMonths(d, m), n);
    MonthMovesExactly(d, m);
    MonthMovesExactly(AddMonths(d, m), n);
    MonthMovesExactly(d, m + n);
    ByMonthNumber(twice, once);
  }

  /** There and back gives the date again exactly when the month between was long enough. */
  lemma ThereAndBackIff(d: Date, months: int)
    requires Valid(d)
    ensures AddMonths(AddMonths(d, months), -months) == d <==> AddMonths(d, months).day == d.day
  {
    NoMonthsNoChange(d);
    SplitIsEqualIff(d, months, -months);
  }

  // --- counting days -------------------------------------------------------

  /** Days before 1 January of a year, counted from year 1. */
  function DaysBeforeYear(year: int): int
  {
    365 * (year - 1) + (year - 1) / 4 - (year - 1) / 100 + (year - 1) / 400
  }

  function DaysBeforeMonth(year: int, month: int): int
    requires 1 <= month <= 13
    decreases month
  {
    if month == 1 then 0 else DaysBeforeMonth(year, month - 1) + DaysIn(year, month - 1)
  }

  /** `date.toordinal`; the days between two dates are the difference. */
  function DayNumber(d: Date): int
    requires Valid(d)
  {
    DaysBeforeYear(d.year) + DaysBeforeMonth(d.year, d.month) + d.day
  }

  lemma YearLength(year: int)
    ensures DaysBeforeYear(year + 1) == DaysBeforeYear(year) + (if IsLeap(year) then 366 else 365)
    ensures DaysBeforeMonth(year, 13) == if IsLeap(year) then 366 else 365
  {
    var q := year - 1;
    assert year / 4 == q / 4 + (if year % 4 == 0 then 1 else 0);
    assert year / 100 == q / 100 + (if year % 100 == 0 then 1 else 0);
    assert year / 400 == q / 400 + (if year % 400 == 0 then 1 else 0);
    MonthsOf(year);
  }

  lemma MonthsOf(year: int)
    ensures DaysBeforeMonth(year, 13) == if IsLeap(year) then 366 else 365
  {
    assert DaysBeforeMonth(year, 4) == 59 + 31 + if IsLeap(year) then 1 else 0;
    assert DaysBeforeMonth(year, 7) == DaysBeforeMonth(year, 4) + 91;
    assert DaysBeforeMonth(year, 10) == DaysBeforeMonth(year, 7) + 92;
    assert DaysBeforeMonth(year, 13) == DaysBeforeMonth(year, 10) + 92;
  }

  lemma {:induction false} MonthsApart(year: int, m: int, n: int)
    requires 1 <= m < n <= 13
    ensures DaysBeforeMonth(year, m) + DaysIn(year, m) <= DaysBeforeMonth(year, n)
    decreases n
  {
    if m < n - 1 {
      MonthsApart(year, m, n - 1);
    }
  }

  lemma {:induction false} YearsApart(y: int, z: int)
    requires y < z
    ensures DaysBeforeYear(y + 1) <= DaysBeforeYear(z)
    decreases z - y
  {
    if y + 1 < z {
      YearsApart(y, z - 1);
      YearLength(z - 1);
    }
  }

  /** Within its year a date comes before the year's end. */
  lemma WithinYear(d: Date)
    requires Valid(d)
    ensures DaysBeforeYear(d.year) < DayNumber(d) <= DaysBeforeYear(d.year + 1)
  {
    YearLength(d.year);
    MonthsApart(d.year, d.month, 13);
    if d.month > 1 {
      MonthsApart(d.year, 1, d.month);
    }
  }

  lemma EarlierCountsLess(a: Date, b: Date)
    requires Valid(a) && Valid(b) && Before(a, b)
    ensures DayNumber(a) < DayNumber(b)
  {
    if a.year < b.year {
      WithinYear(a);
      WithinYear(b);
      YearsApart(a.year, b.year);
    } else if a.month < b.month {
      MonthsApart(a.year, a.month, b.month);
    }
  }

  /** Counting days agrees with the calendar, leap years and all. */
  lemma DayNumbersFollowTheCalendar(a: Date, b: Date)
    requires Valid(a) && Valid(b)
    ensures DayNumber(a) < DayNumber(b) <==> Before(a, b)
    ensures DayNumber(a) == DayNumber(b) <==> a == b
  {
    if Before(a, b) {
      EarlierCountsLess(a, b);
    } else if Before(b, a) {
      EarlierCountsLess(b, a);
    }
  }

  /** The day after, by the calendar alone. */
  function Tomorrow(d: Date): Date
  {
    if Valid(d.(day := d.day + 1)) then d.(day := d.day + 1)
    else if d.month < 12 then Date(d.year, d.month + 1, 1)
    else Date(d.year + 1, 1, 1)
  }

  /** Days are counted one by one, through months, years and leap days, from 1 January of year 1; and 1 January 1970 is number 719163. */
  lemma DaysAreCountedOneByOne(d: Date)
    requires Valid(d)
    ensures Valid(Tomorrow(d)) && DayNumber(Tomorrow(d)) == DayNumber(d) + 1
    ensures DayNumber(Date(1, 1, 1)) == 1 && DayNumber(Date(1970, 1, 1)) == 719163
  {
    YearLength(d.year);
    assert DaysBeforeMonth(d.year, 13) == DaysBeforeMonth(d.year, 12) + DaysIn(d.year, 12);
  }

  /** January to December, and February by the year. */
  lemma MonthLengths(year: int)
    ensures seq(12, i requires 0 <= i < 12 => DaysIn(year, i + 1)) ==
            [31, if year % 400 == 0 || (year % 4 == 0 && year % 100 != 0) then 29 else 28, 31, 30, 31, 30, 31, 31, 30, 31, 30, 31]
  {
  }
}
