/** Naive calendar dates on the proleptic Gregorian calendar, with the
    semantics of Python's `datetime`: years 1..9999, `replace(day=…)` that
    rejects a day the month does not have, and day arithmetic
    (`+ timedelta(days=n)`, `- timedelta(days=n)`) that raises when it leaves
    the year range. On top of that, the current-month window of the revenue
    versus expense report: first day by `replace(day=1)`, last day by
    "day 28, plus 4 days, minus the day-of-month of the result". */
module Calendar {
  import opened Wrappers

  /** Python's `datetime.MINYEAR` and `datetime.MAXYEAR`. */
  const MinYear := 1
  const MaxYear := 9999

  /** A calendar date without time of day. */
  datatype Date = Date(year: int, month: int, day: int)

  /** The exceptions Python's `datetime` raises in the operations modelled. */
  datatype DateError =
    | ValueError     // `replace` with a day the month does not have
    | OverflowError  // day arithmetic leaving the years 1..9999

  /** Gregorian leap rule: divisible by 4, except centuries not divisible by 400. */
  predicate IsLeapYear(y: int) {
    y % 4 == 0 && (y % 100 != 0 || y % 400 == 0)
  }

  function DaysInMonth(y: int, m: int): (n: int)
    requires 1 <= m <= 12
    ensures 28 <= n <= 31
  {
    if m == 2 then (if IsLeapYear(y) then 29 else 28)
    else if m == 4 || m == 6 || m == 9 || m == 11 then 30
    else 31
  }

  /** A date Python's `datetime` can represent. */
  predicate Valid(d: Date) {
    && MinYear <= d.year <= MaxYear
    && 1 <= d.month <= 12
    && 1 <= d.day <= DaysInMonth(d.year, d.month)
  }

  /** Chronological order, which on valid dates is lexicographic on (year, month, day). */
  predicate Le(a: Date, b: Date) {
    || a.year < b.year
    || (a.year == b.year && a.month < b.month)
    || (a.year == b.year && a.month == b.month && a.day <= b.day)
  }

  predicate Lt(a: Date, b: Date) {
    Le(a, b) && a != b
  }

  /** First day of the month that follows month `m` of year `y`. */
  function FirstOfNextMonth(y: int, m: int): Date
    requires 1 <= m <= 12
  {
    if m == 12 then Date(y + 1, 1, 1) else Date(y, m + 1, 1)
  }

  /** Last day of the month that precedes month `m` of year `y`. */
  function LastOfPrevMonth(y: int, m: int): Date
    requires 1 <= m <= 12
  {
    if m == 1 then Date(y - 1, 12, 31) else Date(y, m - 1, DaysInMonth(y, m - 1))
  }

  /** The first and the last date `datetime` can represent. */
  const FirstDate := Date(MinYear, 1, 1)
  const LastDate := Date(MaxYear, 12, 31)

  /** Days of the months of year `y` before month `m` (`m == 13` gives the
      length of the year): the common-year table plus the leap day once
      February is past. */
  function DaysBeforeMonth(y: int, m: int): (n: int)
    requires 1 <= m <= 13
    ensures 0 <= n
  {
    var common :=
      if m == 1 then 0 else if m == 2 then 31 else if m == 3 then 59
      else if m == 4 then 90 else if m == 5 then 120 else if m == 6 then 151
      else if m == 7 then 181 else if m == 8 then 212 else if m == 9 then 243
      else if m == 10 then 273 else if m == 11 then 304 else if m == 12 then 334
      else 365;
    common + (if m > 2 && IsLeapYear(y) then 1 else 0)
  }

  /** Days of the years from 1 up to, not including, year `y`: 365 a year plus
      one leap day per fourth year, less the centuries, plus every fourth century. */
  function DaysBeforeYear(y: int): (n: int)
    requires MinYear <= y
    ensures 0 <= n
  {
    var z := y - 1;
    z * 365 + z / 4 - z / 100 + z / 400
  }

  /** Python's `date.toordinal()`: the day number of `d`, 0001-01-01 being
      day 1. The day arithmetic below is specified against it. */
  function ToOrdinal(d: Date): (n: int)
    requires Valid(d)
    ensures 1 <= n
  {
    DaysBeforeYear(d.year) + DaysBeforeMonth(d.year, d.month) + d.day
  }

  /** `d + timedelta(days=1)`. */
  function NextDay(d: Date): (r: Result<Date, DateError>)
    requires Valid(d)
    ensures r.Err? <==> d == LastDate
    ensures r.Err? ==> r.error == OverflowError
    ensures r.Ok? ==> Valid(r.value) && Lt(d, r.value) && ToOrdinal(r.value) == ToOrdinal(d) + 1
  {
    if d.day < DaysInMonth(d.year, d.month) then Ok(Date(d.year, d.month, d.day + 1))
    else if d.month < 12 then
      MonthStep(d.year, d.month);
      Ok(FirstOfNextMonth(d.year, d.month))
    else if d.year < MaxYear then
      MonthStep(d.year, 12);
      YearStep(d.year);
      Ok(FirstOfNextMonth(d.year, d.month))
    else Err(OverflowError)
  }

  /** `d - timedelta(days=1)`. */
  function PrevDay(d: Date): (r: Result<Date, DateError>)
    requires Valid(d)
    ensures r.Err? <==> d == FirstDate
    ensures r.Err? ==> r.error == OverflowError
    ensures r.Ok? ==> Valid(r.value) && Lt(r.value, d) && ToOrdinal(r.value) == ToOrdinal(d) - 1
  {
    if d.day > 1 then Ok(Date(d.year, d.month, d.day - 1))
    else if d.month > 1 then
      MonthStep(d.year, d.month - 1);
      Ok(LastOfPrevMonth(d.year, d.month))
    else if d.year > MinYear then
      MonthStep(d.year - 1, 12);
      YearStep(d.year - 1);
      Ok(LastOfPrevMonth(d.year, d.month))
    else Err(OverflowError)
  }

  /** `d + timedelta(days=n)`: the date `n` days later, or `OverflowError`
      exactly when that day would come after 9999-12-31. */
  function AddDays(d: Date, n: nat): (r: Result<Date, DateError>)
    requires Valid(d)
    ensures r.Ok? ==> Valid(r.value) && Le(d, r.value) && ToOrdinal(r.value) == ToOrdinal(d) + n
    ensures r.Err? <==> ToOrdinal(d) + n > ToOrdinal(LastDate)
    ensures r.Err? ==> r.error == OverflowError
    decreases n
  {
    if n == 0 then
      OrdinalAtMostLast(d);
      Ok(d)
    else
      match NextDay(d)
      case Err(e) => Err(e)
      case Ok(next) => AddDays(next, n - 1)
  }

  /** `d - timedelta(days=n)`: the date `n` days earlier, or `OverflowError`
      exactly when that day would come before 0001-01-01. */
  function SubDays(d: Date, n: nat): (r: Result<Date, DateError>)
    requires Valid(d)
    ensures r.Ok? ==> Valid(r.value) && Le(r.value, d) && ToOrdinal(r.value) == ToOrdinal(d) - n
    ensures r.Err? <==> ToOrdinal(d) - n < ToOrdinal(FirstDate)
    ensures r.Err? ==> r.error == OverflowError
    decreases n
  {
    if n == 0 then Ok(d)
    else
      match PrevDay(d)
      case Err(e) => Err(e)
      case Ok(prev) => SubDays(prev, n - 1)
  }

  /** `d.replace(day=day)`. */
  function ReplaceDay(d: Date, day: int): (r: Result<Date, DateError>)
    requires Valid(d)
    ensures r.Ok? <==> 1 <= day <= DaysInMonth(d.year, d.month)
    ensures r.Ok? ==> Valid(r.value) && r.value == Date(d.year, d.month, day)
    ensures r.Err? ==> r.error == ValueError
  {
    if 1 <= day <= DaysInMonth(d.year, d.month) then Ok(Date(d.year, d.month, day))
    else Err(ValueError)
  }

  // ---------------------------------------------------------------------
  // Day numbers
  // ---------------------------------------------------------------------

  /** A month's days all come before the next month's first day. */
  lemma {:induction false} DaysBeforeMonthGrows(y: int, m1: int, m2: int)
    requires 1 <= m1 < m2 <= 13
    ensures DaysBeforeMonth(y, m1) + DaysInMonth(y, m1) <= DaysBeforeMonth(y, m2)
    decreases m2
  {
    if m1 + 1 < m2 {
      DaysBeforeMonthGrows(y, m1, m2 - 1);
      MonthStep(y, m2 - 1);
    } else {
      MonthStep(y, m1);
    }
  }

  /** Consecutive months: the next month starts right after this one's last day. */
  lemma MonthStep(y: int, m: int)
    requires 1 <= m <= 12
    ensures DaysBeforeMonth(y, m + 1) == DaysBeforeMonth(y, m) + DaysInMonth(y, m)
  {
  }

  /** Consecutive years: the next year starts right after this one's last day. */
  lemma YearStep(y: int)
    requires MinYear <= y
    ensures DaysBeforeYear(y + 1) == DaysBeforeYear(y) + DaysBeforeMonth(y, 13)
  {
    QuotientStep4(y);
    QuotientStep100(y);
    QuotientStep400(y);
    LeapDay(y);
    assert DaysBeforeMonth(y, 13) == 365 + (if IsLeapYear(y) then 1 else 0);
  }

  /** The three quotient steps add up to the leap day of the Gregorian rule. */
  lemma LeapDay(y: int)
    ensures (if y % 4 == 0 then 1 else 0) - (if y % 100 == 0 then 1 else 0) + (if y % 400 == 0 then 1 else 0)
      == (if IsLeapYear(y) then 1 else 0)
  {
    if y % 400 == 0 {
      assert y == 100 * (4 * (y / 400));
      assert y == 4 * (100 * (y / 400));
    } else if y % 100 == 0 {
      assert y == 4 * (25 * (y / 100));
    }
  }

  /** Each quotient grows by one exactly at a multiple of the divisor. */
  lemma QuotientStep4(y: int)
    ensures y / 4 == (y - 1) / 4 + (if y % 4 == 0 then 1 else 0)
  {
  }

  lemma QuotientStep100(y: int)
    ensures y / 100 == (y - 1) / 100 + (if y % 100 == 0 then 1 else 0)
  {
  }

  lemma QuotientStep400(y: int)
    ensures y / 400 == (y - 1) / 400 + (if y % 400 == 0 then 1 else 0)
  {
  }

  /** A year's days all come before the next year's first day. */
  lemma {:induction false} DaysBeforeYearGrows(y1: int, y2: int)
    requires MinYear <= y1 < y2
    ensures DaysBeforeYear(y1) + DaysBeforeMonth(y1, 13) <= DaysBeforeYear(y2)
    decreases y2
  {
    YearStep(y2 - 1);
    if y1 + 1 < y2 {
      DaysBeforeYearGrows(y1, y2 - 1);
    }
  }

  /** The day number is strictly increasing in chronological order. */
  lemma OrdinalIncreasing(a: Date, b: Date)
    requires Valid(a) && Valid(b) && Lt(a, b)
    ensures ToOrdinal(a) < ToOrdinal(b)
  {
    if a.year < b.year {
      DaysBeforeMonthGrows(a.year, a.month, 13);
      DaysBeforeYearGrows(a.year, b.year);
    } else if a.month < b.month {
      DaysBeforeMonthGrows(a.year, a.month, b.month);
    }
  }

  /** Valid dates are ordered as their day numbers, and equal exactly when
      their day numbers are: the day number identifies the date. */
  lemma OrdinalOrder(a: Date, b: Date)
    requires Valid(a) && Valid(b)
    ensures Lt(a, b) <==> ToOrdinal(a) < ToOrdinal(b)
    ensures a == b <==> ToOrdinal(a) == ToOrdinal(b)
  {
    if Lt(a, b) {
      OrdinalIncreasing(a, b);
    } else if a != b {
      OrdinalIncreasing(b, a);
    }
  }

  /** 9999-12-31 has the largest day number. */
  lemma OrdinalAtMostLast(d: Date)
    requires Valid(d)
    ensures ToOrdinal(d) <= ToOrdinal(LastDate)
  {
    if d != LastDate {
      OrdinalIncreasing(d, LastDate);
    }
  }

  /** A closed date interval, the two bound parameters of `BETWEEN ? AND ?`. */
  datatype Window = Window(first: Date, last: Date)

  /** SQL `d BETWEEN w.first AND w.last`: inclusive at both ends. */
  predicate InWindow(d: Date, w: Window) {
    Le(w.first, d) && Le(d, w.last)
  }

  /** The current-month window, computed the way the report computes it.
      Only the calendar date of "today" is modelled: the time of day that
      `datetime.today()` carries, and the text comparison SQLite applies to
      the bound parameters, are not part of this model. */
  function MonthWindow(today: Date): (r: Result<Window, DateError>)
    requires Valid(today)
    ensures r.Err? <==> today.year == MaxYear && today.month == 12
    ensures r.Err? ==> r.error == OverflowError
    ensures r.Ok? ==>
      r.value == Window(Date(today.year, today.month, 1),
                        Date(today.year, today.month, DaysInMonth(today.year, today.month)))
  {
    // Day 1 and day 28 exist in every month, and stepping back from the
    // following month never passes 0001-01-01: only the 4-day step can raise.
    var first := ReplaceDay(today, 1).value;
    var day28 := ReplaceDay(today, 28).value;
    MonthEndSteps(day28);
    match AddDays(day28, 4)
    case Err(e) => Err(e)
    case Ok(nextMonth) =>
      var last := SubDays(nextMonth, nextMonth.day).value;
      Ok(Window(first, last))
  }

  /** From day 28 of a month, 4 days later lies in the following month, and
      going back by that date's day-of-month gives the last day of the month;
      the first step raises exactly in December 9999. */
  lemma MonthEndSteps(day28: Date)
    requires Valid(day28) && day28.day == 28
    ensures AddDays(day28, 4).Err? <==> day28.year == MaxYear && day28.month == 12
    ensures AddDays(day28, 4).Ok? ==>
      var nextMonth := AddDays(day28, 4).value;
      SubDays(nextMonth, nextMonth.day) == Ok(Date(day28.year, day28.month, DaysInMonth(day28.year, day28.month)))
  {
    AddDaysPastMonthEnd(day28, 4);
    if !(day28.year == MaxYear && day28.month == 12) {
      var next := FirstOfNextMonth(day28.year, day28.month);
      var nextMonth := Date(next.year, next.month, 32 - DaysInMonth(day28.year, day28.month));
      assert AddDays(day28, 4) == Ok(nextMonth);
      SubDaysToPrevMonthEnd(nextMonth);
      BackFromNextMonth(day28.year, day28.month);
    }
  }

  /** The month before the next month is the month itself. */
  lemma BackFromNextMonth(y: int, m: int)
    requires 1 <= m <= 12
    ensures var next := FirstOfNextMonth(y, m);
      LastOfPrevMonth(next.year, next.month) == Date(y, m, DaysInMonth(y, m))
  {
  }

  // ---------------------------------------------------------------------
  // Day arithmetic
  // ---------------------------------------------------------------------

  /** Stepping forward then back is the identity. */
  lemma PrevOfNext(d: Date)
    requires Valid(d) && NextDay(d).Ok?
    ensures PrevDay(NextDay(d).value) == Ok(d)
  {
    var back := PrevDay(NextDay(d).value);
    OrdinalOrder(back.value, d);
  }

  /** Stepping back then forward is the identity. */
  lemma NextOfPrev(d: Date)
    requires Valid(d) && PrevDay(d).Ok?
    ensures NextDay(PrevDay(d).value) == Ok(d)
  {
    OrdinalAtMostLast(d);
    var there := NextDay(PrevDay(d).value);
    OrdinalOrder(there.value, d);
  }

  /** The next day is the earliest valid date after `d`: nothing valid lies
      strictly between the two, and only the very last date has no next day. */
  lemma NextDayIsImmediate(d: Date, e: Date)
    requires Valid(d) && Valid(e) && Lt(d, e)
    ensures NextDay(d).Ok? && Le(NextDay(d).value, e)
  {
  }

  /** Adding days that stay inside the month only moves the day-of-month. */
  lemma AddDaysInMonth(d: Date, n: nat)
    requires Valid(d) && d.day + n <= DaysInMonth(d.year, d.month)
    ensures AddDays(d, n) == Ok(Date(d.year, d.month, d.day + n))
  {
    var target := Date(d.year, d.month, d.day + n);
    OrdinalAtMostLast(target);
    OrdinalOrder(AddDays(d, n).value, target);
  }

  /** Adding days that cross the end of the month (by at most 28 days) lands in
      the following month, unless that month lies past the year 9999. */
  lemma AddDaysPastMonthEnd(d: Date, n: nat)
    requires Valid(d)
    requires DaysInMonth(d.year, d.month) < d.day + n <= DaysInMonth(d.year, d.month) + 28
    ensures d.year == MaxYear && d.month == 12 ==> AddDays(d, n) == Err(OverflowError)
    ensures !(d.year == MaxYear && d.month == 12) ==>
      var next := FirstOfNextMonth(d.year, d.month);
      AddDays(d, n) == Ok(Date(next.year, next.month, d.day + n - DaysInMonth(d.year, d.month)))
  {
    if !(d.year == MaxYear && d.month == 12) {
      var next := FirstOfNextMonth(d.year, d.month);
      var target := Date(next.year, next.month, d.day + n - DaysInMonth(d.year, d.month));
      NextMonthOrdinal(d, n);
      OrdinalAtMostLast(target);
      OrdinalOrder(AddDays(d, n).value, target);
    }
  }

  /** Day `k` of the next month is `DaysInMonth - d.day + k` days after `d`. */
  lemma NextMonthOrdinal(d: Date, n: nat)
    requires Valid(d) && !(d.year == MaxYear && d.month == 12)
    requires DaysInMonth(d.year, d.month) < d.day + n <= DaysInMonth(d.year, d.month) + 28
    ensures var next := FirstOfNextMonth(d.year, d.month);
      && Valid(Date(next.year, next.month, d.day + n - DaysInMonth(d.year, d.month)))
      && ToOrdinal(Date(next.year, next.month, d.day + n - DaysInMonth(d.year, d.month))) == ToOrdinal(d) + n
  {
    MonthStep(d.year, d.month);
    if d.month == 12 {
      YearStep(d.year);
    }
  }

  /** Subtracting a date's own day-of-month lands on the last day of the
      previous month. */
  lemma SubDaysToPrevMonthEnd(d: Date)
    requires Valid(d) && !(d.year == MinYear && d.month == 1)
    ensures SubDays(d, d.day) == Ok(LastOfPrevMonth(d.year, d.month))
  {
    var target := LastOfPrevMonth(d.year, d.month);
    PrevMonthEndOrdinal(d);
    var back := SubDays(d, d.day);
    OrdinalOrder(back.value, target);
  }

  /** The last day of the previous month is `d.day` days before `d`. */
  lemma PrevMonthEndOrdinal(d: Date)
    requires Valid(d) && !(d.year == MinYear && d.month == 1)
    ensures Valid(LastOfPrevMonth(d.year, d.month))
    ensures ToOrdinal(LastOfPrevMonth(d.year, d.month)) == ToOrdinal(d) - d.day
  {
    if d.month > 1 {
      MonthStep(d.year, d.month - 1);
    } else {
      MonthStep(d.year - 1, 12);
      YearStep(d.year - 1);
    }
  }

  /** Going `n` days forward and then `n` days back returns to `d`. */
  lemma AddThenSub(d: Date, n: nat)
    requires Valid(d)
    ensures AddDays(d, n).Ok? ==> SubDays(AddDays(d, n).value, n) == Ok(d)
  {
    if AddDays(d, n).Ok? {
      var back := SubDays(AddDays(d, n).value, n);
      OrdinalOrder(back.value, d);
    }
  }

  /** Going `n` days back and then `n` days forward returns to `d`. */
  lemma SubThenAdd(d: Date, n: nat)
    requires Valid(d)
    ensures SubDays(d, n).Ok? ==> AddDays(SubDays(d, n).value, n) == Ok(d)
  {
    if SubDays(d, n).Ok? {
      OrdinalAtMostLast(d);
      var there := AddDays(SubDays(d, n).value, n);
      OrdinalOrder(there.value, d);
    }
  }

  // ---------------------------------------------------------------------
  // The month window
  // ---------------------------------------------------------------------

  /** A valid date lies in today's window exactly when it has today's year and
      month; in particular `first <= today <= last`. */
  lemma InMonthWindowIffSameMonth(today: Date, d: Date)
    requires Valid(today) && Valid(d) && !(today.year == MaxYear && today.month == 12)
    ensures InWindow(d, MonthWindow(today).value) <==>
      d.year == today.year && d.month == today.month
    ensures InWindow(today, MonthWindow(today).value)
  {
  }
}
