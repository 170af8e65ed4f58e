/**
 The proleptic Gregorian calendar, as Python's `date` counts it: ordinals, days added one at a
 time, and the month arithmetic that backend/app/scheduling/calculator.py and
 backend/app/reports/periods.py both define.
 */
module Calendar {

  datatype Date = Date(year: int, month: int, day: int)

  predicate IsLeap(year: int)
  {
    year % 4 == 0 && (year % 100 != 0 || year % 400 == 0)
  }

  function DaysInMonth(year: int, month: int): (days: int)
    requires 1 <= month <= 12
    ensures 28 <= days <= 31
  {
    if month == 2 then (if IsLeap(year) then 29 else 28)
    else if month == 4 || month == 6 || month == 9 || month == 11 then 30
    else 31
  }

  predicate ValidDate(d: Date)
  {
    1 <= d.month <= 12 && 1 <= d.day <= DaysInMonth(d.year, d.month)
  }

  type CalendarDate = d: Date | ValidDate(d) witness Date(1, 1, 1)

  // ---- ordinals ----

  function DaysInYear(year: int): int
  {
    if IsLeap(year) then 366 else 365
  }

  /** Days from 1 January of year 1 to 1 January of the given year; negative before year 1. */
  function DaysBeforeYear(year: int): (days: int)
    decreases if year >= 1 then year else 2 - year
  {
    if year == 1 then 0
    else if year > 1 then DaysBeforeYear(year - 1) + DaysInYear(year - 1)
    else DaysBeforeYear(year + 1) - DaysInYear(year)
  }

  function DaysBeforeMonth(year: int, month: int): int
    requires 1 <= month <= 12
  {
    [0, 31, 59, 90, 120, 151, 181, 212, 243, 273, 304, 334][month - 1] + if month > 2 && IsLeap(year) then 1 else 0
  }

  /** The number of the day, counting 1 January of year 1 as day 1. */
  function Ordinal(d: CalendarDate): int
  {
    DaysBeforeYear(d.year) + DaysBeforeMonth(d.year, d.month) + d.day
  }

  function NextDay(d: CalendarDate): CalendarDate
  {
    if d.day < DaysInMonth(d.year, d.month) then Date(d.year, d.month, d.day + 1)
    else if d.month < 12 then Date(d.year, d.month + 1, 1)
    else Date(d.year + 1, 1, 1)
  }

  function PreviousDay(d: CalendarDate): CalendarDate
  {
    if d.day > 1 then Date(d.year, d.month, d.day - 1)
    else if d.month > 1 then Date(d.year, d.month - 1, DaysInMonth(d.year, d.month - 1))
    else Date(d.year - 1, 12, 31)
  }

  /** Counting years one by one agrees with the formula Python uses. */
  lemma {:induction false} DaysBeforeYearFormula(year: int)
    ensures DaysBeforeYear(year) == 365 * (year - 1) + (year - 1) / 4 - (year - 1) / 100 + (year - 1) / 400
    decreases if year >= 1 then year else 2 - year
  {
    if year > 1 {
      DaysBeforeYearFormula(year - 1);
      LeapDayStep(year - 1);
    } else if year < 1 {
      DaysBeforeYearFormula(year + 1);
      LeapDayStep(year);
    }
  }

  lemma LeapDayStep(year: int)
    ensures (year / 4 - year / 100 + year / 400) - ((year - 1) / 4 - (year - 1) / 100 + (year - 1) / 400) == DaysInYear(year) - 365
  {
    var a, b, c := year / 4 - (year - 1) / 4, year / 100 - (year - 1) / 100, year / 400 - (year - 1) / 400;
    assert a == if year % 4 == 0 then 1 else 0;
    assert b == if year % 100 == 0 then 1 else 0;
    assert c == if year % 400 == 0 then 1 else 0;
    CenturyIsFourth(year);
  }

  lemma CenturyIsFourth(year: int)
    ensures year % 100 == 0 ==> year % 4 == 0
    ensures year % 400 == 0 ==> year % 100 == 0
  {
    if year % 100 == 0 {
      assert year == 4 * (25 * (year / 100));
    }
    if year % 400 == 0 {
      assert year == 100 * (4 * (year / 400));
    }
  }

  /** Ordinals count days: the next day's is one more, the previous day's one less. */
  lemma OrdinalCountsDays(d: CalendarDate)
    ensures Ordinal(NextDay(d)) == Ordinal(d) + 1
    ensures Ordinal(PreviousDay(d)) == Ordinal(d) - 1
  {
    assert DaysBeforeYear(d.year + 1) == DaysBeforeYear(d.year) + DaysInYear(d.year);
    assert DaysBeforeYear(d.year) == DaysBeforeYear(d.year - 1) + DaysInYear(d.year - 1);
  }

  predicate Earlier(d: Date, e: Date)
  {
    d.year < e.year || (d.year == e.year && (d.month < e.month || (d.month == e.month && d.day < e.day)))
  }

  lemma {:induction false} YearsApart(year: int, later: int)
    requires year < later
    ensures DaysBeforeYear(later) >= DaysBeforeYear(year) + DaysInYear(year)
    decreases later - year
  {
    assert DaysBeforeYear(year + 1) == DaysBeforeYear(year) + DaysInYear(year);
    if year + 1 < later {
      YearsApart(year + 1, later);
    }
  }

  /** The order of ordinals is the order of dates, so a date is determined by its ordinal. */
  lemma OrdinalOrder(d: CalendarDate, e: CalendarDate)
    ensures Earlier(d, e) <==> Ordinal(d) < Ordinal(e)
    ensures d == e <==> Ordinal(d) == Ordinal(e)
  {
    if Earlier(d, e) {
      OrdinalIncreases(d, e);
    } else if Earlier(e, d) {
      OrdinalIncreases(e, d);
    }
  }

  lemma OrdinalIncreases(d: CalendarDate, e: CalendarDate)
    requires Earlier(d, e)
    ensures Ordinal(d) < Ordinal(e)
  {
    if d.year < e.year {
      YearsApart(d.year, e.year);
    }
  }

  /** `d + timedelta(days=n)`. */
  function AddDays(d: CalendarDate, n: int): (e: CalendarDate)
    ensures Ordinal(e) == Ordinal(d) + n
    decreases if n < 0 then -n else n
  {
    OrdinalCountsDays(d);
    if n == 0 then d else if n > 0 then AddDays(NextDay(d), n - 1) else AddDays(PreviousDay(d), n + 1)
  }

  /** The date with a given ordinal. */
  function FromOrdinal(n: int): (d: CalendarDate)
    ensures Ordinal(d) == n
  {
    AddDays(Date(1, 1, 1), n - 1)
  }

  /** Going to the ordinal and back gives the same date. */
  lemma OrdinalRoundTrip(d: CalendarDate)
    ensures FromOrdinal(Ordinal(d)) == d
  {
    OrdinalOrder(FromOrdinal(Ordinal(d)), d);
  }

  /** Monday is 0. */
  function Weekday(d: CalendarDate): (w: int)
    ensures 0 <= w <= 6
  {
    (Ordinal(d) + 6) % 7
  }

  // ---- months ----

  /** The number of a date's month, counting every month of every year. */
  function MonthIndex(d: Date): int
  {
    12 * d.year + d.month - 1
  }

  function FirstOfMonth(index: int): (d: CalendarDate)
    ensures d.day == 1 && MonthIndex(d) == index
  {
    Date(index / 12, index % 12 + 1, 1)
  }

  /** The first of the month `months` away from the anchor's month. */
  function AddMonths(anchor: CalendarDate, months: int): (d: CalendarDate)
  {
    var zeroBased := anchor.month - 1 + months;
    Date(anchor.year + zeroBased / 12, zeroBased % 12 + 1, 1)
  }

  lemma AddMonthsIsIndexed(anchor: CalendarDate, months: int)
    ensures AddMonths(anchor, months) == FirstOfMonth(MonthIndex(anchor) + months)
  {
  }

  lemma MonthIndexRoundTrip(d: CalendarDate)
    requires d.day == 1
    ensures FirstOfMonth(MonthIndex(d)) == d
  {
  }

  /** Month steps compose additively, whatever their signs, and undo each other. */
  lemma AddMonthsComposes(anchor: CalendarDate, m: int, n: int)
    ensures AddMonths(AddMonths(anchor, m), n) == AddMonths(anchor, m + n)
    ensures anchor.day == 1 ==> AddMonths(AddMonths(anchor, m), -m) == anchor
  {
    AddMonthsIsIndexed(anchor, m);
    AddMonthsIsIndexed(AddMonths(anchor, m), n);
    AddMonthsIsIndexed(AddMonths(anchor, m), -m);
    AddMonthsIsIndexed(anchor, m + n);
  }

  /** A date comes before the first of a month exactly when its own month does. */
  lemma BeforeMonthIff(d: CalendarDate, index: int)
    ensures Ordinal(d) < Ordinal(FirstOfMonth(index)) <==> MonthIndex(d) < index
  {
    OrdinalOrder(d, FirstOfMonth(index));
  }

  /** A month has between 28 and 31 days. */
  lemma MonthLength(index: int)
    ensures Ordinal(FirstOfMonth(index)) + 28 <= Ordinal(FirstOfMonth(index + 1)) <= Ordinal(FirstOfMonth(index)) + 31
  {
    var d, e := FirstOfMonth(index), FirstOfMonth(index + 1);
    NextMonth(index);
    assert DaysBeforeYear(d.year + 1) == DaysBeforeYear(d.year) + DaysInYear(d.year);
  }

  lemma NextMonth(index: int)
    ensures var d := FirstOfMonth(index);
      FirstOfMonth(index + 1) == if d.month < 12 then Date(d.year, d.month + 1, 1) else Date(d.year + 1, 1, 1)
  {
  }
}
