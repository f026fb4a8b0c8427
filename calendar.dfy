/** Civil-calendar arithmetic in the proleptic Gregorian calendar, with the
    semantics of Python's `datetime.date` (day numbers as in `toordinal`,
    `date + timedelta(days=n)`) and of dateutil's `relativedelta(months=n)`
    (shift the month, clamp the day to the length of the target month). */
module Calendar {

  datatype CivilDate = CivilDate(year: int, month: int, day: int)

  predicate IsLeapYear(y: int) {
    y % 4 == 0 && (y % 100 != 0 || y % 400 == 0)
  }

  function YearLength(y: int): int {
    if IsLeapYear(y) then 366 else 365
  }

  function DaysInMonth(y: int, m: int): (n: int)
    requires 1 <= m <= 12
    ensures 28 <= n <= 31
    ensures n == 29 <==> m == 2 && IsLeapYear(y)
  {
    if m == 2 then (if IsLeapYear(y) then 29 else 28)
    else if m == 4 || m == 6 || m == 9 || m == 11 then 30
    else 31
  }

  predicate ValidDate(d: CivilDate) {
    1 <= d.month <= 12 && 1 <= d.day <= DaysInMonth(d.year, d.month)
  }

  /** A calendar date that exists. */
  type Date = d: CivilDate | ValidDate(d) witness CivilDate(1970, 1, 1)

  /** Days in the months of year `y` before month `m`. */
  function DaysBeforeMonth(y: int, m: int): int
    requires 1 <= m <= 12
  {
    var leap := if m > 2 && IsLeapYear(y) then 1 else 0;
    leap +
    (if m == 1 then 0 else if m == 2 then 31 else if m == 3 then 59
     else if m == 4 then 90 else if m == 5 then 120 else if m == 6 then 151
     else if m == 7 then 181 else if m == 8 then 212 else if m == 9 then 243
     else if m == 10 then 273 else if m == 11 then 304 else 334)
  }

  /** Days in the years before year `y`, counting from year 1. */
  function DaysBeforeYear(y: int): int {
    var p := y - 1;
    p * 365 + p / 4 - p / 100 + p / 400
  }

  /** The day number of a date: 0001-01-01 is day 1, as Python's `toordinal`. */
  function Ordinal(d: Date): int {
    DaysBeforeYear(d.year) + DaysBeforeMonth(d.year, d.month) + d.day
  }

  /** Calendar order as Python compares dates: by (year, month, day). */
  predicate Precedes(a: Date, b: Date) {
    a.year < b.year || (a.year == b.year && (a.month < b.month || (a.month == b.month && a.day < b.day)))
  }

  /** Number of days from `a` to `b`, Python's `(b - a).days`. */
  function DaysBetween(a: Date, b: Date): int {
    Ordinal(b) - Ordinal(a)
  }

  function NextDay(d: Date): (r: Date)
    ensures Ordinal(r) == Ordinal(d) + 1
  {
    YearStep(d.year);
    if d.day < DaysInMonth(d.year, d.month) then CivilDate(d.year, d.month, d.day + 1)
    else if d.month < 12 then CivilDate(d.year, d.month + 1, 1)
    else CivilDate(d.year + 1, 1, 1)
  }

  function PrevDay(d: Date): (r: Date)
    ensures Ordinal(r) == Ordinal(d) - 1
  {
    YearStep(d.year - 1);
    if d.day > 1 then CivilDate(d.year, d.month, d.day - 1)
    else if d.month > 1 then CivilDate(d.year, d.month - 1, DaysInMonth(d.year, d.month - 1))
    else CivilDate(d.year - 1, 12, 31)
  }

  /** `d + timedelta(days=n)`. */
  function AddDays(d: Date, n: int): (r: Date)
    ensures Ordinal(r) == Ordinal(d) + n
    decreases if n < 0 then -n else n
  {
    if n == 0 then d
    else if n > 0 then AddDays(NextDay(d), n - 1)
    else AddDays(PrevDay(d), n + 1)
  }

  /** Months counted from January of year 0, so that consecutive calendar
      months have consecutive indices. */
  function MonthIndex(d: Date): int {
    d.year * 12 + d.month - 1
  }

  /** The first day of the month with the given month index. */
  function FirstOfMonthIndex(k: int): (r: Date)
    ensures MonthIndex(r) == k && r.day == 1
  {
    CivilDate(k / 12, k % 12 + 1, 1)
  }

  /** `d + relativedelta(months=n)`: shift by `n` calendar months, keeping
      the day of month unless the target month is shorter. */
  function AddMonths(d: Date, n: int): (r: Date)
    ensures MonthIndex(r) == MonthIndex(d) + n
    ensures r.day == if d.day <= DaysInMonth(r.year, r.month) then d.day else DaysInMonth(r.year, r.month)
  {
    var k := MonthIndex(d) + n;
    var y, m := k / 12, k % 12 + 1;
    var last := DaysInMonth(y, m);
    CivilDate(y, m, if d.day <= last then d.day else last)
  }

  /** `d.replace(day=k)`. */
  function ReplaceDay(d: Date, k: int): (r: Date)
    requires 1 <= k <= DaysInMonth(d.year, d.month)
    ensures MonthIndex(r) == MonthIndex(d) && r.day == k
  {
    CivilDate(d.year, d.month, k)
  }

  // ---------------------------------------------------------------------
  // Lemmas about day numbers

  lemma YearStep(y: int)
    ensures DaysBeforeYear(y + 1) == DaysBeforeYear(y) + YearLength(y)
  {
    var p := y - 1;
    DivSteps(p);
    LeapDivisors(y);
    assert YearLength(y) == 365 + (if y % 4 == 0 then 1 else 0) - (if y % 100 == 0 then 1 else 0)
                                + (if y % 400 == 0 then 1 else 0);
  }

  /** A multiple of 400 is a multiple of 100, and a multiple of 100 one of 4. */
  lemma LeapDivisors(y: int)
    ensures y % 400 == 0 ==> y % 100 == 0
    ensures y % 100 == 0 ==> y % 4 == 0
  {
    if y % 400 == 0 {
      Century(y);
    }
    if y % 100 == 0 {
      Quadrennium(y);
    }
  }

  lemma Century(y: int)
    requires y % 400 == 0
    ensures y % 100 == 0
  {
    assert y == 100 * (4 * (y / 400));
  }

  lemma Quadrennium(y: int)
    requires y % 100 == 0
    ensures y % 4 == 0
  {
    assert y == 4 * (25 * (y / 100));
  }

  lemma DivSteps(p: int)
    ensures (p + 1) / 4 == p / 4 + (if (p + 1) % 4 == 0 then 1 else 0)
    ensures (p + 1) / 100 == p / 100 + (if (p + 1) % 100 == 0 then 1 else 0)
    ensures (p + 1) / 400 == p / 400 + (if (p + 1) % 400 == 0 then 1 else 0)
  {
  }

  lemma {:induction false} DaysBeforeYearMonotone(a: int, b: int)
    requires a <= b
    ensures DaysBeforeYear(a) + (b - a) * 365 <= DaysBeforeYear(b)
    decreases b - a
  {
    if a < b {
      YearStep(a);
      DaysBeforeYearMonotone(a + 1, b);
    }
  }

  lemma DayOfYearBounds(d: Date)
    ensures 1 <= DaysBeforeMonth(d.year, d.month) + d.day <= YearLength(d.year)
  {
  }

  lemma MonthOrder(y: int, m1: int, d1: int, m2: int, d2: int)
    requires 1 <= m1 < m2 <= 12
    requires 1 <= d1 <= DaysInMonth(y, m1) && 1 <= d2
    ensures DaysBeforeMonth(y, m1) + d1 < DaysBeforeMonth(y, m2) + d2
  {
  }

  /** Day numbers order dates exactly as calendar order does. */
  lemma OrdinalOrder(a: Date, b: Date)
    ensures Precedes(a, b) <==> Ordinal(a) < Ordinal(b)
  {
    DayOfYearBounds(a);
    DayOfYearBounds(b);
    if a.year < b.year {
      YearStep(a.year);
      DaysBeforeYearMonotone(a.year + 1, b.year);
    } else if b.year < a.year {
      YearStep(b.year);
      DaysBeforeYearMonotone(b.year + 1, a.year);
    } else if a.month < b.month {
      MonthOrder(a.year, a.month, a.day, b.month, b.day);
    } else if b.month < a.month {
      MonthOrder(a.year, b.month, b.day, a.month, a.day);
    }
  }

  /** Distinct dates have distinct day numbers. */
  lemma OrdinalInjective(a: Date, b: Date)
    requires Ordinal(a) == Ordinal(b)
    ensures a == b
  {
    OrdinalOrder(a, b);
    OrdinalOrder(b, a);
  }

  /** A date in an earlier month comes earlier. */
  lemma MonthIndexOrder(a: Date, b: Date)
    requires MonthIndex(a) < MonthIndex(b)
    ensures Ordinal(a) < Ordinal(b)
  {
    OrdinalOrder(a, b);
  }

  /** The day before the first of a month is the last day of the month before. */
  lemma DayBeforeFirstOfMonth(d: Date)
    requires d.day == 1
    ensures MonthIndex(PrevDay(d)) == MonthIndex(d) - 1
    ensures PrevDay(d).day == DaysInMonth(PrevDay(d).year, PrevDay(d).month)
  {
  }

  /** Dates with the same month index lie in the same calendar month. */
  lemma SameMonth(a: Date, b: Date)
    requires MonthIndex(a) == MonthIndex(b)
    ensures a.year == b.year && a.month == b.month
  {
  }

  /** Every date of a month, or of a later month, is on or after the first
      day of that month. */
  lemma OnOrAfterFirstOfMonth(first: Date, d: Date)
    requires first.day == 1 && MonthIndex(first) <= MonthIndex(d)
    ensures Ordinal(first) <= Ordinal(d)
  {
    if MonthIndex(first) < MonthIndex(d) {
      MonthIndexOrder(first, d);
    } else {
      SameMonth(first, d);
    }
  }
}
