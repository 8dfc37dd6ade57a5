/** The proleptic Gregorian calendar: leap years, month lengths, day ordinals
    counted from 0001-01-01, and adding whole days to a date. */
module CivilDate {

  /** A calendar date as year, month (1-12) and day of the month. */
  datatype Date = Date(year: int, month: int, day: int)

  /** Smallest and largest year a Python `datetime` can hold. */
  const MinYear: int := 1
  const MaxYear: int := 9999

  /** Ordinal of 9999-12-31, the last day a Python `datetime` can hold. */
  const MaxOrdinal: int := 3652059

  /** 0001-01-01, the day with ordinal 1. */
  const Epoch: Date := Date(1, 1, 1)

  predicate IsLeap(y: int) {
    y % 4 == 0 && (y % 100 != 0 || y % 400 == 0)
  }

  function YearLength(y: int): int {
    if IsLeap(y) then 366 else 365
  }

  function DaysInMonth(y: int, m: int): (n: int)
    requires 1 <= m <= 12
    ensures 28 <= n <= 31
    ensures n == 29 <==> m == 2 && IsLeap(y)
  {
    if m == 2 then (if IsLeap(y) then 29 else 28)
    else if m == 4 || m == 6 || m == 9 || m == 11 then 30
    else 31
  }

  /** A date that exists on the calendar, in year 1 or later (no upper bound). */
  predicate IsCalendarDate(d: Date) {
    d.year >= MinYear && 1 <= d.month <= 12 && 1 <= d.day <= DaysInMonth(d.year, d.month)
  }

  /** A calendar date within the years a Python `datetime` can hold. */
  predicate InRange(d: Date) {
    IsCalendarDate(d) && d.year <= MaxYear
  }

  /** Lexicographic order on (year, month, day): `a` is strictly earlier than `b`. */
  predicate Before(a: Date, b: Date) {
    a.year < b.year
    || (a.year == b.year && (a.month < b.month || (a.month == b.month && a.day < b.day)))
  }

  /** Number of days in the years 1 .. y-1. */
  function DaysBeforeYear(y: int): int
    requires y >= MinYear
  {
    var k := y - 1;
    365 * k + k / 4 - k / 100 + k / 400
  }

  /** Number of days in the months 1 .. m-1 of year y. */
  function DaysBeforeMonth(y: int, m: int): int
    requires 1 <= m <= 12
  {
    (match m
     case 1 => 0 case 2 => 31 case 3 => 59 case 4 => 90 case 5 => 120 case 6 => 151
     case 7 => 181 case 8 => 212 case 9 => 243 case 10 => 273 case 11 => 304 case _ => 334)
    + (if m > 2 && IsLeap(y) then 1 else 0)
  }

  /** Day number of `d`, with 0001-01-01 as day 1. */
  function Ordinal(d: Date): int
    requires d.year >= MinYear && 1 <= d.month <= 12
  {
    DaysBeforeYear(d.year) + DaysBeforeMonth(d.year, d.month) + d.day
  }

  /** The calendar day after `d`. */
  function NextDay(d: Date): (e: Date)
    requires IsCalendarDate(d)
    ensures IsCalendarDate(e)
    ensures Before(d, e)
  {
    if d.day < DaysInMonth(d.year, d.month) then Date(d.year, d.month, d.day + 1)
    else if d.month < 12 then Date(d.year, d.month + 1, 1)
    else Date(d.year + 1, 1, 1)
  }

  /** `d` plus `n` days, stepping one calendar day at a time. */
  function AddDays(d: Date, n: nat): (e: Date)
    requires IsCalendarDate(d)
    ensures IsCalendarDate(e)
    ensures n > 0 ==> Before(d, e)
    decreases n
  {
    if n == 0 then d else AddDays(NextDay(d), n - 1)
  }

  /** The date whose ordinal is `n`. */
  function FromOrdinal(n: int): Date
    requires n >= 1
  {
    AddDays(Epoch, n - 1)
  }

  // ---------------------------------------------------------------------
  // Year and month arithmetic

  /** Moving from k to k + 1 raises `k / m` by one exactly when m divides k + 1,
      for the divisors of the leap-year rule. */
  lemma DivNext(k: int, m: int)
    requires k >= 0 && (m == 4 || m == 100 || m == 400)
    ensures (k + 1) / m == k / m + (if (k + 1) % m == 0 then 1 else 0)
  {
  }

  lemma DaysBeforeYearStep(y: int)
    requires y >= MinYear
    ensures DaysBeforeYear(y + 1) == DaysBeforeYear(y) + YearLength(y)
  {
    var k := y - 1;
    DivNext(k, 4);
    DivNext(k, 100);
    DivNext(k, 400);
    var a, b, c := (if y % 4 == 0 then 1 else 0), (if y % 100 == 0 then 1 else 0), (if y % 400 == 0 then 1 else 0);
    assert y / 4 == k / 4 + a && y / 100 == k / 100 + b && y / 400 == k / 400 + c;
    assert YearLength(y) == 365 + a - b + c;
  }

  lemma {:induction false} DaysBeforeYearGrows(a: int, b: int)
    requires MinYear <= a <= b
    ensures DaysBeforeYear(a) + 365 * (b - a) <= DaysBeforeYear(b)
    decreases b - a
  {
    if a < b {
      DaysBeforeYearGrows(a, b - 1);
      DaysBeforeYearStep(b - 1);
    }
  }

  lemma DaysBeforeMonthStep(y: int, m: int)
    requires 1 <= m < 12
    ensures DaysBeforeMonth(y, m + 1) == DaysBeforeMonth(y, m) + DaysInMonth(y, m)
  {
  }

  lemma {:induction false} DaysBeforeMonthGrows(y: int, a: int, b: int)
    requires 1 <= a < b <= 12
    ensures DaysBeforeMonth(y, a) + DaysInMonth(y, a) <= DaysBeforeMonth(y, b)
    decreases b - a
  {
    DaysBeforeMonthStep(y, a);
    if a + 1 < b {
      DaysBeforeMonthGrows(y, a + 1, b);
    }
  }

  /** The months of a year add up to the year's length. */
  lemma MonthsFillYear(y: int)
    ensures DaysBeforeMonth(y, 12) + DaysInMonth(y, 12) == YearLength(y)
  {
  }

  // ---------------------------------------------------------------------
  // Ordinals

  /** Every day of a year has an ordinal within that year. */
  lemma OrdinalWithinYear(d: Date)
    requires IsCalendarDate(d)
    ensures DaysBeforeYear(d.year) < Ordinal(d) <= DaysBeforeYear(d.year + 1)
  {
    DaysBeforeYearStep(d.year);
    if d.month < 12 {
      DaysBeforeMonthGrows(d.year, d.month, 12);
    }
  }

  /** Ordinals follow the calendar order. */
  lemma OrdinalMonotone(a: Date, b: Date)
    requires IsCalendarDate(a) && IsCalendarDate(b) && Before(a, b)
    ensures Ordinal(a) < Ordinal(b)
  {
    if a.year < b.year {
      OrdinalWithinYear(a);
      OrdinalWithinYear(b);
      DaysBeforeYearGrows(a.year + 1, b.year);
    } else if a.month < b.month {
      DaysBeforeMonthGrows(a.year, a.month, b.month);
    }
  }

  /** Two calendar dates with the same ordinal are the same date. */
  lemma OrdinalInjective(a: Date, b: Date)
    requires IsCalendarDate(a) && IsCalendarDate(b) && Ordinal(a) == Ordinal(b)
    ensures a == b
  {
    if Before(a, b) {
      OrdinalMonotone(a, b);
    } else if Before(b, a) {
      OrdinalMonotone(b, a);
    }
  }

  /** Calendar order and ordinal order agree in both directions. */
  lemma BeforeIffOrdinalLess(a: Date, b: Date)
    requires IsCalendarDate(a) && IsCalendarDate(b)
    ensures Before(a, b) <==> Ordinal(a) < Ordinal(b)
  {
    if Before(a, b) {
      OrdinalMonotone(a, b);
    } else if Before(b, a) {
      OrdinalMonotone(b, a);
    }
  }

  lemma NextDayOrdinal(d: Date)
    requires IsCalendarDate(d)
    ensures Ordinal(NextDay(d)) == Ordinal(d) + 1
  {
    if d.day == DaysInMonth(d.year, d.month) {
      if d.month < 12 {
        DaysBeforeMonthStep(d.year, d.month);
      } else {
        DaysBeforeYearStep(d.year);
        MonthsFillYear(d.year);
      }
    }
  }

  /** Adding `n` days moves the ordinal forward by exactly `n`. */
  lemma {:induction false} AddDaysOrdinal(d: Date, n: nat)
    requires IsCalendarDate(d)
    ensures Ordinal(AddDays(d, n)) == Ordinal(d) + n
    decreases n
  {
    if n > 0 {
      NextDayOrdinal(d);
      AddDaysOrdinal(NextDay(d), n - 1);
    }
  }

  /** `AddDays(d, n)` is the one calendar date whose ordinal is `Ordinal(d) + n`,
      which is how Python's `date + timedelta` is computed. */
  lemma AddDaysUnique(d: Date, n: nat, e: Date)
    requires IsCalendarDate(d) && IsCalendarDate(e)
    ensures Ordinal(e) == Ordinal(d) + n <==> e == AddDays(d, n)
  {
    AddDaysOrdinal(d, n);
    if Ordinal(e) == Ordinal(d) + n {
      OrdinalInjective(e, AddDays(d, n));
    }
  }

  /** Adding days in two steps is adding their sum. */
  lemma {:induction false} AddDaysCompose(d: Date, m: nat, n: nat)
    requires IsCalendarDate(d)
    ensures AddDays(AddDays(d, m), n) == AddDays(d, m + n)
    decreases m
  {
    if m > 0 {
      AddDaysCompose(NextDay(d), m - 1, n);
    }
  }

  /** Adding days that stay within the month only advances the day. */
  lemma {:induction false} AddDaysWithinMonth(d: Date, n: nat)
    requires IsCalendarDate(d) && d.day + n <= DaysInMonth(d.year, d.month)
    ensures AddDays(d, n) == Date(d.year, d.month, d.day + n)
    decreases n
  {
    if n > 0 {
      AddDaysWithinMonth(NextDay(d), n - 1);
    }
  }

  /** `FromOrdinal` undoes `Ordinal`. */
  lemma FromOrdinalOfOrdinal(d: Date)
    requires IsCalendarDate(d)
    ensures FromOrdinal(Ordinal(d)) == d
  {
    OrdinalWithinYear(d);
    DaysBeforeYearGrows(MinYear, d.year);
    AddDaysUnique(Epoch, Ordinal(d) - 1, d);
  }

  /** `Ordinal` undoes `FromOrdinal`. */
  lemma OrdinalOfFromOrdinal(n: int)
    requires n >= 1
    ensures Ordinal(FromOrdinal(n)) == n
  {
    AddDaysOrdinal(Epoch, n - 1);
  }

  /** `d + n` days is the date with ordinal `Ordinal(d) + n`. */
  lemma AddDaysViaOrdinal(d: Date, n: nat)
    requires IsCalendarDate(d)
    ensures AddDays(d, n) == FromOrdinal(Ordinal(d) + n)
  {
    AddDaysOrdinal(d, n);
    FromOrdinalOfOrdinal(AddDays(d, n));
  }

  /** A calendar date is within Python's year range exactly when its ordinal
      does not exceed that of 9999-12-31. */
  lemma InRangeIffOrdinal(d: Date)
    requires IsCalendarDate(d)
    ensures InRange(d) <==> Ordinal(d) <= MaxOrdinal
  {
    var last := Date(MaxYear, 12, 31);
    assert Ordinal(last) == MaxOrdinal;
    if d.year <= MaxYear {
      if d != last {
        OrdinalMonotone(d, last);
      }
    } else {
      DaysBeforeYearGrows(MaxYear + 1, d.year);
      assert DaysBeforeYear(MaxYear + 1) == MaxOrdinal;
    }
  }
}
