/** Proleptic Gregorian calendar arithmetic as Python's `datetime` performs it.

    `today - timedelta(days=k)` in the import scripts converts the date to its
    ordinal (0001-01-01 is day 1), subtracts, and converts back; a result before
    day 1 raises OverflowError. The ordinal is defined here by counting the days
    of the preceding years and months, and the conversion back by stepping
    through the calendar one day at a time; the lemmas show that the two agree,
    that the ordinal follows the calendar order, and that Python's closed-form
    tables give the same numbers. */
module Calendar {
  import opened Wrappers

  datatype Date = Date(year: int, month: int, day: int)

  /** The first representable date, ordinal 1. */
  const Epoch := Date(1, 1, 1)

  predicate IsLeapYear(y: int) {
    y % 4 == 0 && (y % 100 != 0 || y % 400 == 0)
  }

  function DaysInMonth(y: int, m: int): (n: int)
    requires 1 <= m <= 12
    ensures 28 <= n <= 31
    ensures n == 29 <==> m == 2 && IsLeapYear(y)
  {
    if m == 2 then (if IsLeapYear(y) then 29 else 28)
    else if m == 4 || m == 6 || m == 9 || m == 11 then 30
    else 31
  }

  /** A date Python can represent (the upper bound, year 9999, is irrelevant
      here because the scripts only ever subtract days). */
  predicate Valid(d: Date) {
    1 <= d.year && 1 <= d.month <= 12 && 1 <= d.day <= DaysInMonth(d.year, d.month)
  }

  /** Calendar order: by year, then month, then day. */
  predicate Before(a: Date, b: Date) {
    a.year < b.year
    || (a.year == b.year && (a.month < b.month || (a.month == b.month && a.day < b.day)))
  }

  function DaysBeforeMonth(y: int, m: int): nat
    requires 1 <= m <= 13
  {
    if m == 1 then 0 else DaysBeforeMonth(y, m - 1) + DaysInMonth(y, m - 1)
  }

  function DaysInYear(y: int): nat {
    DaysBeforeMonth(y, 13)
  }

  function DaysBeforeYear(y: int): nat
    requires 1 <= y
  {
    if y == 1 then 0 else DaysBeforeYear(y - 1) + DaysInYear(y - 1)
  }

  /** Python's `date.toordinal()`. */
  function Ordinal(d: Date): (n: int)
    requires Valid(d)
    ensures n >= 1
  {
    DaysBeforeYear(d.year) + DaysBeforeMonth(d.year, d.month) + d.day
  }

  /** The calendar successor of a date. */
  function NextDay(d: Date): (r: Date)
    requires Valid(d)
    ensures Valid(r) && Before(d, r)
  {
    if d.day < DaysInMonth(d.year, d.month) then Date(d.year, d.month, d.day + 1)
    else if d.month < 12 then Date(d.year, d.month + 1, 1)
    else Date(d.year + 1, 1, 1)
  }

  /** The calendar predecessor of a date: the last day of the previous month on
      the first of a month, 31 December of the previous year on 1 January. */
  function PrevDay(d: Date): (r: Date)
    requires Valid(d) && d != Epoch
    ensures Valid(r) && Before(r, d)
  {
    if d.day > 1 then Date(d.year, d.month, d.day - 1)
    else if d.month > 1 then Date(d.year, d.month - 1, DaysInMonth(d.year, d.month - 1))
    else Date(d.year - 1, 12, 31)
  }

  /** Python's `date.fromordinal(n)`, defined by stepping forward from day 1. */
  function FromOrdinal(n: int): (d: Date)
    requires n >= 1
    ensures Valid(d) && Ordinal(d) == n
  {
    if n == 1 then Epoch
    else
      var p := FromOrdinal(n - 1);
      OrdinalNextDay(p);
      NextDay(p)
  }

  datatype DateError = OverflowError

  /** `d - timedelta(days=k)`: the date k days earlier, or OverflowError when that
      would lie before 0001-01-01. */
  function SubtractDays(d: Date, k: nat): (r: Result<Date, DateError>)
    requires Valid(d)
    ensures r.Success? <==> k < Ordinal(d)
    ensures r.Success? ==> Valid(r.value) && Ordinal(r.value) + k == Ordinal(d)
  {
    var o := Ordinal(d) - k;
    if 0 < o then Success(FromOrdinal(o)) else Failure(OverflowError)
  }

  // ---------------------------------------------------------------------------
  // Lemmas about the ordinal

  lemma {:induction false} DaysBeforeMonthMonotone(y: int, m1: int, m2: int)
    requires 1 <= m1 <= m2 <= 13
    ensures DaysBeforeMonth(y, m1) <= DaysBeforeMonth(y, m2)
    decreases m2 - m1
  {
    if m1 < m2 {
      DaysBeforeMonthMonotone(y, m1, m2 - 1);
    }
  }

  lemma {:induction false} DaysBeforeYearMonotone(y1: int, y2: int)
    requires 1 <= y1 < y2
    ensures DaysBeforeYear(y1) + DaysInYear(y1) <= DaysBeforeYear(y2)
    decreases y2 - y1
  {
    if y1 + 1 < y2 {
      DaysBeforeYearMonotone(y1, y2 - 1);
    }
  }

  /** A date's ordinal lies inside its month's block of ordinals, which lies inside its year's. */
  lemma OrdinalWithinMonth(d: Date)
    requires Valid(d)
    ensures DaysBeforeYear(d.year) + DaysBeforeMonth(d.year, d.month) < Ordinal(d)
    ensures Ordinal(d) <= DaysBeforeYear(d.year) + DaysBeforeMonth(d.year, d.month + 1)
    ensures Ordinal(d) <= DaysBeforeYear(d.year) + DaysInYear(d.year)
  {
    DaysBeforeMonthMonotone(d.year, d.month + 1, 13);
  }

  /** The ordinal is strictly increasing in calendar order. */
  lemma OrdinalMonotone(a: Date, b: Date)
    requires Valid(a) && Valid(b) && Before(a, b)
    ensures Ordinal(a) < Ordinal(b)
  {
    OrdinalWithinMonth(a);
    OrdinalWithinMonth(b);
    if a.year < b.year {
      DaysBeforeYearMonotone(a.year, b.year);
    } else if a.month < b.month {
      DaysBeforeMonthMonotone(a.year, a.month + 1, b.month);
    }
  }

  /** Calendar order and ordinal order coincide. */
  lemma OrdinalOrder(a: Date, b: Date)
    requires Valid(a) && Valid(b)
    ensures Before(a, b) <==> Ordinal(a) < Ordinal(b)
    ensures a == b <==> Ordinal(a) == Ordinal(b)
  {
    if Before(a, b) {
      OrdinalMonotone(a, b);
    } else if Before(b, a) {
      OrdinalMonotone(b, a);
    }
  }

  lemma OrdinalNextDay(d: Date)
    requires Valid(d)
    ensures Ordinal(NextDay(d)) == Ordinal(d) + 1
  {
  }

  lemma OrdinalPrevDay(d: Date)
    requires Valid(d) && d != Epoch
    ensures Ordinal(PrevDay(d)) + 1 == Ordinal(d)
  {
    var p := PrevDay(d);
    if d.day > 1 {
    } else if d.month > 1 {
      assert DaysBeforeMonth(d.year, d.month) == DaysBeforeMonth(d.year, d.month - 1) + p.day;
    } else {
      assert DaysBeforeYear(d.year) == DaysBeforeYear(d.year - 1) + DaysInYear(d.year - 1);
      assert DaysInYear(d.year - 1) == DaysBeforeMonth(d.year - 1, 12) + 31;
    }
  }

  /** Python's round trip `date.fromordinal(d.toordinal()) == d`. */
  lemma FromOrdinalOrdinal(d: Date)
    requires Valid(d)
    ensures FromOrdinal(Ordinal(d)) == d
  {
    OrdinalOrder(FromOrdinal(Ordinal(d)), d);
  }

  /** Stepping one day forward and one day back returns to the start. */
  lemma PrevNextDay(d: Date)
    requires Valid(d)
    ensures NextDay(d) != Epoch && PrevDay(NextDay(d)) == d
  {
    OrdinalNextDay(d);
    OrdinalPrevDay(NextDay(d));
    OrdinalOrder(PrevDay(NextDay(d)), d);
  }

  /** Subtracting one day is the calendar predecessor, across month and year ends. */
  lemma SubtractOneDay(d: Date)
    requires Valid(d) && d != Epoch
    ensures SubtractDays(d, 1) == Success(PrevDay(d))
  {
    OrdinalPrevDay(d);
    FromOrdinalOrdinal(PrevDay(d));
  }

  /** Subtracting two days is two calendar steps back. */
  lemma SubtractTwoDays(d: Date)
    requires Valid(d) && d != Epoch && PrevDay(d) != Epoch
    ensures SubtractDays(d, 2) == Success(PrevDay(PrevDay(d)))
  {
    var q := PrevDay(PrevDay(d));
    OrdinalPrevDay(d);
    OrdinalPrevDay(PrevDay(d));
    assert Ordinal(q) == Ordinal(d) - 2;
    FromOrdinalOrdinal(q);
  }

  /** Subtracting nothing leaves the date unchanged. */
  lemma SubtractZeroDays(d: Date)
    requires Valid(d)
    ensures SubtractDays(d, 0) == Success(d)
  {
    FromOrdinalOrdinal(d);
  }

  // ---------------------------------------------------------------------------
  // Agreement with the closed forms Python's datetime module uses

  /** `_days_in_year`: 366 in leap years, 365 otherwise. */
  lemma DaysInYearValue(y: int)
    ensures DaysInYear(y) == if IsLeapYear(y) then 366 else 365
  {
    var feb := DaysInMonth(y, 2);
    assert DaysBeforeMonth(y, 2) == 31;
    assert DaysBeforeMonth(y, 3) == 31 + feb;
    assert DaysBeforeMonth(y, 4) == 62 + feb;
    assert DaysBeforeMonth(y, 5) == 92 + feb;
    assert DaysBeforeMonth(y, 6) == 123 + feb;
    assert DaysBeforeMonth(y, 7) == 153 + feb;
    assert DaysBeforeMonth(y, 8) == 184 + feb;
    assert DaysBeforeMonth(y, 9) == 215 + feb;
    assert DaysBeforeMonth(y, 10) == 245 + feb;
    assert DaysBeforeMonth(y, 11) == 276 + feb;
    assert DaysBeforeMonth(y, 12) == 306 + feb;
    assert DaysBeforeMonth(y, 13) == 337 + feb;
  }

  /** `_days_before_month`: the table 0, 31, 59, ..., 334 plus one after February in leap years. */
  lemma DaysBeforeMonthTable(y: int, m: int)
    requires 1 <= m <= 12
    ensures DaysBeforeMonth(y, m)
         == [0, 31, 59, 90, 120, 151, 181, 212, 243, 273, 304, 334][m - 1]
            + (if m > 2 && IsLeapYear(y) then 1 else 0)
  {
    var feb := DaysInMonth(y, 2);
    assert DaysBeforeMonth(y, 2) == 31;
    assert DaysBeforeMonth(y, 3) == 31 + feb;
    assert DaysBeforeMonth(y, 4) == 62 + feb;
    assert DaysBeforeMonth(y, 5) == 92 + feb;
    assert DaysBeforeMonth(y, 6) == 123 + feb;
    assert DaysBeforeMonth(y, 7) == 153 + feb;
    assert DaysBeforeMonth(y, 8) == 184 + feb;
    assert DaysBeforeMonth(y, 9) == 215 + feb;
    assert DaysBeforeMonth(y, 10) == 245 + feb;
    assert DaysBeforeMonth(y, 11) == 276 + feb;
    assert DaysBeforeMonth(y, 12) == 306 + feb;
  }

  /** `_days_before_year` counts n = y - 1 preceding years as n*365 + n//4 - n//100 + n//400. */
  function ClosedForm(n: int): int {
    n * 365 + n / 4 - n / 100 + n / 400
  }

  /** The leap-rule correction for one year: +1 at multiples of 4, -1 at
      multiples of 100, +1 at multiples of 400. */
  function Correction(n: int): int {
    (if n % 4 == 0 then 1 else 0) - (if n % 100 == 0 then 1 else 0) + (if n % 400 == 0 then 1 else 0)
  }

  /** Python's closed form gives the same ordinal offset for every year. */
  lemma {:induction false} DaysBeforeYearClosedForm(y: int)
    requires 1 <= y
    ensures DaysBeforeYear(y) == ClosedForm(y - 1)
  {
    if y > 1 {
      DaysBeforeYearClosedForm(y - 1);
      DaysBeforeYearStep(y);
      ClosedFormStep(y - 2);
    }
  }

  /** One more year adds 365 days plus its leap-rule correction. */
  lemma DaysBeforeYearStep(y: int)
    requires 1 < y
    ensures DaysBeforeYear(y) == DaysBeforeYear(y - 1) + 365 + Correction(y - 1)
  {
    DaysInYearValue(y - 1);
    LeapCorrection(y - 1);
  }

  /** The closed form grows by the same amount. */
  lemma ClosedFormStep(p: int)
    requires 0 <= p
    ensures ClosedForm(p + 1) == ClosedForm(p) + 365 + Correction(p + 1)
  {
    YearQuotientStep(p);
  }

  /** The leap rule as the correction y//4 - y//100 + y//400 counts it. */
  lemma LeapCorrection(n: int)
    ensures (if IsLeapYear(n) then 1 else 0) == Correction(n)
  {
    if n % 400 == 0 {
      MultipleOf400(n);
    }
    if n % 100 == 0 {
      MultipleOf100(n);
    }
  }

  lemma MultipleOf400(n: int)
    requires n % 400 == 0
    ensures n % 100 == 0
  {
    var q := n / 400;
    assert n == 400 * q;
    assert n == 100 * (4 * q);
  }

  lemma MultipleOf100(n: int)
    requires n % 100 == 0
    ensures n % 4 == 0
  {
    var q := n / 100;
    assert n == 100 * q;
    assert n == 4 * (25 * q);
  }

  /** Moving from p to p + 1 preceding years adds a leap-rule correction exactly at multiples of 4, 100 and 400. */
  lemma YearQuotientStep(p: int)
    requires 0 <= p
    ensures (p + 1) / 4 == p / 4 + (if (p + 1) % 4 == 0 then 1 else 0)
    ensures (p + 1) / 100 == p / 100 + (if (p + 1) % 100 == 0 then 1 else 0)
    ensures (p + 1) / 400 == p / 400 + (if (p + 1) % 400 == 0 then 1 else 0)
  {
  }
}
