/**
 * Proleptic Gregorian calendar arithmetic, as Python's `datetime` module does it:
 * field-wise construction that refuses invalid dates, ordinals counted from
 * 1 January of year 1, weekdays with Monday = 0, stepping by whole days, and
 * comparison field by field.
 */
module Dates {
  import opened Results

  /** A calendar date as its three fields. Python's `date` objects always hold a valid one. */
  datatype Date = Date(year: int, month: int, day: int)

  /** A `datetime`: a date and a time of day, the latter kept opaque as the number of
      microseconds since midnight. */
  datatype DateTime = DateTime(date: Date, time: nat)

  /** The time of day of a `datetime` built from its date fields alone. */
  const Midnight: nat := 0

  predicate IsLeapYear(y: int) {
    y % 4 == 0 && (y % 100 != 0 || y % 400 == 0)
  }

  function DaysInMonth(y: int, m: int): (n: int)
    requires 1 <= m <= 12
    ensures 28 <= n <= 31
    ensures n == 29 <==> m == 2 && IsLeapYear(y)
  {
    if m == 2 then (if IsLeapYear(y) then 29 else 28)
    else if m == 4 || m == 6 || m == 9 || m == 11 then 30
    else 31
  }

  function DaysInYear(y: int): int {
    if IsLeapYear(y) then 366 else 365
  }

  /** The fields name a day of the calendar: what the `datetime` constructor checks. */
  predicate IsValid(d: Date) {
    1 <= d.month <= 12 && 1 <= d.day <= DaysInMonth(d.year, d.month)
  }

  /** `datetime(year=y, month=m, day=d)`: the date itself, or `ValueError`; it never rolls
      an out-of-range day or month over into the next month or year. */
  function Make(y: int, m: int, d: int): (r: Result<Date>)
    ensures r.Ok? <==> IsValid(Date(y, m, d))
    ensures r.Ok? ==> r.value.year == y && r.value.month == m && r.value.day == d
    ensures r.Err? ==> r.error == InvalidDate(y, m, d)
  {
    if IsValid(Date(y, m, d)) then Ok(Date(y, m, d)) else Err(InvalidDate(y, m, d))
  }

  /** Days in all the years before year `y`. */
  function DaysBeforeYear(y: int): int {
    var z := y - 1;
    z * 365 + z / 4 - z / 100 + z / 400
  }

  /** Days in the months of year `y` before month `m`. */
  function DaysBeforeMonth(y: int, m: int): int
    requires 1 <= m <= 12
  {
    var leapDay := if m > 2 && IsLeapYear(y) then 1 else 0;
    [0, 31, 59, 90, 120, 151, 181, 212, 243, 273, 304, 334][m - 1] + leapDay
  }

  /** `date.toordinal()`: 1 January of year 1 is day 1. */
  function ToOrdinal(d: Date): int
    requires IsValid(d)
  {
    DaysBeforeYear(d.year) + DaysBeforeMonth(d.year, d.month) + d.day
  }

  /** `date.weekday()`: Monday is 0 and Sunday is 6. */
  function Weekday(d: Date): (w: int)
    requires IsValid(d)
    ensures 0 <= w < 7
  {
    (ToOrdinal(d) + 6) % 7
  }

  /** Field-by-field comparison, the order of Python's `<` on dates. */
  predicate DateLess(a: Date, b: Date) {
    a.year < b.year
    || (a.year == b.year && (a.month < b.month || (a.month == b.month && a.day < b.day)))
  }

  /** Python's `<` on `datetime`s: by date, then by time of day. */
  predicate DateTimeLess(a: DateTime, b: DateTime) {
    DateLess(a.date, b.date) || (a.date == b.date && a.time < b.time)
  }

  /** `d + timedelta(days=1)`. */
  function NextDay(d: Date): (r: Date)
    requires IsValid(d)
    ensures IsValid(r) && DateLess(d, r)
  {
    if d.day < DaysInMonth(d.year, d.month) then Date(d.year, d.month, d.day + 1)
    else if d.month < 12 then Date(d.year, d.month + 1, 1)
    else Date(d.year + 1, 1, 1)
  }

  /** `d - timedelta(days=1)`. */
  function PrevDay(d: Date): (r: Date)
    requires IsValid(d)
    ensures IsValid(r) && DateLess(r, d)
  {
    if d.day > 1 then Date(d.year, d.month, d.day - 1)
    else if d.month > 1 then Date(d.year, d.month - 1, DaysInMonth(d.year, d.month - 1))
    else Date(d.year - 1, 12, 31)
  }

  /** `d + timedelta(days=k)`, one day at a time. */
  function AddDays(d: Date, k: int): (r: Date)
    requires IsValid(d)
    ensures IsValid(r)
    ensures k > 0 ==> DateLess(d, r)
    ensures k < 0 ==> DateLess(r, d)
    decreases if k < 0 then -k else k
  {
    if k == 0 then d
    else if k > 0 then AddDays(NextDay(d), k - 1)
    else AddDays(PrevDay(d), k + 1)
  }

  // ---------------------------------------------------------------------------
  // Lemmas
  // ---------------------------------------------------------------------------

  /** An ordinal falls within the span of its own year. */
  lemma OrdinalInYear(d: Date)
    requires IsValid(d)
    ensures DaysBeforeYear(d.year) < ToOrdinal(d) <= DaysBeforeYear(d.year + 1)
  {
    DaysBeforeYearStep(d.year);
  }

  /** The next day is one ordinal later. */
  lemma NextDayOrdinal(d: Date)
    requires IsValid(d)
    ensures ToOrdinal(NextDay(d)) == ToOrdinal(d) + 1
  {
    DaysBeforeYearStep(d.year);
  }

  /** The previous day is one ordinal earlier. */
  lemma PrevDayOrdinal(d: Date)
    requires IsValid(d)
    ensures ToOrdinal(PrevDay(d)) + 1 == ToOrdinal(d)
  {
    DaysBeforeYearStep(d.year - 1);
  }

  /** `d + timedelta(days=k)` is `k` ordinals after `d`. */
  lemma {:induction false} AddDaysOrdinal(d: Date, k: int)
    requires IsValid(d)
    ensures ToOrdinal(AddDays(d, k)) == ToOrdinal(d) + k
    decreases if k < 0 then -k else k
  {
    if k > 0 {
      NextDayOrdinal(d);
      AddDaysOrdinal(NextDay(d), k - 1);
    } else if k < 0 {
      PrevDayOrdinal(d);
      AddDaysOrdinal(PrevDay(d), k + 1);
    }
  }

  /** A year contributes 366 days to the count when it is a leap year, 365 otherwise. */
  lemma DaysBeforeYearStep(y: int)
    ensures DaysBeforeYear(y + 1) == DaysBeforeYear(y) + DaysInYear(y)
  {
    var z := y - 1;
    QuotientStep(z, 4);
    QuotientStep(z, 100);
    QuotientStep(z, 400);
    DivisibilityChain(y);
  }

  /** A multiple of 400 is a multiple of 100, and a multiple of 100 one of 4. */
  lemma DivisibilityChain(y: int)
    ensures y % 400 == 0 ==> y % 100 == 0
    ensures y % 100 == 0 ==> y % 4 == 0
  {
    if y % 400 == 0 {
      var q := y / 400;
      assert y == 100 * (4 * q);
      QuotientUnique(y, 100, 4 * q, 0);
    }
    if y % 100 == 0 {
      var q := y / 100;
      assert y == 4 * (25 * q);
      QuotientUnique(y, 4, 25 * q, 0);
    }
  }

  /** Moving the dividend up by one bumps the quotient exactly when it lands on a multiple. */
  lemma QuotientStep(z: int, k: int)
    requires k == 4 || k == 100 || k == 400
    ensures (z + 1) / k == z / k + (if (z + 1) % k == 0 then 1 else 0)
  {
    var q, r := z / k, z % k;
    assert z == k * q + r && 0 <= r < k;
    if r + 1 < k {
      assert z + 1 == k * q + (r + 1);
      QuotientUnique(z + 1, k, q, r + 1);
    } else {
      assert z + 1 == k * (q + 1);
      QuotientUnique(z + 1, k, q + 1, 0);
    }
  }

  lemma QuotientUnique(n: int, k: int, q: int, r: int)
    requires k == 4 || k == 100 || k == 400
    requires n == k * q + r && 0 <= r < k
    ensures n / k == q && n % k == r
  {
    if k == 4 {
      assert n / 4 == q && n % 4 == r;
    } else if k == 100 {
      assert n / 100 == q && n % 100 == r;
    } else {
      assert n / 400 == q && n % 400 == r;
    }
  }

  lemma {:induction false} DaysBeforeYearMonotone(y1: int, y2: int)
    requires y1 <= y2
    ensures DaysBeforeYear(y1) <= DaysBeforeYear(y2)
    decreases y2 - y1
  {
    if y1 < y2 {
      DaysBeforeYearMonotone(y1, y2 - 1);
      DaysBeforeYearStep(y2 - 1);
    }
  }

  /** The month table is the running sum of the month lengths, and the months fill the year. */
  lemma DaysBeforeMonthSums(y: int, m: int)
    requires 1 <= m <= 12
    ensures DaysBeforeMonth(y, 1) == 0
    ensures m < 12 ==> DaysBeforeMonth(y, m + 1) == DaysBeforeMonth(y, m) + DaysInMonth(y, m)
    ensures DaysBeforeMonth(y, 12) + DaysInMonth(y, 12) == DaysInYear(y)
  {
  }

  lemma DaysBeforeMonthMonotone(y: int, m1: int, m2: int)
    requires 1 <= m1 < m2 <= 12
    ensures DaysBeforeMonth(y, m1) + DaysInMonth(y, m1) <= DaysBeforeMonth(y, m2)
  {
  }

  /** Comparing two dates field by field agrees with comparing their ordinals. */
  lemma OrdinalOrder(a: Date, b: Date)
    requires IsValid(a) && IsValid(b)
    ensures DateLess(a, b) <==> ToOrdinal(a) < ToOrdinal(b)
  {
    if DateLess(a, b) {
      OrdinalOrderForward(a, b);
    } else if a != b {
      OrdinalOrderForward(b, a);
    }
  }

  lemma OrdinalOrderForward(a: Date, b: Date)
    requires IsValid(a) && IsValid(b) && DateLess(a, b)
    ensures ToOrdinal(a) < ToOrdinal(b)
  {
    OrdinalInYear(a);
    OrdinalInYear(b);
    if a.year < b.year {
      DaysBeforeYearMonotone(a.year + 1, b.year);
    } else if a.month < b.month {
      DaysBeforeMonthMonotone(a.year, a.month, b.month);
    }
  }

  /** Distinct valid dates have distinct ordinals. */
  lemma OrdinalInjective(a: Date, b: Date)
    requires IsValid(a) && IsValid(b) && ToOrdinal(a) == ToOrdinal(b)
    ensures a == b
  {
    OrdinalOrder(a, b);
    OrdinalOrder(b, a);
  }

  /** `d + timedelta(days=k)` is the one valid date whose ordinal is `k` more than `d`'s. */
  lemma AddDaysUnique(d: Date, k: int, e: Date)
    requires IsValid(d) && IsValid(e) && ToOrdinal(e) == ToOrdinal(d) + k
    ensures AddDays(d, k) == e
  {
    AddDaysOrdinal(d, k);
    OrdinalInjective(AddDays(d, k), e);
  }

  /** Consecutive ordinals walk through the week in order. */
  lemma WeekdayNextDay(d: Date)
    requires IsValid(d)
    ensures Weekday(NextDay(d)) == (Weekday(d) + 1) % 7
  {
    NextDayOrdinal(d);
    WeekdayStep(ToOrdinal(d));
  }

  lemma WeekdayStep(n: int)
    ensures (n + 1 + 6) % 7 == ((n + 6) % 7 + 1) % 7
  {
  }

  /** `toordinal()` counts from 1 January of year 1, day 1; 1 January 2024 is day 738886;
      both were Mondays. */
  lemma MondayAnchors()
    ensures IsValid(Date(1, 1, 1)) && ToOrdinal(Date(1, 1, 1)) == 1
    ensures Weekday(Date(1, 1, 1)) == 0
    ensures IsValid(Date(2024, 1, 1)) && ToOrdinal(Date(2024, 1, 1)) == 738886
    ensures Weekday(Date(2024, 1, 1)) == 0
  {
    NewYearOrdinal(Date(1, 1, 1), 1);
    NewYearOrdinal(Date(2024, 1, 1), 738886);
  }

  lemma NewYearOrdinal(d: Date, n: int)
    requires d.month == 1 && d.day == 1
    requires (d.year == 1 && n == 1) || (d.year == 2024 && n == 738886)
    ensures IsValid(d) && ToOrdinal(d) == n
    ensures Weekday(d) == 0
  {
    if d.year == 1 {
      assert DaysBeforeYear(1) == 0;
      assert Weekday(d) == (1 + 6) % 7;
    } else {
      assert DaysBeforeYear(2024) == 738885;
      assert Weekday(d) == (738886 + 6) % 7;
    }
  }
}
