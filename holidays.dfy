/**
 * The holiday classifier of `Rule` (ics_make.py): a per-year table of "MMDD" keys
 * with a Saturday/Sunday fallback, and the makeup-workday override that, as written,
 * never fires.
 *
 * Python loads each year's table from the data file `holidays_api/data/<year>_data.json`
 * and caches it; here the files that exist are given as one map from year to table,
 * and a year without a file makes the lookup fail as `open` does.
 */
module Holidays {
  import opened Results
  import opened Dates

  /** For each year whose data file exists, its JSON object: "MMDD" key to status code,
      where a non-zero code marks an official day off. */
  type HolidayData = map<int, map<string, int>>

  function Digit(n: int): (c: char)
    requires 0 <= n < 10
    ensures '0' <= c <= '9'
  {
    (48 + n) as char
  }

  function DigitValue(c: char): int {
    c as int - 48
  }

  /** `f"{date.month:02d}{date.day:02d}"`: the month and the day, each as two decimal digits. */
  function MonthDayKey(d: Date): (key: string)
    requires IsValid(d)
  {
    [Digit(d.month / 10), Digit(d.month % 10), Digit(d.day / 10), Digit(d.day % 10)]
  }

  /** `date.weekday() in [5, 6]`. */
  predicate IsWeekend(d: Date)
    requires IsValid(d)
  {
    Weekday(d) == 5 || Weekday(d) == 6
  }

  /** `check_if_chinese_holiday`: the year's table decides when it holds the date's key,
      the weekend test otherwise; without the year's data file the lookup raises. */
  function CheckIfChineseHoliday(data: HolidayData, d: Date): (r: Result<bool>)
    requires IsValid(d)
  {
    if d.year !in data then Err(MissingHolidayData(d.year))
    else
      var table, key := data[d.year], MonthDayKey(d);
      if key in table then Ok(table[key] != 0) else Ok(IsWeekend(d))
  }

  /** The two values the guard of `check_if_huawei_workday` compares: the attribute
      `date.weekday`, read without calling it, is a bound method object, never an int. */
  datatype PyValue = PyInt(n: int) | BoundMethod(name: string)

  function WeekdayAttribute(d: Date): PyValue {
    BoundMethod("weekday")
  }

  /** `check_if_huawei_workday`: its guard `not date.weekday == 5` compares a method
      object with 5, so it returns `False` before the last-Saturday test and the scans
      for a run of seven working days. */
  predicate CheckIfHuaweiWorkday(d: Date) {
    if WeekdayAttribute(d) != PyInt(5) then false
    else assert false; false
  }

  /** `check_if_holiday`: a makeup workday is a working day; otherwise ask the table. */
  function CheckIfHoliday(data: HolidayData, d: Date): (r: Result<bool>)
    requires IsValid(d)
  {
    if CheckIfHuaweiWorkday(d) then Ok(false) else CheckIfChineseHoliday(data, d)
  }

  /** The first and the last year that have a data file. */
  ghost function FirstYear(data: HolidayData): (y: int)
    requires data != map[]
    ensures y in data && forall x :: x in data ==> y <= x
  {
    Least(data.Keys)
  }

  ghost function LastYear(data: HolidayData): (y: int)
    requires data != map[]
    ensures y in data && forall x :: x in data ==> x <= y
  {
    Greatest(data.Keys)
  }

  ghost function Least(s: set<int>): (m: int)
    requires s != {}
    ensures m in s && forall x :: x in s ==> m <= x
  {
    HasElement(s);
    var x :| x in s;
    if s == {x} then x else var m := Least(s - {x});
      assert forall y :: y in s ==> y == x || y in s - {x};
      if x < m then x else m
  }

  ghost function Greatest(s: set<int>): (m: int)
    requires s != {}
    ensures m in s && forall x :: x in s ==> x <= m
  {
    HasElement(s);
    var x :| x in s;
    if s == {x} then x else var m := Greatest(s - {x});
      assert forall y :: y in s ==> y == x || y in s - {x};
      if x > m then x else m
  }

  lemma HasElement(s: set<int>)
    requires s != {}
    ensures exists x :: x in s
  {
    if forall x :: x !in s {
      assert false;
    }
  }

  // ---------------------------------------------------------------------------
  // Lemmas
  // ---------------------------------------------------------------------------

  /** A key is four decimal digits from which the month and the day can be read back. */
  lemma MonthDayKeyDigits(d: Date)
    requires IsValid(d)
    ensures var key := MonthDayKey(d);
      && |key| == 4 && (forall i :: 0 <= i < 4 ==> '0' <= key[i] <= '9')
      && DigitValue(key[0]) * 10 + DigitValue(key[1]) == d.month
      && DigitValue(key[2]) * 10 + DigitValue(key[3]) == d.day
  {
  }

  /** Dates of one year with the same key are the same date, so each table entry
      speaks about one day. */
  lemma MonthDayKeyInjective(a: Date, b: Date)
    requires IsValid(a) && IsValid(b) && a.year == b.year
    requires MonthDayKey(a) == MonthDayKey(b)
    ensures a == b
  {
    MonthDayKeyDigits(a);
    MonthDayKeyDigits(b);
    var k := MonthDayKey(a);
    assert k[0] == MonthDayKey(b)[0] && k[1] == MonthDayKey(b)[1];
    assert k[2] == MonthDayKey(b)[2] && k[3] == MonthDayKey(b)[3];
  }

  /** The key of a valid date: 1 June is "0601", 31 December is "1231". */
  lemma MonthDayKeyExamples()
    ensures MonthDayKey(Date(2024, 6, 1)) == "0601"
    ensures MonthDayKey(Date(2024, 12, 31)) == "1231"
  {
  }

  /** A date whose key is in its year's table is a day off exactly when its code is non-zero. */
  lemma TableDecides(data: HolidayData, d: Date)
    requires IsValid(d) && d.year in data && MonthDayKey(d) in data[d.year]
    ensures CheckIfChineseHoliday(data, d) == Ok(data[d.year][MonthDayKey(d)] != 0)
  {
  }

  /** A date missing from its year's table is a day off exactly when it is a Saturday or a Sunday. */
  lemma WeekendFallback(data: HolidayData, d: Date)
    requires IsValid(d) && d.year in data && MonthDayKey(d) !in data[d.year]
    ensures CheckIfChineseHoliday(data, d) == Ok(Weekday(d) in {5, 6})
  {
  }

  /** Without the year's data file the classifier fails, whatever the date. */
  lemma MissingYearFails(data: HolidayData, d: Date)
    requires IsValid(d)
    ensures CheckIfChineseHoliday(data, d).Err? <==> d.year !in data
    ensures d.year !in data ==> CheckIfChineseHoliday(data, d) == Err(MissingHolidayData(d.year))
  {
  }

  /** The makeup-workday test never holds, so `check_if_holiday` is the table lookup. */
  lemma HuaweiWorkdayNeverHolds(data: HolidayData, d: Date)
    requires IsValid(d)
    ensures !CheckIfHuaweiWorkday(d)
    ensures CheckIfHoliday(data, d) == CheckIfChineseHoliday(data, d)
  {
  }

  /** A year with a data file lies between the first and the last such year, in ordinals. */
  lemma {:induction false} YearInTable(data: HolidayData, d: Date)
    requires IsValid(d) && d.year in data
    ensures DaysBeforeYear(FirstYear(data)) < ToOrdinal(d) <= DaysBeforeYear(LastYear(data) + 1)
  {
    OrdinalInYear(d);
    DaysBeforeYearMonotone(FirstYear(data), d.year);
    DaysBeforeYearMonotone(d.year + 1, LastYear(data) + 1);
  }
}
