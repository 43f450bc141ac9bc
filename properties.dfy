/**
 * What the list built by `make_datetime_list` is: its dates, their relation to the raw
 * cadence candidates, where it stops, and the literal date arithmetic of each cadence.
 */
module Properties {
  import opened Results
  import opened Dates
  import opened Holidays
  import opened Recurrence

  /** The cursor `now` after `k` rounds of the loop, stepping from `now`. */
  function Cursor(repeat: Repeat, frequency: int, now: DateTime, k: nat): (r: Result<DateTime>)
    requires IsValid(now.date)
    ensures r.Ok? ==> IsValid(r.value.date)
    decreases k
  {
    if k == 0 then Ok(now)
    else
      var step := Advance(repeat, frequency, now);
      if step.Err? then Err(step.error) else Cursor(repeat, frequency, step.value, k - 1)
  }

  /** How an appended date relates to its raw candidate under each policy. */
  predicate PolicyHolds(policy: Holiday, data: HolidayData, raw: DateTime, a: DateTime)
    requires IsValid(raw.date) && IsValid(a.date)
  {
    match policy
    case NoChange => a == raw
    case Before =>
      a.time == raw.time && !DateLess(raw.date, a.date) && CheckIfHoliday(data, a.date) == Ok(false)
    case After =>
      a.time == raw.time && !DateLess(a.date, raw.date) && CheckIfHoliday(data, a.date) == Ok(false)
  }

  // ---------------------------------------------------------------------------
  // The cadences
  // ---------------------------------------------------------------------------

  /** DAILY: the raw candidate is `frequency` days later, at the same time of day. */
  lemma AdvanceDaily(frequency: int, now: DateTime)
    requires IsValid(now.date)
    ensures Advance(Daily, frequency, now).Ok?
    ensures ToOrdinal(Advance(Daily, frequency, now).value.date) == ToOrdinal(now.date) + frequency
    ensures Advance(Daily, frequency, now).value.time == now.time
  {
    AddDaysOrdinal(now.date, frequency);
  }

  /** WEEKLY adds the interval to the day field: it stays in the same month, at midnight,
      and raises when the day runs past the month's end. */
  lemma AdvanceWeekly(frequency: int, now: DateTime)
    requires IsValid(now.date)
    ensures var r := Advance(Weekly, frequency, now);
            && (r.Ok? <==> now.date.day + frequency <= DaysInMonth(now.date.year, now.date.month)
                           && 1 <= now.date.day + frequency)
            && (r.Ok? ==> r.value == DateTime(Date(now.date.year, now.date.month, now.date.day + frequency), Midnight))
            && (r.Err? ==> r.error == InvalidDate(now.date.year, now.date.month, now.date.day + frequency))
  {
  }

  /** MONTHLY moves `frequency` months on, keeping the day, at midnight; the year rolls over
      at most once, and a day the target month lacks raises instead of being clamped. */
  lemma AdvanceMonthly(frequency: int, now: DateTime)
    requires IsValid(now.date) && frequency >= 1
    ensures var r := Advance(Monthly, frequency, now);
            var target := now.date.month + frequency;
            var year := if target > 12 then now.date.year + 1 else now.date.year;
            var month := if target > 12 then target - 12 else target;
            && (r.Ok? <==> month <= 12 && now.date.day <= DaysInMonth(year, month))
            && (r.Ok? ==> r.value.date.year * 12 + r.value.date.month == now.date.year * 12 + target
                          && r.value.date.day == now.date.day && r.value.time == Midnight)
            && (r.Err? ==> r.error == InvalidDate(year, month, now.date.day))
  {
  }

  /** 29 January plus one week is not 5 February: the day field 36 raises. */
  lemma WeeklyDoesNotRollOver()
    ensures Advance(Weekly, 7, DateTime(Date(2024, 1, 29), Midnight)) == Err(InvalidDate(2024, 1, 36))
  {
  }

  /** 31 January plus one month is not clamped to 29 February: it raises. */
  lemma MonthlyDoesNotClamp()
    ensures Advance(Monthly, 1, DateTime(Date(2024, 1, 31), Midnight)) == Err(InvalidDate(2024, 2, 31))
  {
  }

  /** December plus thirteen months subtracts 12 once and asks for month 13, which raises. */
  lemma MonthlyRollsOverOnce()
    ensures Advance(Monthly, 13, DateTime(Date(2024, 12, 15), Midnight)) == Err(InvalidDate(2025, 13, 15))
  {
  }

  // ---------------------------------------------------------------------------
  // The holiday policies
  // ---------------------------------------------------------------------------

  /** Every adjusted date meets its policy: NO_CHANGE keeps the raw candidate; BEFORE and
      AFTER give a working day, not after and not before the raw candidate respectively. */
  lemma AdjustMeetsPolicy(policy: Holiday, data: HolidayData, raw: DateTime)
    requires IsValid(raw.date) && Adjust(policy, data, raw).Ok?
    ensures PolicyHolds(policy, data, raw, Adjust(policy, data, raw).value)
  {
    match policy
    case NoChange =>
    case Before => ScanBeforeLandsOnWorkday(data, raw);
    case After => ScanAfterLandsOnWorkday(data, raw);
  }

  /** NO_CHANGE never consults the holiday data. */
  lemma NoChangeKeepsCandidate(data: HolidayData, raw: DateTime)
    requires IsValid(raw.date)
    ensures Adjust(NoChange, data, raw) == Ok(raw)
  {
  }

  /** The BEFORE scan stops only on a day the classifier calls a working day. */
  lemma {:induction false} ScanBeforeLandsOnWorkday(data: HolidayData, t: DateTime)
    requires IsValid(t.date) && ScanBefore(data, t).Ok?
    ensures CheckIfHoliday(data, ScanBefore(data, t).value.date) == Ok(false)
    decreases ToOrdinal(t.date) - DaysBeforeYear(FirstYear(data))
  {
    var h := ScanBeforeCases(data, t);
    if h {
      PrevDayOrdinal(t.date);
      YearInTable(data, t.date);
      YearInTable(data, PrevDay(t.date));
      ScanBeforeLandsOnWorkday(data, DateTime(PrevDay(t.date), t.time));
    }
  }

  /** The AFTER scan stops only on a day the classifier calls a working day. */
  lemma {:induction false} ScanAfterLandsOnWorkday(data: HolidayData, t: DateTime)
    requires IsValid(t.date) && ScanAfter(data, t).Ok?
    ensures CheckIfHoliday(data, ScanAfter(data, t).value.date) == Ok(false)
    decreases DaysBeforeYear(LastYear(data) + 1) - ToOrdinal(t.date) + 1
  {
    var h := ScanAfterCases(data, t);
    if h {
      NextDayOrdinal(t.date);
      YearInTable(data, t.date);
      YearInTable(data, NextDay(t.date));
      ScanAfterLandsOnWorkday(data, DateTime(NextDay(t.date), t.time));
    }
  }

  /** BEFORE lands on the FIRST working day at or before the raw candidate: every day
      after it, up to and including the candidate, is a holiday. */
  lemma {:induction false} ScanBeforeSkipsOnlyHolidays(data: HolidayData, t: DateTime)
    requires IsValid(t.date) && ScanBefore(data, t).Ok?
    ensures forall d :: IsValid(d) && DateLess(ScanBefore(data, t).value.date, d) && !DateLess(t.date, d)
                        ==> CheckIfHoliday(data, d) == Ok(true)
    decreases ToOrdinal(t.date) - DaysBeforeYear(FirstYear(data))
  {
    var h := ScanBeforeCases(data, t);
    var a := ScanBefore(data, t).value;
    if h {
      var prev := DateTime(PrevDay(t.date), t.time);
      PrevDayOrdinal(t.date);
      YearInTable(data, t.date);
      YearInTable(data, prev.date);
      ScanBeforeSkipsOnlyHolidays(data, prev);
      forall d | IsValid(d) && DateLess(a.date, d) && !DateLess(t.date, d)
        ensures CheckIfHoliday(data, d) == Ok(true)
      {
        if d != t.date {
          OrdinalOrder(d, t.date);
          OrdinalOrder(prev.date, d);
        }
      }
    }
  }

  /** AFTER lands on the FIRST working day at or after the raw candidate. */
  lemma {:induction false} ScanAfterSkipsOnlyHolidays(data: HolidayData, t: DateTime)
    requires IsValid(t.date) && ScanAfter(data, t).Ok?
    ensures forall d :: IsValid(d) && !DateLess(d, t.date) && DateLess(d, ScanAfter(data, t).value.date)
                        ==> CheckIfHoliday(data, d) == Ok(true)
    decreases DaysBeforeYear(LastYear(data) + 1) - ToOrdinal(t.date) + 1
  {
    var h := ScanAfterCases(data, t);
    var a := ScanAfter(data, t).value;
    if h {
      var next := DateTime(NextDay(t.date), t.time);
      NextDayOrdinal(t.date);
      YearInTable(data, t.date);
      YearInTable(data, next.date);
      ScanAfterSkipsOnlyHolidays(data, next);
      forall d | IsValid(d) && !DateLess(d, t.date) && DateLess(d, a.date)
        ensures CheckIfHoliday(data, d) == Ok(true)
      {
        if d != t.date {
          OrdinalOrder(t.date, d);
          OrdinalOrder(d, next.date);
        }
      }
    }
  }

  /** A 15 June 2024 candidate, a Saturday with no entry in the 2024 table, moves back to
      Friday 14 June under BEFORE. */
  lemma BeforeSkipsSaturday()
    ensures Adjust(Before, map[2024 := map[]], DateTime(Date(2024, 6, 15), Midnight))
            == Ok(DateTime(Date(2024, 6, 14), Midnight))
  {
    var raw := DateTime(Date(2024, 6, 15), Midnight);
    var data: HolidayData := map[2024 := map[]];
    var friday := Date(2024, 6, 14);
    assert DaysBeforeYear(2024) == 738885;
    assert ToOrdinal(raw.date) == 739052 && Weekday(raw.date) == 5;
    assert ToOrdinal(friday) == 739051 && Weekday(friday) == 4;
    assert PrevDay(raw.date) == friday;
    assert CheckIfHoliday(data, raw.date) == Ok(true);
    assert CheckIfHoliday(data, friday) == Ok(false);
  }

  /** BEFORE from New Year's Day, a holiday in the 2024 table, walks into 2023 and raises
      when 2023 has no data file. */
  lemma BeforeNeedsPreviousYear()
    ensures Adjust(Before, map[2024 := map["0101" := 1]], DateTime(Date(2024, 1, 1), Midnight))
            == Err(MissingHolidayData(2023))
  {
    var raw := DateTime(Date(2024, 1, 1), Midnight);
    var data: HolidayData := map[2024 := map["0101" := 1]];
    assert MonthDayKey(raw.date) == "0101";
    assert CheckIfHoliday(data, raw.date) == Ok(true);
    assert PrevDay(raw.date) == Date(2023, 12, 31);
  }

  // ---------------------------------------------------------------------------
  // The list
  // ---------------------------------------------------------------------------

  /** Round k from `now` yields `a`: the cursor after k rounds is the raw candidate `raw`,
      and the policy turns `raw` into `a`. */
  predicate RoundYields(repeat: Repeat, frequency: int, policy: Holiday, data: HolidayData,
                        now: DateTime, k: nat, raw: DateTime, a: DateTime)
    requires IsValid(now.date)
  {
    Cursor(repeat, frequency, now, k) == Ok(raw) && IsValid(raw.date) && Adjust(policy, data, raw) == Ok(a)
  }

  /** The k-th date `Tail` appends (counting from 1) is what round k yields. */
  lemma {:induction false} TailFollowsCursor(repeat: Repeat, frequency: int, endTime: DateTime,
                                             policy: Holiday, data: HolidayData, now: DateTime,
                                             tail: seq<DateTime>, k: nat)
    returns (raw: DateTime)
    requires IsStepping(repeat, frequency) && IsValid(now.date) && IsValid(endTime.date)
    requires Tail(repeat, frequency, endTime, policy, data, now) == Ok(tail)
    requires 1 <= k <= |tail|
    ensures RoundYields(repeat, frequency, policy, data, now, k, raw, tail[k - 1])
    decreases k
  {
    var first, rest := TailRound(repeat, frequency, endTime, policy, data, now, tail);
    CursorUnfold(repeat, frequency, now, first, k);
    if k == 1 {
      raw := first;
    } else {
      raw := TailFollowsCursor(repeat, frequency, endTime, policy, data, first, rest, k - 1);
    }
  }

  /** `Tail` stops at the first round whose adjusted candidate is not before the end: the
      round after its last date yields such a candidate. */
  lemma {:induction false} TailStopsAtFirstLate(repeat: Repeat, frequency: int, endTime: DateTime,
                                                policy: Holiday, data: HolidayData, now: DateTime,
                                                tail: seq<DateTime>)
    returns (raw: DateTime, late: DateTime)
    requires IsStepping(repeat, frequency) && IsValid(now.date) && IsValid(endTime.date)
    requires Tail(repeat, frequency, endTime, policy, data, now) == Ok(tail)
    ensures RoundYields(repeat, frequency, policy, data, now, |tail| + 1, raw, late)
    ensures !DateTimeLess(late, endTime)
    decreases |tail|
  {
    if |tail| == 0 {
      TailSteps(repeat, frequency, endTime, policy, data, now);
      raw := Advance(repeat, frequency, now).value;
      late := Adjust(policy, data, raw).value;
      CursorUnfold(repeat, frequency, now, raw, 1);
    } else {
      var first, rest := TailRound(repeat, frequency, endTime, policy, data, now, tail);
      CursorUnfold(repeat, frequency, now, first, |tail| + 1);
      raw, late := TailStopsAtFirstLate(repeat, frequency, endTime, policy, data, first, rest);
    }
  }

  /** For a stepping cadence the list is the start followed by what `Tail` appends. */
  lemma OccurrencesSplit(repeat: Repeat, frequency: int, start: DateTime, endTime: DateTime,
                         policy: Holiday, data: HolidayData, occ: seq<DateTime>)
    requires IsStepping(repeat, frequency)
    requires IsValid(start.date) && IsValid(endTime.date)
    requires Occurrences(repeat, frequency, start, endTime, policy, data) == Ok(occ)
    ensures Tail(repeat, frequency, endTime, policy, data, start) == Ok(occ[1..])
  {
  }

  /** Element i >= 1 of the list is what round i yields from the start. */
  lemma OccurrencesFollowPolicy(repeat: Repeat, frequency: int, start: DateTime, endTime: DateTime,
                                policy: Holiday, data: HolidayData, occ: seq<DateTime>, i: nat)
    returns (raw: DateTime)
    requires IsStepping(repeat, frequency)
    requires IsValid(start.date) && IsValid(endTime.date)
    requires Occurrences(repeat, frequency, start, endTime, policy, data) == Ok(occ)
    requires 1 <= i < |occ|
    ensures RoundYields(repeat, frequency, policy, data, start, i, raw, occ[i])
  {
    OccurrencesSplit(repeat, frequency, start, endTime, policy, data, occ);
    raw := TailFollowsCursor(repeat, frequency, endTime, policy, data, start, occ[1..], i);
  }

  /** Element i >= 1 of the list meets the policy against round i's raw candidate: the
      candidate itself under NO_CHANGE, the nearest working day not after (BEFORE) or not
      before (AFTER) it otherwise. */
  lemma OccurrencesMeetPolicy(repeat: Repeat, frequency: int, start: DateTime, endTime: DateTime,
                              policy: Holiday, data: HolidayData, occ: seq<DateTime>, i: nat)
    returns (raw: DateTime)
    requires IsStepping(repeat, frequency)
    requires IsValid(start.date) && IsValid(endTime.date)
    requires Occurrences(repeat, frequency, start, endTime, policy, data) == Ok(occ)
    requires 1 <= i < |occ|
    ensures Cursor(repeat, frequency, start, i) == Ok(raw) && IsValid(raw.date) && IsValid(occ[i].date)
    ensures PolicyHolds(policy, data, raw, occ[i])
  {
    raw := OccurrencesFollowPolicy(repeat, frequency, start, endTime, policy, data, occ, i);
    AdjustMeetsPolicy(policy, data, raw);
  }

  /** Round |list| yields an adjusted candidate that is not before the end. */
  lemma OccurrencesStopAtEnd(repeat: Repeat, frequency: int, start: DateTime, endTime: DateTime,
                             policy: Holiday, data: HolidayData, occ: seq<DateTime>)
    returns (raw: DateTime, late: DateTime)
    requires IsStepping(repeat, frequency)
    requires IsValid(start.date) && IsValid(endTime.date)
    requires Occurrences(repeat, frequency, start, endTime, policy, data) == Ok(occ)
    ensures RoundYields(repeat, frequency, policy, data, start, |occ|, raw, late)
    ensures !DateTimeLess(late, endTime)
  {
    OccurrencesSplit(repeat, frequency, start, endTime, policy, data, occ);
    raw, late := TailStopsAtFirstLate(repeat, frequency, endTime, policy, data, start, occ[1..]);
  }

  // ---------------------------------------------------------------------------
  // DAILY without adjustment
  // ---------------------------------------------------------------------------

  /** k DAILY steps of `frequency` days land `k * frequency` days later, at the same time. */
  lemma DailyCursor(frequency: int, now: DateTime, k: nat)
    requires IsValid(now.date)
    ensures Cursor(Daily, frequency, now, k) == Ok(DateTime(AddDays(now.date, k * frequency), now.time))
  {
    DailyCursorStride(frequency, now, k);
    StrideIsProduct(k, frequency);
    AddDaysUnique(now.date, k * frequency, Cursor(Daily, frequency, now, k).value.date);
  }

  /** `k` strides of `frequency` days, added one at a time. */
  function Stride(k: nat, frequency: int): int {
    if k == 0 then 0 else Stride(k - 1, frequency) + frequency
  }

  lemma {:induction false} StrideIsProduct(k: nat, frequency: int)
    ensures Stride(k, frequency) == k * frequency
  {
    if k > 0 {
      StrideIsProduct(k - 1, frequency);
      assert k * frequency == (k - 1) * frequency + frequency;
    }
  }

  lemma {:induction false} DailyCursorStride(frequency: int, now: DateTime, k: nat)
    requires IsValid(now.date)
    ensures var c := Cursor(Daily, frequency, now, k);
            && c.Ok? && c.value.time == now.time
            && ToOrdinal(c.value.date) == ToOrdinal(now.date) + Stride(k, frequency)
    decreases k
  {
    if k > 0 {
      var next := DateTime(AddDays(now.date, frequency), now.time);
      DailyCursorStride(frequency, next, k - 1);
      CursorUnfold(Daily, frequency, now, next, k);
      AddDaysOrdinal(now.date, frequency);
    }
  }

  /** A round that steps without raising leaves `k - 1` rounds from the new cursor. */
  lemma CursorUnfold(repeat: Repeat, frequency: int, now: DateTime, raw: DateTime, k: nat)
    requires IsValid(now.date) && k >= 1 && Advance(repeat, frequency, now) == Ok(raw)
    ensures Cursor(repeat, frequency, now, k) == Cursor(repeat, frequency, raw, k - 1)
  {
  }

  /** DAILY with NO_CHANGE never raises. */
  lemma {:induction false} DailyNoChangeSucceeds(frequency: int, endTime: DateTime,
                                                 data: HolidayData, now: DateTime)
    requires frequency >= 1 && IsValid(now.date) && IsValid(endTime.date)
    ensures Tail(Daily, frequency, endTime, NoChange, data, now).Ok?
    decreases ToOrdinal(endTime.date) - ToOrdinal(now.date)
  {
    TailSteps(Daily, frequency, endTime, NoChange, data, now);
    var raw := Advance(Daily, frequency, now).value;
    if DateTimeLess(raw, endTime) {
      AdvanceMovesForward(Daily, frequency, now);
      BelowHorizon(NoChange, data, endTime, raw);
      DailyNoChangeSucceeds(frequency, endTime, data, raw);
    }
  }

  /** DAILY with NO_CHANGE gives `start + k * frequency` days for k = 0, 1, ..., n - 1,
      where the n-th such date is the first one not before the end. */
  lemma DailyNoChangeDates(frequency: int, start: DateTime, endTime: DateTime, data: HolidayData)
    requires frequency >= 1 && IsValid(start.date) && IsValid(endTime.date)
    ensures Occurrences(Daily, frequency, start, endTime, NoChange, data).Ok?
    ensures var t := Occurrences(Daily, frequency, start, endTime, NoChange, data).value;
            && (forall k :: 0 <= k < |t| ==> t[k] == DateTime(AddDays(start.date, k * frequency), start.time))
            && !DateTimeLess(DateTime(AddDays(start.date, |t| * frequency), start.time), endTime)
  {
    DailyNoChangeSucceeds(frequency, endTime, data, start);
    var t := Occurrences(Daily, frequency, start, endTime, NoChange, data).value;
    forall k | 0 <= k < |t|
      ensures t[k] == DateTime(AddDays(start.date, k * frequency), start.time)
    {
      if k == 0 {
        assert AddDays(start.date, 0) == start.date;
      } else {
        var raw := OccurrencesFollowPolicy(Daily, frequency, start, endTime, NoChange, data, t, k);
        DailyCursor(frequency, start, k);
      }
    }
    var raw, late := OccurrencesStopAtEnd(Daily, frequency, start, endTime, NoChange, data, t);
    DailyCursor(frequency, start, |t|);
  }

  /** Daily from 2024-01-01 up to 2024-01-04 gives the 1st, 2nd and 3rd of January. */
  lemma DailyExample(data: HolidayData)
    ensures Occurrences(Daily, 1, DateTime(Date(2024, 1, 1), Midnight), DateTime(Date(2024, 1, 4), Midnight),
                        NoChange, data)
            == Ok([DateTime(Date(2024, 1, 1), Midnight), DateTime(Date(2024, 1, 2), Midnight),
                   DateTime(Date(2024, 1, 3), Midnight)])
  {
    var start, endTime := DateTime(Date(2024, 1, 1), Midnight), DateTime(Date(2024, 1, 4), Midnight);
    DailyNoChangeDates(1, start, endTime, data);
    var t := Occurrences(Daily, 1, start, endTime, NoChange, data).value;
    forall k | 0 <= k <= 3
      ensures AddDays(start.date, k) == Date(2024, 1, 1 + k)
    {
      AddDaysUnique(start.date, k, Date(2024, 1, 1 + k));
    }
    var n := |t|;
    assert n * 1 == n;
    OrdinalOrder(AddDays(start.date, n), endTime.date);
    assert n >= 3;
    assert t[n - 1] == DateTime(AddDays(start.date, (n - 1) * 1), start.time);
    OrdinalOrder(t[n - 1].date, endTime.date);
    assert n == 3;
    assert t[1] == DateTime(AddDays(start.date, 1 * 1), start.time) == DateTime(Date(2024, 1, 2), Midnight);
    assert t[2] == DateTime(AddDays(start.date, 2 * 1), start.time) == DateTime(Date(2024, 1, 3), Midnight);
    assert t == [start, t[1], t[2]];
  }
}
