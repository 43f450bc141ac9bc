/**
 * The recurrence engine of `Rule` (ics_make.py): from a start `datetime`, a cadence,
 * an interval, an exclusive end and a holiday policy, the ordered list of event dates.
 *
 * The functions below say what `make_datetime_list` computes; the class `Rule` holds the
 * fields `__init__` sets and runs the loop itself, proved to compute `Occurrences`.
 */
module Recurrence {
  import opened Results
  import opened Dates
  import opened Holidays

  /** `Repeat`: the cadence of the event. */
  datatype Repeat = Once | Daily | Weekly | Monthly | Yearly

  /** `Holiday`: what to do with a raw candidate that is not a working day. */
  datatype Holiday = NoChange | Before | After

  /** A cadence the loop of `make_datetime_list` steps through, with an interval that moves
      the cursor. YEARLY has no branch in the loop and leaves the cursor where it is. */
  predicate IsStepping(repeat: Repeat, frequency: int) {
    (repeat == Daily || repeat == Weekly || repeat == Monthly) && frequency >= 1
  }

  /** The `end_time` that `__init__` stores when none is given,
      `datetime(year=start_time.year + 1, month=1, day=1)`: midnight opening the next year,
      after every day of the start's year and before no later day. */
  function DefaultEnd(start: DateTime): (e: DateTime)
    requires IsValid(start.date)
    ensures IsValid(e.date) && e.time == Midnight && DateTimeLess(start, e)
    ensures forall d :: IsValid(d) && d.year <= start.date.year ==> DateLess(d, e.date)
    ensures forall d :: IsValid(d) && d.year > start.date.year ==> !DateLess(d, e.date)
  {
    DateTime(Date(start.date.year + 1, 1, 1), Midnight)
  }

  /** One move of the cursor `now` in the loop of `make_datetime_list`. DAILY adds whole days
      and keeps the time; WEEKLY and MONTHLY rebuild a `datetime` from year, month and day
      (so at midnight), which raises instead of rolling over; ONCE and YEARLY have no branch. */
  function Advance(repeat: Repeat, frequency: int, now: DateTime): (r: Result<DateTime>)
    requires IsValid(now.date)
    ensures r.Ok? ==> IsValid(r.value.date)
  {
    match repeat
    case Daily =>
      Ok(DateTime(AddDays(now.date, frequency), now.time))
    case Weekly =>
      var made := Make(now.date.year, now.date.month, now.date.day + frequency);
      if made.Err? then Err(made.error) else Ok(DateTime(made.value, Midnight))
    case Monthly =>
      var newMonth := now.date.month + frequency;
      var made :=
        if newMonth > 12 then Make(now.date.year + 1, newMonth - 12, now.date.day)
        else Make(now.date.year, newMonth, now.date.day);
      if made.Err? then Err(made.error) else Ok(DateTime(made.value, Midnight))
    case Once => Ok(now)
    case Yearly => Ok(now)
  }

  /** How far a scan under `policy` can still walk from `t` before it leaves the years
      that have a data file. */
  ghost function ScanRoom(policy: Holiday, data: HolidayData, t: DateTime): int
    requires IsValid(t.date)
  {
    if t.date.year !in data then 0
    else match policy
      case NoChange => 0
      case Before => ToOrdinal(t.date) - DaysBeforeYear(FirstYear(data))
      case After => DaysBeforeYear(LastYear(data) + 1) - ToOrdinal(t.date) + 1
  }

  /** `next_day` once the policy has been applied to the raw candidate: NO_CHANGE keeps it,
      BEFORE and AFTER scan from it. */
  function Adjust(policy: Holiday, data: HolidayData, raw: DateTime): (r: Result<DateTime>)
    requires IsValid(raw.date)
    ensures r.Ok? ==> IsValid(r.value.date) && r.value.time == raw.time
    ensures r.Ok? && policy == Before ==> raw.date.year in data && !DateLess(raw.date, r.value.date)
    ensures r.Ok? && policy == After ==> raw.date.year in data && !DateLess(r.value.date, raw.date)
    ensures r.Err? ==> r.error.MissingHolidayData?
    decreases ScanRoom(policy, data, raw), 2
  {
    match policy
    case NoChange => Ok(raw)
    case Before => ScanBefore(data, raw)
    case After => ScanAfter(data, raw)
  }

  /** The BEFORE loop, `while self.check_if_holiday(next_day): next_day -= timedelta(days=1)`,
      started with `next_day` at `t`: it ends on a working day not after `t`, or raises when
      it reaches a year without a data file, which it must do once it walks below the first
      year that has one.
      The loop recurses through `ScanBeforeStep` and `Adjust`, a cycle of three calls, so
      that proofs about `Tail` do not unfold the holiday classifier; proofs about the scan
      itself unfold the step explicitly. */
  function ScanBefore(data: HolidayData, t: DateTime): (r: Result<DateTime>)
    requires IsValid(t.date)
    ensures r.Ok? ==> t.date.year in data && IsValid(r.value.date) && r.value.time == t.time
    ensures r.Ok? ==> !DateLess(t.date, r.value.date)
    ensures r.Err? ==> r.error.MissingHolidayData?
    decreases ScanRoom(Before, data, t), 1
  {
    ScanBeforeStep(data, t)
  }

  /** One test of the BEFORE loop's condition with `next_day` at `t`: a working day ends the
      loop, a holiday moves `next_day` one day back, and the day before goes through the
      policy again. */
  function ScanBeforeStep(data: HolidayData, t: DateTime): (r: Result<DateTime>)
    requires IsValid(t.date)
    decreases ScanRoom(Before, data, t), 0
  {
    var isHoliday := CheckIfHoliday(data, t.date);
    if isHoliday.Err? then Err(isHoliday.error)
    else if !isHoliday.value then Ok(t)
    else
      YearInTable(data, t.date);
      PrevDayOrdinal(t.date);
      Adjust(Before, data, DateTime(PrevDay(t.date), t.time))
  }

  /** The AFTER loop, `while self.check_if_holiday(next_day): next_day += timedelta(days=1)`,
      started with `next_day` at `t`: it ends on a working day not before `t`, or raises.
      It recurses through `ScanAfterStep` and `Adjust`, as `ScanBefore` does. */
  function ScanAfter(data: HolidayData, t: DateTime): (r: Result<DateTime>)
    requires IsValid(t.date)
    ensures r.Ok? ==> t.date.year in data && IsValid(r.value.date) && r.value.time == t.time
    ensures r.Ok? ==> !DateLess(r.value.date, t.date)
    ensures r.Err? ==> r.error.MissingHolidayData?
    decreases ScanRoom(After, data, t), 1
  {
    ScanAfterStep(data, t)
  }

  /** One test of the AFTER loop's condition with `next_day` at `t`. */
  function ScanAfterStep(data: HolidayData, t: DateTime): (r: Result<DateTime>)
    requires IsValid(t.date)
    decreases ScanRoom(After, data, t), 0
  {
    var isHoliday := CheckIfHoliday(data, t.date);
    if isHoliday.Err? then Err(isHoliday.error)
    else if !isHoliday.value then Ok(t)
    else
      YearInTable(data, t.date);
      NextDayOrdinal(t.date);
      Adjust(After, data, DateTime(NextDay(t.date), t.time))
  }

  /** The two ways one test of the BEFORE loop's condition can go on from `t`. */
  lemma ScanBeforeCases(data: HolidayData, t: DateTime) returns (h: bool)
    requires IsValid(t.date) && ScanBefore(data, t).Ok?
    ensures CheckIfHoliday(data, t.date) == Ok(h)
    ensures !h ==> ScanBefore(data, t) == Ok(t)
    ensures h ==> ScanBefore(data, t) == Adjust(Before, data, DateTime(PrevDay(t.date), t.time))
  {
    assert ScanBefore(data, t) == ScanBeforeStep(data, t);
    var c := CheckIfHoliday(data, t.date);
    h := c.Ok? && c.value;
  }

  /** The two ways one test of the AFTER loop's condition can go on from `t`. */
  lemma ScanAfterCases(data: HolidayData, t: DateTime) returns (h: bool)
    requires IsValid(t.date) && ScanAfter(data, t).Ok?
    ensures CheckIfHoliday(data, t.date) == Ok(h)
    ensures !h ==> ScanAfter(data, t) == Ok(t)
    ensures h ==> ScanAfter(data, t) == Adjust(After, data, DateTime(NextDay(t.date), t.time))
  {
    assert ScanAfter(data, t) == ScanAfterStep(data, t);
    var c := CheckIfHoliday(data, t.date);
    h := c.Ok? && c.value;
  }

  /** The list `p` followed by the list in `r`, or the exception in `r`. */
  function Extend(p: seq<DateTime>, r: Result<seq<DateTime>>): Result<seq<DateTime>> {
    if r.Err? then r else Ok(p + r.value)
  }

  /** A day whose ordinal no raw candidate passes while the loop goes on: the end for
      NO_CHANGE and AFTER, whose appended date is not before its raw candidate; the last
      day of the last year with a data file for BEFORE, whose scan reads the candidate's year. */
  ghost function Horizon(policy: Holiday, data: HolidayData, endTime: DateTime): int
    requires IsValid(endTime.date)
  {
    if policy != Before then ToOrdinal(endTime.date)
    else if data == map[] then 0
    else DaysBeforeYear(LastYear(data) + 1)
  }

  /** The dates `make_datetime_list` appends after the cursor `now`: step the cursor, adjust
      the raw candidate, append it while it is before `endTime` and go on from the RAW
      candidate; stop at the first adjusted candidate that is not before `endTime`. */
  function Tail(repeat: Repeat, frequency: int, endTime: DateTime, policy: Holiday,
                data: HolidayData, now: DateTime): (r: Result<seq<DateTime>>)
    requires IsStepping(repeat, frequency)
    requires IsValid(now.date) && IsValid(endTime.date)
    decreases Horizon(policy, data, endTime) - ToOrdinal(now.date)
  {
    var step := Advance(repeat, frequency, now);
    if step.Err? then Err(step.error)
    else
      var raw := step.value;
      var adjusted := Adjust(policy, data, raw);
      if adjusted.Err? then Err(adjusted.error)
      else if DateTimeLess(adjusted.value, endTime) then
        AdvanceMovesForward(repeat, frequency, now);
        BelowHorizon(policy, data, endTime, raw);
        Extend([adjusted.value], Tail(repeat, frequency, endTime, policy, data, raw))
      else Ok([])
  }

  /** Every date `Tail` appends is a valid date before the end. */
  lemma {:induction false} TailBeforeEnd(repeat: Repeat, frequency: int, endTime: DateTime, policy: Holiday,
                                         data: HolidayData, now: DateTime, tail: seq<DateTime>)
    requires IsStepping(repeat, frequency) && IsValid(now.date) && IsValid(endTime.date)
    requires Tail(repeat, frequency, endTime, policy, data, now) == Ok(tail)
    ensures forall i :: 0 <= i < |tail| ==> IsValid(tail[i].date) && DateTimeLess(tail[i], endTime)
    decreases |tail|
  {
    if |tail| > 0 {
      var raw, rest := TailRound(repeat, frequency, endTime, policy, data, now, tail);
      TailBeforeEnd(repeat, frequency, endTime, policy, data, raw, rest);
    }
  }

  /** One round of `Tail` taken apart: the raw candidate, the appended date, and the rest. */
  lemma TailRound(repeat: Repeat, frequency: int, endTime: DateTime, policy: Holiday,
                  data: HolidayData, now: DateTime, tail: seq<DateTime>)
    returns (raw: DateTime, rest: seq<DateTime>)
    requires IsStepping(repeat, frequency) && IsValid(now.date) && IsValid(endTime.date)
    requires Tail(repeat, frequency, endTime, policy, data, now) == Ok(tail) && |tail| > 0
    ensures Advance(repeat, frequency, now) == Ok(raw) && IsValid(raw.date)
    ensures Tail(repeat, frequency, endTime, policy, data, raw) == Ok(rest)
    ensures Adjust(policy, data, raw) == Ok(tail[0]) && DateTimeLess(tail[0], endTime)
    ensures tail == [tail[0]] + rest
  {
    TailSteps(repeat, frequency, endTime, policy, data, now);
    raw := Advance(repeat, frequency, now).value;
    rest := Tail(repeat, frequency, endTime, policy, data, raw).value;
  }

  /** `make_datetime_list`: the start, unadjusted, then for a stepping cadence the dates
      appended after it, each before the end; ONCE gives the start alone. */
  function Occurrences(repeat: Repeat, frequency: int, start: DateTime, endTime: DateTime,
                       policy: Holiday, data: HolidayData): (r: Result<seq<DateTime>>)
    requires repeat != Yearly && (repeat == Once || frequency >= 1)
    requires IsValid(start.date) && IsValid(endTime.date)
    ensures r.Ok? ==> |r.value| >= 1 && r.value[0] == start
    ensures r.Ok? ==> forall i :: 1 <= i < |r.value| ==> DateTimeLess(r.value[i], endTime)
    ensures repeat == Once ==> r == Ok([start])
  {
    if repeat == Once then Ok([start])
    else
      var tail := Tail(repeat, frequency, endTime, policy, data, start);
      if tail.Err? then Err(tail.error)
      else
        TailBeforeEnd(repeat, frequency, endTime, policy, data, start, tail.value);
        Ok([start] + tail.value)
  }

  /** A rule, with the fields `__init__` sets once. */
  class Rule {
    const startTime: DateTime
    const repeat: Repeat
    const repeatFrequency: int
    const endTime: DateTime
    const holiday: Holiday

    /** `Rule.__init__`: an omitted end becomes midnight of 1 January of the next year. */
    constructor (startTime: DateTime, repeat: Repeat, repeatFrequency: int,
                 endTime: Option<DateTime> := None, holiday: Holiday := NoChange)
      requires IsValid(startTime.date)
      ensures this.startTime == startTime && this.repeat == repeat
      ensures this.repeatFrequency == repeatFrequency && this.holiday == holiday
      ensures endTime.Some? ==> this.endTime == endTime.value
      ensures endTime.None? ==> this.endTime == DefaultEnd(startTime)
    {
      this.startTime := startTime;
      this.repeat := repeat;
      this.repeatFrequency := repeatFrequency;
      this.endTime := if endTime.None? then DefaultEnd(startTime) else endTime.value;
      this.holiday := holiday;
    }

    /** `make_datetime_list`, with the holiday data files given as `data`. */
    method MakeDateTimeList(data: HolidayData) returns (r: Result<seq<DateTime>>)
      requires repeat != Yearly && (repeat == Once || repeatFrequency >= 1)
      requires IsValid(startTime.date) && IsValid(endTime.date)
      ensures r == Occurrences(repeat, repeatFrequency, startTime, endTime, holiday, data)
    {
      var result := [startTime];
      if repeat == Once {
        return Ok(result);
      }
      ghost var goal := Occurrences(repeat, repeatFrequency, startTime, endTime, holiday, data);
      var now := startTime;
      while true
        invariant IsValid(now.date)
        invariant Extend(result, Tail(repeat, repeatFrequency, endTime, holiday, data, now)) == goal
        decreases Horizon(holiday, data, endTime) - ToOrdinal(now.date)
      {
        ghost var previous := now;
        var step := Advance(repeat, repeatFrequency, now);
        if step.Err? {
          TailSteps(repeat, repeatFrequency, endTime, holiday, data, previous);
          return Err(step.error);
        }
        now := step.value;
        var adjusted := ApplyHolidayPolicy(holiday, data, now);
        TailSteps(repeat, repeatFrequency, endTime, holiday, data, previous);
        if adjusted.Err? {
          return Err(adjusted.error);
        }
        var nextDay := adjusted.value;
        if DateTimeLess(nextDay, endTime) {
          AdvanceMovesForward(repeat, repeatFrequency, previous);
          BelowHorizon(holiday, data, endTime, now);
          ExtendAppend(result, nextDay, Tail(repeat, repeatFrequency, endTime, holiday, data, now));
          result := result + [nextDay];
        } else {
          assert result + [] == result;
          break;
        }
      }
      return Ok(result);
    }
  }

  /** The policy block of `make_datetime_list`: `next_day` starts at the raw candidate and
      BEFORE and AFTER run their loops from it. */
  method ApplyHolidayPolicy(policy: Holiday, data: HolidayData, raw: DateTime) returns (r: Result<DateTime>)
    requires IsValid(raw.date)
    ensures r == Adjust(policy, data, raw)
  {
    if policy == Before {
      r := StepBackPastHolidays(data, raw);
    } else if policy == After {
      r := StepForwardPastHolidays(data, raw);
    } else {
      r := Ok(raw);
    }
  }

  /** The inner loop of `make_datetime_list` for BEFORE: step back one day at a time
      while the day is a holiday. */
  method StepBackPastHolidays(data: HolidayData, raw: DateTime) returns (r: Result<DateTime>)
    requires IsValid(raw.date)
    ensures r == ScanBefore(data, raw)
  {
    var nextDay := raw;
    var isHoliday := CheckIfHoliday(data, nextDay.date);
    while isHoliday.Ok? && isHoliday.value
      invariant IsValid(nextDay.date)
      invariant isHoliday == CheckIfHoliday(data, nextDay.date)
      invariant ScanBefore(data, nextDay) == ScanBefore(data, raw)
      decreases if nextDay.date.year in data
                then ToOrdinal(nextDay.date) - DaysBeforeYear(FirstYear(data)) else 0
    {
      YearInTable(data, nextDay.date);
      PrevDayOrdinal(nextDay.date);
      assert ScanBefore(data, nextDay) == ScanBeforeStep(data, nextDay);
      nextDay := DateTime(PrevDay(nextDay.date), nextDay.time);
      isHoliday := CheckIfHoliday(data, nextDay.date);
    }
    if isHoliday.Err? {
      return Err(isHoliday.error);
    }
    return Ok(nextDay);
  }

  /** The inner loop of `make_datetime_list` for AFTER: step forward one day at a time
      while the day is a holiday. */
  method StepForwardPastHolidays(data: HolidayData, raw: DateTime) returns (r: Result<DateTime>)
    requires IsValid(raw.date)
    ensures r == ScanAfter(data, raw)
  {
    var nextDay := raw;
    var isHoliday := CheckIfHoliday(data, nextDay.date);
    while isHoliday.Ok? && isHoliday.value
      invariant IsValid(nextDay.date)
      invariant isHoliday == CheckIfHoliday(data, nextDay.date)
      invariant ScanAfter(data, nextDay) == ScanAfter(data, raw)
      decreases if nextDay.date.year in data
                then DaysBeforeYear(LastYear(data) + 1) - ToOrdinal(nextDay.date) + 1 else 0
    {
      YearInTable(data, nextDay.date);
      NextDayOrdinal(nextDay.date);
      assert ScanAfter(data, nextDay) == ScanAfterStep(data, nextDay);
      nextDay := DateTime(NextDay(nextDay.date), nextDay.time);
      isHoliday := CheckIfHoliday(data, nextDay.date);
    }
    if isHoliday.Err? {
      return Err(isHoliday.error);
    }
    return Ok(nextDay);
  }

  // ---------------------------------------------------------------------------
  // Lemmas the engine's termination rests on
  // ---------------------------------------------------------------------------

  /** One round of the loop of `make_datetime_list`, as `Tail` describes it. */
  lemma TailSteps(repeat: Repeat, frequency: int, endTime: DateTime, policy: Holiday,
                  data: HolidayData, now: DateTime)
    requires IsStepping(repeat, frequency)
    requires IsValid(now.date) && IsValid(endTime.date)
    ensures var step := Advance(repeat, frequency, now);
            var tail := Tail(repeat, frequency, endTime, policy, data, now);
            && (step.Err? ==> tail == Err(step.error))
            && (step.Ok? ==>
                  var adjusted := Adjust(policy, data, step.value);
                  && (adjusted.Err? ==> tail == Err(adjusted.error))
                  && (adjusted.Ok? && !DateTimeLess(adjusted.value, endTime) ==> tail == Ok([]))
                  && (adjusted.Ok? && DateTimeLess(adjusted.value, endTime) ==>
                        tail == Extend([adjusted.value],
                                       Tail(repeat, frequency, endTime, policy, data, step.value))))
  {
  }

  lemma ExtendAppend(p: seq<DateTime>, x: DateTime, r: Result<seq<DateTime>>)
    ensures Extend(p, Extend([x], r)) == Extend(p + [x], r)
  {
    if r.Ok? {
      assert p + ([x] + r.value) == (p + [x]) + r.value;
    }
  }

  /** A stepping cadence moves the cursor strictly later, in the calendar and in ordinals. */
  lemma AdvanceMovesForward(repeat: Repeat, frequency: int, now: DateTime)
    requires IsStepping(repeat, frequency) && IsValid(now.date)
    requires Advance(repeat, frequency, now).Ok?
    ensures DateLess(now.date, Advance(repeat, frequency, now).value.date)
    ensures ToOrdinal(now.date) < ToOrdinal(Advance(repeat, frequency, now).value.date)
  {
    OrdinalOrder(now.date, Advance(repeat, frequency, now).value.date);
  }

  /** While the loop goes on, the raw candidate has not passed the horizon. */
  lemma BelowHorizon(policy: Holiday, data: HolidayData, endTime: DateTime, raw: DateTime)
    requires IsValid(raw.date) && IsValid(endTime.date)
    requires Adjust(policy, data, raw).Ok? && DateTimeLess(Adjust(policy, data, raw).value, endTime)
    ensures ToOrdinal(raw.date) <= Horizon(policy, data, endTime)
  {
    var a := Adjust(policy, data, raw).value;
    match policy
    case NoChange =>
      OrdinalOrder(endTime.date, raw.date);
    case After =>
      OrdinalOrder(a.date, raw.date);
      OrdinalOrder(endTime.date, a.date);
    case Before =>
      YearInTable(data, raw.date);
  }
}
