# Holiday-aware recurrence rules, in Dafny

`ics_make.py` turns a recurring event into the list of dates an iCalendar file will carry.
Its core is the class `Rule`. A rule holds a start `datetime`, a cadence (`Repeat`: ONCE,
DAILY, WEEKLY, MONTHLY, YEARLY), an interval, an exclusive end `datetime` (midnight of the
next New Year's Day when omitted) and a holiday policy (`Holiday`: NO_CHANGE, BEFORE, AFTER).
`make_datetime_list` moves a cursor through the cadence. Each raw candidate is handed to the
policy: NO_CHANGE keeps it, BEFORE walks back to the nearest working day, AFTER walks forward
to one. The adjusted date is appended while it is before the end. A day is off when its
year's table marks its "MMDD" key with a non-zero code; dates absent from the table fall back
to Saturday and Sunday.

The project has five modules:

- `Results` (`results.dfy`): the two exceptions the core can raise, a `ValueError` for an
  invalid date and the failed read of a year's holiday data file, plus `Result` and `Option`.
- `Dates` (`dates.dfy`): the part of Python's `datetime` the core relies on. This covers
  field-wise construction that refuses invalid dates, `toordinal`, `weekday`, `+`/`-` a
  `timedelta` of whole days, and `<`.
- `Holidays` (`holidays.dfy`): `check_if_chinese_holiday`, `check_if_huawei_workday` and
  `check_if_holiday`. The data files are given as one map from year to table.
- `Recurrence` (`recurrence.dfy`): the two enums and the specification functions.
  - `Advance` is one cadence step.
  - `Adjust`, `ScanBefore` and `ScanAfter` are the policy loops.
  - `Tail` and `Occurrences` are the whole list.
  - The class `Rule` has its constructor and `MakeDateTimeList`, a `while` loop with inner
    loops proved to compute `Occurrences`.
- `Properties` (`properties.dfy`): what the list is, round by round. `Cursor(…, k)` is the
  cursor after k rounds, and element k of the list is round k's raw candidate under the
  policy. The module also proves where the list stops, the literal arithmetic of each
  cadence, and the DAILY closed form.

Three behaviours follow the code literally, where a reader of the program's intent might
expect otherwise:

- **A missing data file raises.** It does not degrade to the weekend rule. The code prints
  a message and then opens the file anyway (`ics_make.py:43-45`), which raises. The model
  returns `Err(MissingHolidayData(year))`.
- **The makeup-workday test never fires.** It is not a last-Saturday-of-the-month test. Its
  guard compares the method object `date.weekday` with 5 (`ics_make.py:60`), which is never
  equal, so the function returns `False` at once.
- **WEEKLY and MONTHLY candidates are at midnight.** They are rebuilt from year, month and
  day alone, so they do not carry the start's time of day. DAILY keeps the time of day.

## Model

| member | source | states |
|---|---|---|
| Dates.Make | ics_make.py:105-106 | `datetime(year, month, day)` succeeds exactly when the fields name a calendar day and then holds those fields; otherwise it fails with `InvalidDate` of the same fields, never rolling over |
| Dates.DaysInMonth | ics_make.py:111-114 | a month has 28 to 31 days, and 29 exactly for February of a Gregorian leap year |
| Dates.ToOrdinal | ics_make.py:56 | definition of `toordinal()`; facts in `NextDayOrdinal`, `AddDaysOrdinal`, `OrdinalOrder`, `OrdinalInjective` |
| Dates.DateTimeLess | ics_make.py:122 | definition of `<` on `datetime`s: by date, then by time of day; the date part agrees with ordinals by `OrdinalOrder` |
| Dates.Weekday | ics_make.py:56 | `weekday()` is one of 0..6 |
| Dates.MondayAnchors | ics_make.py:56 | (example) `toordinal()` of 1 January of year 1 is 1 and of 1 January 2024 is 738886, and both days have weekday 0 (Monday) |
| Dates.WeekdayNextDay | ics_make.py:56 | the day after a date has the next weekday, modulo 7 |
| Dates.NextDay | ics_make.py:121 | `next_day + timedelta(days=1)` is a valid date strictly later than `next_day` |
| Dates.PrevDay | ics_make.py:118 | `next_day - timedelta(days=1)` is a valid date strictly earlier than `next_day` |
| Dates.NextDayOrdinal | ics_make.py:121 | the next day's ordinal is one more |
| Dates.PrevDayOrdinal | ics_make.py:118 | the previous day's ordinal is one less |
| Dates.AddDays | ics_make.py:103 | `d + timedelta(days=k)` is valid, later than `d` for k > 0 and earlier for k < 0 |
| Dates.AddDaysOrdinal | ics_make.py:103 | `d + timedelta(days=k)` is exactly k ordinals after `d` |
| Dates.AddDaysUnique | ics_make.py:103 | `d + timedelta(days=k)` is the one valid date whose ordinal is k more than `d`'s |
| Dates.OrdinalOrder | ics_make.py:122 | comparing valid dates field by field agrees with comparing their ordinals, both ways |
| Dates.OrdinalInjective | ics_make.py:122 | distinct valid dates have distinct ordinals |
| Holidays.MonthDayKey | ics_make.py:52 | definition of the zero-padded "MMDD" key; facts in `MonthDayKeyDigits`, `MonthDayKeyInjective`, `MonthDayKeyExamples` |
| Holidays.CheckIfChineseHoliday | ics_make.py:48-56 | definition: the year's table decides, the weekend test otherwise, a missing year fails; facts in `TableDecides`, `WeekendFallback`, `MissingYearFails` |
| Holidays.CheckIfHuaweiWorkday | ics_make.py:58-87 | definition: the guard at line 60 compares a method object with 5 and returns `False`; fact in `HuaweiWorkdayNeverHolds` |
| Holidays.CheckIfHoliday | ics_make.py:89-92 | definition: a makeup workday is a working day, otherwise the table decides; fact in `HuaweiWorkdayNeverHolds` |
| Holidays.MonthDayKeyDigits | ics_make.py:52 | the key is four decimal digits; the first two read back the month and the last two the day |
| Holidays.MonthDayKeyInjective | ics_make.py:52 | two dates of one year with the same key are the same date |
| Holidays.MonthDayKeyExamples | ics_make.py:52 | (example) 1 June gives "0601" and 31 December gives "1231" |
| Holidays.TableDecides | ics_make.py:53-54 | (definition unfolding) a date whose key is in its year's table is a holiday exactly when its code is non-zero |
| Holidays.WeekendFallback | ics_make.py:55-56 | (definition unfolding) a date whose key is not in the table is a holiday exactly when its weekday is 5 or 6 |
| Holidays.MissingYearFails | ics_make.py:41-51 | (definition unfolding) the classifier fails exactly when the date's year has no data file, with that year in the error |
| Holidays.HuaweiWorkdayNeverHolds | ics_make.py:58-92 | (definition unfolding) `check_if_huawei_workday` is false for every date, so `check_if_holiday` equals `check_if_chinese_holiday` on every date |
| Recurrence.DefaultEnd | ics_make.py:35-37 | the default end is midnight of 1 January of the next year: after the start, after every day of the start's year and after no day of a later year |
| Recurrence.Rule.constructor | ics_make.py:27-39 | every argument is stored unchanged, except that an omitted end becomes `DefaultEnd(start_time)` |
| Recurrence.Advance | ics_make.py:102-114 | a cadence step that does not raise gives a valid date |
| Recurrence.Adjust | ics_make.py:115-121 | the adjusted date keeps the candidate's time of day; under BEFORE it is not after the candidate and under AFTER not before it; the only failure is a missing data file |
| Recurrence.ScanBefore | ics_make.py:116-118 | the BEFORE loop ends on a date not after where it started, at the same time of day, or fails on a missing data file |
| Recurrence.ScanAfter | ics_make.py:119-121 | the AFTER loop ends on a date not before where it started, at the same time of day, or fails on a missing data file |
| Recurrence.ScanBeforeCases | ics_make.py:117-118 | one test of the BEFORE condition: the classifier answers `h` for the current day; a working day ends the loop there, a holiday continues from the day before |
| Recurrence.ScanAfterCases | ics_make.py:120-121 | one test of the AFTER condition: the classifier answers `h` for the current day; a working day ends the loop there, a holiday continues from the day after |
| Recurrence.StepBackPastHolidays | ics_make.py:116-118 | the BEFORE `while` loop computes `ScanBefore` |
| Recurrence.StepForwardPastHolidays | ics_make.py:119-121 | the AFTER `while` loop computes `ScanAfter` |
| Recurrence.ApplyHolidayPolicy | ics_make.py:115-121 | the policy block computes `Adjust` |
| Recurrence.Rule.MakeDateTimeList | ics_make.py:94-126 | the loop computes `Occurrences`, the list or the exception |
| Recurrence.Occurrences | ics_make.py:94-126 | the list starts with `start_time`, unadjusted; every later date is before the end; ONCE gives exactly `[start_time]` |
| Recurrence.Tail | ics_make.py:99-125 | definition of the dates the loop appends after the cursor; facts in `TailSteps`, `TailRound`, `TailBeforeEnd` and, against `Cursor`, `TailFollowsCursor`, `TailStopsAtFirstLate` |
| Recurrence.TailBeforeEnd | ics_make.py:122-123 | every date appended after the start is a valid date before the end |
| Recurrence.TailSteps | ics_make.py:100-125 | (definition unfolding) one round: a raising step or scan ends the list with that exception; a late adjusted date ends it; otherwise the adjusted date is appended and the loop continues from the raw candidate |
| Recurrence.TailRound | ics_make.py:100-125 | a list that goes on: its first date is the adjusted first raw candidate, before the end, and the rest is the list from the raw candidate, not from the adjusted date |
| Recurrence.AdvanceMovesForward | ics_make.py:102-114 | a DAILY, WEEKLY or MONTHLY step with interval at least 1 moves the cursor strictly later |
| Recurrence.BelowHorizon | ics_make.py:115-123 | while the loop goes on, the raw candidate has not passed a bound fixed by the end and the data files, so the loop terminates |
| Properties.Cursor | ics_make.py:99-114 | the cursor `now` after k rounds, stepping from raw candidate to raw candidate, is a valid date when no step raised; the reference `TailFollowsCursor` relates the list to |
| Properties.AdvanceDaily | ics_make.py:102-103 | DAILY never raises and moves `f` days on at the same time of day |
| Properties.AdvanceWeekly | ics_make.py:104-106 | (definition unfolding) WEEKLY succeeds exactly when day + f is a day of the same month, gives that day at midnight, and otherwise raises for (year, month, day + f) |
| Properties.AdvanceMonthly | ics_make.py:107-114 | (definition unfolding) MONTHLY moves f months on with one 12-month rollover, keeps the day, is at midnight, and raises when that day or month does not exist |
| Properties.WeeklyDoesNotRollOver | ics_make.py:104-106 | (example) 29 January 2024 plus a week raises for day 36 instead of giving 5 February |
| Properties.MonthlyDoesNotClamp | ics_make.py:107-114 | (example) 31 January 2024 plus a month raises for 31 February instead of clamping |
| Properties.MonthlyRollsOverOnce | ics_make.py:108-112 | (example) December plus 13 months asks for month 13 of the next year, and raises |
| Properties.NoChangeKeepsCandidate | ics_make.py:115 | (definition unfolding) NO_CHANGE appends the raw candidate itself and never reads the data files |
| Properties.AdjustMeetsPolicy | ics_make.py:115-121 | NO_CHANGE keeps the candidate; BEFORE gives a working day not after it and AFTER one not before it, at the same time of day |
| Properties.ScanBeforeLandsOnWorkday | ics_make.py:117-118 | the BEFORE loop stops only on a day `check_if_holiday` calls a working day |
| Properties.ScanAfterLandsOnWorkday | ics_make.py:120-121 | the AFTER loop stops only on a day `check_if_holiday` calls a working day |
| Properties.ScanBeforeSkipsOnlyHolidays | ics_make.py:117-118 | every day after the BEFORE result, up to the candidate, is a holiday: the result is the nearest working day |
| Properties.ScanAfterSkipsOnlyHolidays | ics_make.py:120-121 | every day from the candidate up to the AFTER result is a holiday: the result is the nearest working day |
| Properties.BeforeSkipsSaturday | ics_make.py:116-118 | (example) Saturday 15 June 2024, absent from the table, moves back to Friday 14 June |
| Properties.BeforeNeedsPreviousYear | ics_make.py:116-118 | (example) BEFORE from a New Year's Day holiday reads the previous year and raises when that year has no data file |
| Properties.TailFollowsCursor | ics_make.py:99-123 | the k-th appended date is the adjusted k-th raw candidate, the cursor moving from raw candidate to raw candidate |
| Properties.TailStopsAtFirstLate | ics_make.py:122-125 | the round after the last appended date gives an adjusted date that is not before the end |
| Properties.OccurrencesSplit | ics_make.py:95-99 | (definition unfolding) for a stepping cadence the list is the start followed by the appended dates |
| Properties.OccurrencesFollowPolicy | ics_make.py:99-123 | element i >= 1 of the list is the adjusted cursor after i rounds |
| Properties.OccurrencesMeetPolicy | ics_make.py:115-123 | element i >= 1 of the list meets the policy against the cursor after i rounds |
| Properties.OccurrencesStopAtEnd | ics_make.py:122-125 | the round after the list's last date gives an adjusted date that is not before the end |
| Properties.DailyCursor | ics_make.py:102-103 | k DAILY rounds move the cursor k·f days on, at the same time of day |
| Properties.DailyNoChangeSucceeds | ics_make.py:102-125 | DAILY with NO_CHANGE never raises |
| Properties.DailyNoChangeDates | ics_make.py:99-125 | DAILY with NO_CHANGE gives start + k·f days for k = 0 … n−1, and start + n·f days is not before the end |
| Properties.DailyExample | ics_make.py:94-126 | (example) DAILY with interval 1 from 2024-01-01 up to 2024-01-04 gives the 1st, 2nd and 3rd of January |

## Left out

- `make_event`, the `Calendar`/`Event`/`Alarm` objects, the UID from `time.localtime` and
  the `__main__` file writing (`ics_make.py:129-159`) are left out. They are iCalendar
  serialisation in a foreign library, and file I/O.
- `load_holiday_data` (`ics_make.py:41-46`) is not modelled as a file read. Its JSON
  parsing and `lru_cache` are replaced by the input map from year to table. A year without
  a file fails as `open` does, and the "data not exist" message printed before that is
  left out.
- The last-Saturday test and the two counting scans of `check_if_huawei_workday`
  (`ics_make.py:62-87`) are unreachable behind the guard at line 60, so they are not
  modelled.
- Recurrence.Rule.MakeDateTimeList: YEARLY is excluded by its precondition, so the model
  says nothing about it. The loop has no branch for YEARLY and the cursor never moves.
  Under BEFORE or AFTER the first round's scan raises `FileNotFoundError` when it reaches a
  year without a data file (`ics_make.py:45`, `117-121`). Otherwise the list is
  `[start_time]` when the first adjusted date is not before the end, and the loop does not
  end when it is before the end.
- Recurrence.Rule.MakeDateTimeList: an interval below 1 is excluded for DAILY, WEEKLY and
  MONTHLY, so the model says nothing about those inputs either.
  - With interval 0 the cursor stands still after the first round. Under BEFORE or AFTER
    the first round's scan raises `FileNotFoundError` when it reaches a year without a data
    file (`ics_make.py:45`, `117-121`). Otherwise the list is `[start_time]` when the first
    adjusted date is not before the end, and the loop does not end when it is before the
    end.
  - With a negative interval the cursor moves back. WEEKLY raises `ValueError` once the
    day field drops below 1 (`ics_make.py:105-106`). MONTHLY keeps the day field and raises
    `ValueError` once the month drops below 1 or the kept day does not exist in the target
    month (`ics_make.py:114`). DAILY under NO_CHANGE walks back to Python's first year and
    raises `OverflowError`. Under BEFORE or AFTER, every cadence raises `FileNotFoundError`
    when a scan reaches a year without a data file (`ics_make.py:45`, `117-121`), which for
    DAILY happens at the latest when the cursor walks out of the data years. Any of them
    stops earlier, without raising, at an adjusted date that is not before the end.
- Python's year range (`MINYEAR`/`MAXYEAR`) and the `OverflowError` past it are not
  modelled: years are unbounded integers.
- Time zones are not modelled. The time of day is an opaque count of microseconds since
  midnight. It only takes part in the `< end_time` comparison and is kept or reset as each
  cadence does.
