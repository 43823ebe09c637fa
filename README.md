# China workday API: the date-status core

This project models in Dafny the decision logic of a small web service that
says whether a date is a working day in mainland China. The code modelled is
in `main.py`, in three parts:

- **The date verdict** (`get_date_status`). The service asks the primary
  holiday calendar (the `chinese_calendar` package) whether the date is a
  working day and whether it is a designated holiday. It then picks a reason
  by a fixed order of cases. Next it cross-checks the holiday flag against a
  cached secondary holiday list (Nager.Date). Finally it attaches the
  holiday's name and the next rest day.
- **The next-rest-day scan** (`find_next_rest_day`). It walks forward one day
  at a time, up to a horizon, to the first day the calendar does not call a
  working day. A year the calendar has no rules for ends the scan with no
  result. The reported distance is counted from the clock's date, not from
  where the scan started.
- **The cache merge** (`update_auxiliary_cache`). It writes the fetched
  holidays of the current and the next year into the secondary index, but
  only for fetches that came back non-empty.

Files:

- `dates.dfy` (`Dates`): Python `date` values as ordinals (day 1 is Monday
  0001-01-01, the last is 9999-12-31). It also holds the weekday, the
  year/month/day conversion, `isoformat()` and `str()` of a year.
- `results.dfy` (`Results`): `Option`, and `Outcome`, the result of a call
  that may raise `NotImplementedError` or `OverflowError`.
- `holiday_source.dfy` (`HolidaySource`): the primary calendar as a pair of
  functions. Each may refuse a date of an unsupported year.
- `labels.dfy` (`Labels`): the weekday names and the fixed reason and warning
  texts.
- `aux_cache.dfy` (`AuxCache`): the secondary index and the merge step of the
  refresh job.
- `rest_day_scan.dfy` (`RestDayScan`): the scan as a loop. It is proved equal
  to a recursive definition, which lemmas then describe.
- `date_status.dfy` (`DateStatus`): the verdict for one date.

The parts of the program outside the core are parameters:

- the calendar package's answers are a `Calendar` value;
- the clock's date is `today`;
- the secondary index as loaded from its cache file is a `Cache`;
- the network fetch of a year's holidays is a function from the year to what
  the fetch returned, which may be empty.

A year the calendar has no rules for ends the scan with no result: the
`NotImplementedError` handler breaks out of the loop and the function returns
`None` (main.py:128-130). Stepping
past 9999-12-31 raises `OverflowError` at main.py:118. That step is outside
the `try`, and nothing catches it, so the model has it as an outcome of the
scan and of the verdict.

## Model

| member | source | states |
|---|---|---|
| `DateStatus.GetDateStatus` | main.py:133-176 | A refused date raises NotImplementedError, and only then. A scan overflow raises OverflowError, and only then. Otherwise the verdict has the date's ISO text, `WEEKDAY_NAMES[weekday]` and the calendar's working-day flag. Its reason follows the five-case order. It has a warning exactly when the year's cached list is non-empty and the holiday flag differs from whether the date is listed, and the warning is the fixed disagreement text. It has a holiday name exactly for a holiday with a non-empty name, and that name is also the reason. Its next rest day is the 30-day scan from the date. |
| `DateStatus.Detail` | main.py:140-150 | A holiday gets its name, or "法定节假日" when it has none, whatever else holds. Otherwise: "调休补班" exactly for a working Saturday/Sunday; "休息日" exactly for a Monday-Friday off; "正常工作日" exactly for a working Monday-Friday; "周末" exactly for a Saturday/Sunday off. The reason is never empty. |
| `DateStatus.Warning` | main.py:152-164 | A warning exists exactly when the year's key is in the index with a non-empty list and the holiday flag differs from whether the date text is in that list. The warning text is the fixed disagreement message. |
| `DateStatus.NoCrossCheckNoWarning` | main.py:153-158 | A year missing from the index, or cached empty, never produces a warning. |
| `DateStatus.ScannedRestDayStatus` | main.py:120-126 | The day the scan reports is not a working day by the verdict for that day. It has the same date text and weekday name there. The scan's detail matches the verdict's reason when there is a holiday name, and is "周末" otherwise. |
| `RestDayScan.RestDayRecord` | main.py:122-127 | The record's distance added to `today` gives back the rest day. Its date is the day's ISO text and its weekday the day's name. Its detail is the holiday name for a holiday with a non-empty name and "周末" otherwise, so it is never empty. |
| `RestDayScan.FindNextRestDay` | main.py:115-130 | The loop returns exactly the outcome of the scan definition `Scan`. |
| `RestDayScan.ScanFrom` | main.py:117-130 | The scan never lets NotImplementedError escape. |
| `RestDayScan.FoundRestDayIsFirst` | main.py:117-127 | Let `d` be `today + days_from_now` for a reported rest day. Then `from < d <= from + max_days`, `d` is not a working day, and every day strictly between `from` and `d` is a working day. The record holds `d`'s ISO text and weekday name. Its detail is the holiday name for a named holiday and "周末" otherwise. |
| `RestDayScan.FirstRestDayIsFound` | main.py:117-127 | Conversely, the first non-working day within the horizon whose detail the calendar gives is the one reported. Its distance is `d - today`, whatever `from` is. |
| `RestDayScan.ScanSkipsWorkingDays` | main.py:117-120 | Working days are skipped: resuming the scan after a run of them gives the same outcome. |
| `RestDayScan.UnsupportedYearStopsScan` | main.py:119-130 | A refused day, reached before any rest day, ends the scan with no result and no error. This covers a refusal of either calendar query. |
| `RestDayScan.NoRestDayWithinHorizon` | main.py:117-130 | When every day of the horizon is a working day, the result is no rest day, not an error. |
| `RestDayScan.ScanPastLastDateOverflows` | main.py:117-118 | With only working days up to 9999-12-31 and a horizon past it, the date step raises OverflowError. |
| `AuxCache.MergeFetched` | main.py:102-108 | Each of the current year of `today` and the year after, when its fetch is non-empty, gets exactly its fetched list. Every other key, including a year whose fetch came back empty, keeps its presence and its value. No other key appears. |
| `AuxCache.RefreshYears` | main.py:104 | The refresh covers exactly two years, the current one first and then the next. |
| `AuxCache.YearKeyPrefixesIsoFormat` | main.py:155-156 | For a date in a year from 1000 on, the key of its year is the first four characters of its ISO text. |
| `Labels.WeekdayName` | main.py:137-138 | The weekday name is one of the seven fixed labels. It is "周六" or "周日" exactly on a Saturday or Sunday. |
| `Dates.Weekday` | main.py:137 | `date.weekday()` is between 0 and 6. |
| `Dates.WeekdayOfKnownDates` | main.py:137 | The weekday is anchored to the calendar: 2002-12-04 gives 2 (Wednesday) and 0001-01-01 gives 0 (Monday). |
| `Dates.FromOrdinal` | main.py:155-156 | The year/month/day read from a date is a valid calendar date that converts back to the same day. |
| `Dates.FromToOrdinal` | main.py:155 | Converting a valid year/month/day to its ordinal and back gives the same year, month and day. The ordinal is always representable. |
| `Dates.IsoFormat` | main.py:156 | `date.isoformat()` is ten characters with dashes at positions 4 and 7. |
| `Dates.IsoFormatOfYmd` | main.py:156 | The ISO text of the date with a given year, month and day is those three numbers written as YYYY-MM-DD. |
| `Dates.FormatYmdPads` | main.py:156 | The year is zero-padded to four digits and the month and day to two: 2026-02-05 and 0987-10-31. |
| `Dates.Decimal` | main.py:155 | `str(n)` of a non-negative integer is non-empty, and it is one character exactly when `n` is below 10. `AuxCache.YearKey` is this text of the year. |
| `Dates.DecimalDigits` | main.py:155 | Every character of `str(n)` is a decimal digit, and it starts with `0` only for zero. |
| `Dates.IsoFormatInjective` | main.py:156-159 | Different dates have different ISO texts. The index lookup is therefore about that exact date. |
| `Dates.DecimalInjective` | main.py:107 | Different years have different `str(year)` keys. The two refreshed years therefore never overwrite each other. |

## Left out

- HTTP handlers, the JSON response class, the redirect and the removal of `next_rest_day` from responses (main.py:19-23, 197-251): web-framework glue.
- Parsing of date text in `check_date` (main.py:254-295): it relies on `datetime.strptime`, which is not part of this model. It tries the formats in order and the first that parses wins. Turning `NotImplementedError` into a client error is part of the same handler.
- `load_cache` / `save_cache` (main.py:39-52): file I/O. The model takes the index as loaded and returns the index to be saved. An unreadable file becoming an empty index is not modelled, and neither is a cache file whose JSON has other shapes than year -> date -> name.
- `fetch_nager_holidays` (main.py:55-67): a network call with a timeout that swallows failures into an empty result. It is modelled as an arbitrary function from the year to a possibly empty list.
- `update_library` (main.py:73-96): it runs pip and reloads the calendar package.
- The scheduler and lifespan wiring (main.py:181-194): asynchronous job scheduling.
- The contents of the `chinese_calendar` package: it is not part of this model. The two queries are arbitrary functions. The model assumes no relation between them, neither that they refuse the same years nor any link between the holiday flag and weekends.
- `date.today()`: the clock is read outside the model and passed in as `today`.
- Logging.
