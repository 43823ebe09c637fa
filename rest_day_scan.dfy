/**
 * `find_next_rest_day`: scan forward from a date, one day at a time, for the
 * first day the holiday calendar does not call a working day.
 *
 * The scan looks at the days `from + 1 .. from + maxDays` in order. A day the
 * calendar refuses (its year has no rules) ends the scan with no result, and so
 * does a horizon without a rest day. The reported distance is counted from
 * "today", the clock's date, which is a parameter here, not from the day the
 * scan started at. Stepping past 9999-12-31 raises `OverflowError`, which the
 * scan does not catch.
 */
module RestDayScan {
  import opened Results
  import opened Dates
  import opened HolidaySource
  import opened Labels

  /** The record `find_next_rest_day` returns for a rest day. */
  datatype NextRestDay = NextRestDay(date: string, weekday: string, detail: string, daysFromNow: int)

  /** The record for rest day `d` whose holiday detail is `h`, seen on day `today`. */
  function RestDayRecord(today: Day, d: Day, h: HolidayDetail): (r: NextRestDay)
    ensures today + r.daysFromNow == d
    ensures r.date == IsoFormat(d) && r.weekday == WeekdayNames[Weekday(d)]
    ensures h.onHoliday && HasName(h) ==> r.detail == h.name.value
    ensures !(h.onHoliday && HasName(h)) ==> r.detail == Weekend
    ensures r.detail != ""
  {
    NextRestDay(
      IsoFormat(d),
      WeekdayName(d),
      if h.onHoliday && HasName(h) then h.name.value else Weekend,
      d - today)
  }

  /** All of the days `lo .. hi - 1` are representable working days. */
  ghost predicate WorkingDays(cal: Calendar, lo: int, hi: int) {
    (lo < hi ==> 1 <= lo && hi - 1 <= MaxOrdinal) &&
    forall e: Day :: lo <= e < hi ==> cal.isWorkday(e) == Answer(true)
  }

  /** What the scan stops at: a rest day with its holiday detail, or nothing. */
  datatype Found = Found(day: Day, detail: HolidayDetail)

  /** The scan, resumed at offset `i` from `from`: the first rest day it reaches, if any. */
  function ScanFrom(cal: Calendar, from: Day, i: int, maxDays: int): (r: Outcome<Option<Found>>)
    requires 1 <= i
    ensures r != Raised(NotImplementedError)
    decreases maxDays - i
  {
    if i > maxDays then Returned(None)
    else if from + i > MaxOrdinal then Raised(OverflowError)
    else
      var d: Day := from + i;
      match cal.isWorkday(d)
      case NotImplemented => Returned(None)
      case Answer(true) => ScanFrom(cal, from, i + 1, maxDays)
      case Answer(false) =>
        match cal.holidayDetail(d)
        case NotImplemented => Returned(None)
        case Answer(h) => Returned(Some(Found(d, h)))
  }

  /** The outcome of `find_next_rest_day(from, maxDays)` on day `today`. */
  function Scan(cal: Calendar, today: Day, from: Day, maxDays: int): Outcome<Option<NextRestDay>> {
    match ScanFrom(cal, from, 1, maxDays)
    case Raised(e) => Raised(e)
    case Returned(None) => Returned(None)
    case Returned(Some(f)) => Returned(Some(RestDayRecord(today, f.day, f.detail)))
  }

  /** `find_next_rest_day` as the loop it is. */
  method FindNextRestDay(cal: Calendar, today: Day, from: Day, maxDays: int) returns (r: Outcome<Option<NextRestDay>>)
    ensures r == Scan(cal, today, from, maxDays)
  {
    var i := 1;
    while i <= maxDays
      invariant 1 <= i
      invariant ScanFrom(cal, from, i, maxDays) == ScanFrom(cal, from, 1, maxDays)
      decreases maxDays - i
    {
      if from + i > MaxOrdinal {
        assert ScanFrom(cal, from, 1, maxDays) == Raised(OverflowError);
        return Raised(OverflowError);
      }
      var d: Day := from + i;
      var working := cal.isWorkday(d);
      if working.NotImplemented? {
        assert ScanFrom(cal, from, 1, maxDays) == Returned(None);
        break;
      }
      if !working.value {
        var detail := cal.holidayDetail(d);
        if detail.NotImplemented? {
          assert ScanFrom(cal, from, 1, maxDays) == Returned(None);
          break;
        }
        var found := Found(d, detail.value);
        assert ScanFrom(cal, from, 1, maxDays) == Returned(Some(found));
        return Returned(Some(RestDayRecord(today, found.day, found.detail)));
      }
      i := i + 1;
    }
    assert ScanFrom(cal, from, 1, maxDays) == Returned(None);
    return Returned(None);
  }

  lemma {:induction false} ScanFromFindsFirstRestDay(cal: Calendar, from: Day, i: int, maxDays: int, f: Found)
    requires 1 <= i
    requires ScanFrom(cal, from, i, maxDays) == Returned(Some(f))
    ensures from + i <= f.day <= from + maxDays && WorkingDays(cal, from + i, f.day)
    ensures cal.isWorkday(f.day) == Answer(false) && cal.holidayDetail(f.day) == Answer(f.detail)
    decreases maxDays - i
  {
    var d: Day := from + i;
    if cal.isWorkday(d) == Answer(true) {
      ScanFromFindsFirstRestDay(cal, from, i + 1, maxDays, f);
    }
  }

  /**
   * A rest day found lies within the horizon after `from`, is not a working
   * day, every day between `from` and it is a working day, and its record
   * describes it, with the distance counted from `today`.
   */
  lemma FoundRestDayIsFirst(cal: Calendar, today: Day, from: Day, maxDays: int, rest: NextRestDay)
    requires Scan(cal, today, from, maxDays) == Returned(Some(rest))
    ensures from < today + rest.daysFromNow <= from + maxDays && today + rest.daysFromNow <= MaxOrdinal
    ensures WorkingDays(cal, from + 1, today + rest.daysFromNow)
    ensures cal.isWorkday(today + rest.daysFromNow) == Answer(false)
    ensures match cal.holidayDetail(today + rest.daysFromNow)
      case Answer(h) => rest == RestDayRecord(today, today + rest.daysFromNow, h)
      case NotImplemented => false
  {
    var f := ScanFrom(cal, from, 1, maxDays).value.value;
    ScanFromFindsFirstRestDay(cal, from, 1, maxDays, f);
    assert rest == RestDayRecord(today, f.day, f.detail);
    assert today + rest.daysFromNow == f.day;
    assert cal.holidayDetail(f.day) == Answer(f.detail);
  }

  /** Resuming the scan after a run of working days gives the outcome of the whole scan. */
  lemma {:induction false} ScanSkipsWorkingDays(cal: Calendar, from: Day, i: int, j: int, maxDays: int)
    requires 1 <= i <= j <= maxDays + 1
    requires WorkingDays(cal, from + i, from + j)
    ensures ScanFrom(cal, from, i, maxDays) == ScanFrom(cal, from, j, maxDays)
    decreases j - i
  {
    if i < j {
      assert 1 <= from + i <= MaxOrdinal && cal.isWorkday(from + i) == Answer(true);
      ScanSkipsWorkingDays(cal, from, i + 1, j, maxDays);
    }
  }

  /** The first non-working day within the horizon is the one reported, whatever day `from` is. */
  lemma FirstRestDayIsFound(cal: Calendar, today: Day, from: Day, maxDays: int, d: Day)
    requires from < d <= from + maxDays
    requires WorkingDays(cal, from + 1, d)
    requires cal.isWorkday(d) == Answer(false) && cal.holidayDetail(d).Answer?
    ensures Scan(cal, today, from, maxDays) == Returned(Some(RestDayRecord(today, d, cal.holidayDetail(d).value)))
    ensures Scan(cal, today, from, maxDays).value.value.daysFromNow == d - today
  {
    ScanSkipsWorkingDays(cal, from, 1, d - from, maxDays);
  }

  /**
   * A day the calendar refuses, reached before any rest day, ends the scan
   * with no result rather than an error.
   */
  lemma UnsupportedYearStopsScan(cal: Calendar, today: Day, from: Day, maxDays: int, d: Day)
    requires from < d <= from + maxDays
    requires WorkingDays(cal, from + 1, d)
    requires cal.isWorkday(d) == NotImplemented ||
             (cal.isWorkday(d) == Answer(false) && cal.holidayDetail(d) == NotImplemented)
    ensures Scan(cal, today, from, maxDays) == Returned(None)
  {
    ScanSkipsWorkingDays(cal, from, 1, d - from, maxDays);
  }

  /** When every day of the horizon is a working day the scan returns no result, not an error. */
  lemma NoRestDayWithinHorizon(cal: Calendar, today: Day, from: Day, maxDays: int)
    requires WorkingDays(cal, from + 1, from + maxDays + 1)
    ensures Scan(cal, today, from, maxDays) == Returned(None)
  {
    if 1 <= maxDays {
      ScanSkipsWorkingDays(cal, from, 1, maxDays + 1, maxDays);
    }
  }

  /** Working days up to 9999-12-31 with the horizon reaching beyond it: the step past it overflows. */
  lemma ScanPastLastDateOverflows(cal: Calendar, today: Day, from: Day, maxDays: int)
    requires MaxOrdinal < from + maxDays
    requires WorkingDays(cal, from + 1, MaxOrdinal + 1)
    ensures Scan(cal, today, from, maxDays) == Raised(OverflowError)
  {
    ScanSkipsWorkingDays(cal, from, 1, MaxOrdinal + 1 - from, maxDays);
  }
}
