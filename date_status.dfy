/**
 * `get_date_status`: the verdict for one date, combining the primary holiday
 * calendar with the cached secondary holiday index.
 *
 * The verdict carries the date's ISO text, its weekday name, whether it is a
 * working day, a reason (`detail`) chosen by a fixed order of cases, the next
 * rest day after it, a warning when the two sources disagree about whether the
 * date is a holiday, and the holiday's name when it is a named holiday. A date
 * the calendar refuses raises `NotImplementedError`; the clock's date `today`
 * and the loaded index are parameters.
 */
module DateStatus {
  import opened Results
  import opened Dates
  import opened HolidaySource
  import opened Labels
  import opened AuxCache
  import opened RestDayScan

  /** How far `get_date_status` looks for the next rest day (`max_days`' default). */
  const ScanHorizon := 30

  /** The dictionary `get_date_status` returns; `holidayName` is `None` when the key is absent. */
  datatype Status = Status(
    date: string,
    weekday: string,
    isWorkday: bool,
    detail: string,
    nextRestDay: Option<NextRestDay>,
    warning: Option<string>,
    holidayName: Option<string>)

  /**
   * The reason given for a date, by the first case that applies: a designated
   * holiday (its name, or the generic label when it has none); a working
   * Saturday or Sunday; a Monday to Friday off; any other working day; any
   * other day off.
   */
  function Detail(h: HolidayDetail, isWork: bool, weekday: int): (r: string)
    requires 0 <= weekday < 7
    ensures h.onHoliday ==> r == (if HasName(h) then h.name.value else StatutoryHoliday)
    ensures !h.onHoliday ==> (r == MakeUpWorkday <==> isWork && weekday >= 5)
    ensures !h.onHoliday ==> (r == RestDay <==> !isWork && weekday < 5)
    ensures !h.onHoliday ==> (r == NormalWorkday <==> isWork && weekday < 5)
    ensures !h.onHoliday ==> (r == Weekend <==> !isWork && weekday >= 5)
    ensures r != ""
  {
    if h.onHoliday then
      if HasName(h) then h.name.value else StatutoryHoliday
    else if isWork && weekday >= 5 then
      MakeUpWorkday
    else if !isWork && weekday < 5 then
      RestDay
    else if isWork then
      NormalWorkday
    else
      Weekend
  }

  /**
   * The cross-check against the secondary index. A year that is missing, or
   * cached with no holidays, gives no warning; otherwise there is a warning
   * exactly when the calendar's holiday flag differs from whether the date's
   * ISO text is listed for that year.
   */
  function Warning(onHoliday: bool, cache: Cache, year: nat, date: string): (r: Option<string>)
    ensures r.Some? <==> YearKey(year) in cache && cache[YearKey(year)] != map[] &&
                         onHoliday != (date in cache[YearKey(year)])
    ensures r.Some? ==> r.value == SourcesDisagree
  {
    var yearCache := if YearKey(year) in cache then cache[YearKey(year)] else map[];
    if yearCache != map[] then
      var listed := date in yearCache;
      if onHoliday && !listed then Some(SourcesDisagree)
      else if !onHoliday && listed then Some(SourcesDisagree)
      else None
    else None
  }

  /** `get_date_status(target)` evaluated on day `today` with the secondary index `cache`. */
  function GetDateStatus(cal: Calendar, cache: Cache, today: Day, target: Day): (r: Outcome<Status>)
    ensures r == Raised(NotImplementedError) <==>
              cal.isWorkday(target) == NotImplemented || cal.holidayDetail(target) == NotImplemented
    ensures r == Raised(OverflowError) <==>
              cal.isWorkday(target).Answer? && cal.holidayDetail(target).Answer? &&
              Scan(cal, today, target, ScanHorizon) == Raised(OverflowError)
    ensures r.Returned? ==>
              var isWork, h := cal.isWorkday(target).value, cal.holidayDetail(target).value;
              var s := r.value;
              && s.date == IsoFormat(target)
              && s.weekday == WeekdayNames[Weekday(target)]
              && s.isWorkday == isWork
              // the reason
              && (h.onHoliday ==> s.detail == (if HasName(h) then h.name.value else StatutoryHoliday))
              && (!h.onHoliday && isWork && Weekday(target) >= 5 ==> s.detail == MakeUpWorkday)
              && (!h.onHoliday && !isWork && Weekday(target) < 5 ==> s.detail == RestDay)
              && (!h.onHoliday && isWork && Weekday(target) < 5 ==> s.detail == NormalWorkday)
              && (!h.onHoliday && !isWork && Weekday(target) >= 5 ==> s.detail == Weekend)
              // the cross-check with the secondary index
              && (s.warning.Some? <==>
                   YearKey(YearOf(target)) in cache && cache[YearKey(YearOf(target))] != map[] &&
                   h.onHoliday != (IsoFormat(target) in cache[YearKey(YearOf(target))]))
              && (s.warning.Some? ==> s.warning.value == SourcesDisagree)
              // the holiday name
              && (s.holidayName.Some? <==> h.onHoliday && HasName(h))
              && (s.holidayName.Some? ==> s.holidayName.value == h.name.value == s.detail)
              // the next rest day, counted from today
              && Scan(cal, today, target, ScanHorizon) == Returned(s.nextRestDay)
  {
    match cal.isWorkday(target)
    case NotImplemented => Raised(NotImplementedError)
    case Answer(isWork) =>
      match cal.holidayDetail(target)
      case NotImplemented => Raised(NotImplementedError)
      case Answer(h) =>
        var weekday := Weekday(target);
        var detail := Detail(h, isWork, weekday);
        var date := IsoFormat(target);
        var warning := Warning(h.onHoliday, cache, YearOf(target), date);
        match Scan(cal, today, target, ScanHorizon)
        case Raised(e) => Raised(e)
        case Returned(next) =>
          var holidayName := if h.onHoliday && HasName(h) then Some(h.name.value) else None;
          Returned(Status(date, WeekdayName(target), isWork, detail, next, warning, holidayName))
  }

  /** A year the secondary index does not hold, or holds empty, never draws a warning. */
  lemma NoCrossCheckNoWarning(cal: Calendar, cache: Cache, today: Day, target: Day)
    requires YearKey(YearOf(target)) !in cache || cache[YearKey(YearOf(target))] == map[]
    requires GetDateStatus(cal, cache, today, target).Returned?
    ensures GetDateStatus(cal, cache, today, target).value.warning == None
  {
  }

  /**
   * The rest day the scan reports, looked up on its own, is not a working day
   * and has the same date text and weekday name. The scan names it only by a
   * holiday name the verdict also gives; otherwise it says weekend, even where
   * the verdict's reason is a weekday off or the generic holiday label.
   */
  lemma ScannedRestDayStatus(cal: Calendar, cache: Cache, today: Day, from: Day, maxDays: int, rest: NextRestDay, d: Day)
    requires Scan(cal, today, from, maxDays) == Returned(Some(rest))
    requires d == today + rest.daysFromNow
    requires GetDateStatus(cal, cache, today, d).Returned?
    ensures var s := GetDateStatus(cal, cache, today, d).value;
      && !s.isWorkday
      && s.date == rest.date
      && s.weekday == rest.weekday
      && (s.holidayName.Some? ==> rest.detail == s.detail)
      && (s.holidayName.None? ==> rest.detail == Weekend)
  {
    var f := ScanFrom(cal, from, 1, maxDays).value.value;
    ScanFromFindsFirstRestDay(cal, from, 1, maxDays, f);
    assert rest == RestDayRecord(today, f.day, f.detail);
    assert f.day == d;
  }
}
