/**
 * The primary holiday calendar the service consults: the `chinese_calendar`
 * package's `is_workday(d)` and `get_holiday_detail(d)`. Its rule tables are
 * outside this model, so a calendar is any pair of functions of the date; each
 * may refuse a date whose year it has no rules for, as the package raises
 * `NotImplementedError`.
 */
module HolidaySource {
  import opened Results
  import opened Dates

  /** The answer of one calendar query, or the refusal of an unsupported year. */
  datatype Lookup<+T> = Answer(value: T) | NotImplemented

  /** The pair `get_holiday_detail` returns: the holiday flag and the holiday's name, if it has one. */
  datatype HolidayDetail = HolidayDetail(onHoliday: bool, name: Option<string>)

  datatype Calendar = Calendar(isWorkday: Day -> Lookup<bool>, holidayDetail: Day -> Lookup<HolidayDetail>)

  /** Python truthiness of the name: present and not the empty string. */
  predicate HasName(h: HolidayDetail) {
    h.name.Some? && h.name.value != ""
  }
}
