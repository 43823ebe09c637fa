/**
 * The fixed texts the service puts in its answers.
 */
module Labels {
  import opened Dates

  /** `WEEKDAY_NAMES`, indexed by `date.weekday()`. */
  const WeekdayNames: seq<string> := ["周一", "周二", "周三", "周四", "周五", "周六", "周日"]

  /** A designated holiday whose name the calendar does not give. */
  const StatutoryHoliday := "法定节假日"
  /** A Saturday or Sunday that is a working day. */
  const MakeUpWorkday := "调休补班"
  /** A Monday to Friday that is not a working day and not a designated holiday. */
  const RestDay := "休息日"
  const NormalWorkday := "正常工作日"
  const Weekend := "周末"
  /** The warning given when the two holiday sources disagree. */
  const SourcesDisagree := "数据源存在差异，请以官方通知为准"

  /** `WEEKDAY_NAMES[d.weekday()]`. */
  function WeekdayName(d: Day): (name: string)
    ensures name in WeekdayNames
    ensures name == WeekdayNames[5] || name == WeekdayNames[6] <==> Weekday(d) >= 5
  {
    WeekdayNames[Weekday(d)]
  }
}
