/**
 * Date helpers of app/core/utils.py: the default day that never precedes
 * the rotation start, and the previous/next targets of the day, week,
 * month and year views.
 */
module Utils {
  import opened Wrappers
  import opened Calendar

  /**
   * `get_safe_today`: today, but never earlier than the start of the
   * rotation. Today is a parameter here.
   */
  function SafeToday(today: Date, rotationStart: Date): (r: Date)
    ensures rotationStart <= r && today <= r
    ensures r == today || r == rotationStart
  {
    if today < rotationStart then rotationStart else today
  }

  /** The previous and next targets of one view, as the keys of the returned dictionary. */
  datatype Nav =
    | DayNav(prevYear: int, prevMonth: int, prevDay: int, nextYear: int, nextMonth: int, nextDay: int)
    | WeekNav(prevYear: int, prevWeek: int, nextYear: int, nextWeek: int)
    | MonthNav(prevYear: int, prevMonth: int, nextYear: int, nextMonth: int)
    | YearNav(prevYear: int, nextYear: int)

  /** The day view: the day before and the day after, as calendar triples. */
  function DayNavigation(current: Date): (r: Nav)
    ensures r.DayNav?
    ensures IsDate(r.prevYear, r.prevMonth, r.prevDay) && DateOf(r.prevYear, r.prevMonth, r.prevDay) == current - 1
    ensures IsDate(r.nextYear, r.nextMonth, r.nextDay) && DateOf(r.nextYear, r.nextMonth, r.nextDay) == current + 1
  {
    var prev := ToYmd(current - 1);
    var next := ToYmd(current + 1);
    DayNav(prev.year, prev.month, prev.day, next.year, next.month, next.day)
  }

  /** `date.fromisocalendar(y, w, 1)` of the ISO week of `d` is the Monday on or before `d`. */
  lemma MondayOfWeek(d: Date)
    ensures var iso := IsoCalendar(d);
      FromIsoCalendar(iso.isoYear, iso.week, 1) == Some(d - Weekday(d))
  {
    IsoCalendarNames(d);
    MondayNamed(d, IsoCalendar(d));
  }

  /** The Monday of the week an ISO date names. */
  lemma MondayNamed(d: Date, r: IsoDate)
    requires NamesDay(d, r)
    ensures FromIsoCalendar(r.isoYear, r.week, 1) == Some(d - Weekday(d))
    ensures Weekday(d) == 0 ==> FromIsoCalendar(r.isoYear, r.week, 1) == Some(d)
  {
    RoundTripOf(d, r);
  }

  /** The ISO year and week of a Monday, which name that Monday again. */
  function IsoWeekOf(monday: Date): (r: (int, int))
    requires Weekday(monday) == 0
    ensures FromIsoCalendar(r.0, r.1, 1) == Some(monday)
  {
    MondayIsoWeek(monday);
    (IsoCalendar(monday).isoYear, IsoCalendar(monday).week)
  }

  /** A Monday is day 1 of the ISO week `isocalendar` reports for it. */
  lemma MondayIsoWeek(monday: Date)
    requires Weekday(monday) == 0
    ensures FromIsoCalendar(IsoCalendar(monday).isoYear, IsoCalendar(monday).week, 1) == Some(monday)
  {
    IsoCalendarNames(monday);
    MondayNamed(monday, IsoCalendar(monday));
  }

  /** The ISO weeks of the Mondays a week before and a week after `monday`. */
  function WeekNavFrom(monday: Date): (r: Nav)
    requires Weekday(monday) == 0
    ensures r.WeekNav?
    ensures FromIsoCalendar(r.prevYear, r.prevWeek, 1) == Some(monday - 7)
    ensures FromIsoCalendar(r.nextYear, r.nextWeek, 1) == Some(monday + 7)
  {
    WeekdayAddWeeks(monday, -1);
    WeekdayAddWeeks(monday, 1);
    var prev := IsoWeekOf(monday - 7);
    var next := IsoWeekOf(monday + 7);
    WeekNav(prev.0, prev.1, next.0, next.1)
  }

  /**
   * The week view: the ISO year and week of the Mondays a week before and
   * a week after the Monday of the current week. Each pair is a week that
   * exists and whose Monday is seven days from this week's.
   */
  function WeekNavigation(current: Date): (r: Nav)
    ensures r.WeekNav?
    ensures FromIsoCalendar(r.prevYear, r.prevWeek, 1) == Some(MondayOf(current) - 7)
    ensures FromIsoCalendar(r.nextYear, r.nextWeek, 1) == Some(MondayOf(current) + 7)
  {
    WeekNavFrom(MondayOf(current))
  }

  /** Any two days of the same week give the same week navigation. */
  lemma WeekNavigationSameWeek(a: Date, b: Date)
    requires a - Weekday(a) == b - Weekday(b)
    ensures WeekNavigation(a) == WeekNavigation(b)
  {
    assert MondayOf(a) == MondayOf(b);
  }

  /** `date.fromisocalendar(iso_year, iso_week, 1)` for the ISO week of `current`: the Monday on or before it. */
  function MondayOf(current: Date): (monday: Date)
    ensures monday == current - Weekday(current) && Weekday(monday) == 0
  {
    var iso := IsoCalendar(current);
    MondayOfWeek(current);
    WeekdayAddDays(current, -Weekday(current));
    FromIsoCalendar(iso.isoYear, iso.week, 1).value
  }

  /** The last day before the first of a month lies in the month before it. */
  lemma DayBeforeMonth(y: int, m: int)
    requires 1 <= m <= 12
    ensures YearOf(DateOf(y, m, 1) - 1) == (if m == 1 then y - 1 else y)
    ensures MonthOf(DateOf(y, m, 1) - 1) == (if m == 1 then 12 else m - 1)
  {
    var py := if m == 1 then y - 1 else y;
    var pm := if m == 1 then 12 else m - 1;
    NextMonthStart(py, pm);
    InMonth(DateOf(y, m, 1) - 1, py, pm);
  }

  /**
   * The month view: the month of the day before the first of the current
   * month, and the month after the current one.
   */
  function MonthNavigation(current: Date): (r: Nav)
    ensures r.MonthNav?
    ensures 1 <= r.prevMonth <= 12 && MonthIndex(r.prevYear, r.prevMonth) == DateMonthIndex(current) - 1
    ensures 1 <= r.nextMonth <= 12 && MonthIndex(r.nextYear, r.nextMonth) == DateMonthIndex(current) + 1
  {
    var ymd := ToYmd(current);
    var year := ymd.year;
    var month := ymd.month;
    DayBeforeMonth(year, month);
    var prevDate := ToYmd(DateOf(year, month, 1) - 1);
    if month == 12 then MonthNav(prevDate.year, prevDate.month, year + 1, 1)
    else MonthNav(prevDate.year, prevDate.month, year, month + 1)
  }

  /**
   * What the month indices of `MonthNavigation` mean: the month before
   * January is December of the year before, the month after December is
   * January of the year after, and every other month steps within its year.
   */
  lemma NeighbourMonths(py: int, pm: int, ny: int, nm: int, y: int, m: int)
    requires 1 <= pm <= 12 && 1 <= nm <= 12 && 1 <= m <= 12
    requires MonthIndex(py, pm) == MonthIndex(y, m) - 1 && MonthIndex(ny, nm) == MonthIndex(y, m) + 1
    ensures (py, pm) == (if m == 1 then (y - 1, 12) else (y, m - 1))
    ensures (ny, nm) == (if m == 12 then (y + 1, 1) else (y, m + 1))
  {
    var p := if m == 1 then (y - 1, 12) else (y, m - 1);
    var n := if m == 12 then (y + 1, 1) else (y, m + 1);
    MonthIndexInjective(py, pm, p.0, p.1);
    MonthIndexInjective(ny, nm, n.0, n.1);
  }

  /**
   * `get_navigation_dates`: the targets of the named view; any other view
   * name is a `ValueError`.
   */
  function NavigationDates(viewType: string, current: Date): (r: Result<Nav, string>)
    ensures r.Err? <==> viewType !in {"day", "week", "month", "year"}
    ensures viewType == "day" ==> r == Ok(DayNavigation(current))
    ensures viewType == "week" ==> r == Ok(WeekNavigation(current))
    ensures viewType == "month" ==> r == Ok(MonthNavigation(current))
    ensures viewType == "year" ==> r == Ok(YearNav(YearOf(current) - 1, YearOf(current) + 1))
  {
    if viewType == "day" then Ok(DayNavigation(current))
    else if viewType == "week" then Ok(WeekNavigation(current))
    else if viewType == "month" then Ok(MonthNavigation(current))
    else if viewType == "year" then
      var year := YearOf(current);
      Ok(YearNav(year - 1, year + 1))
    else Err("Unsupported view_type: " + viewType)
  }
}
