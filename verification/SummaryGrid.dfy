/**
 * The calendar grid of app/core/schedule/summary.py: the month summary
 * together with whole weeks, Monday to Sunday, from the week of the
 * month's 1st to the week of its last day. Each cell holds the generated
 * day of that date, flagged when it lies in the requested month, or an
 * empty cell when no day was generated for it.
 *
 * The generated days of the grid's range are an input.
 */
module SummaryGrid {
  import opened Wrappers
  import opened Calendar
  import opened Models
  import Ob
  import opened Summary

  // ---------------------------------------------------------------------
  // The grid's range
  // ---------------------------------------------------------------------

  /**
   * The Monday on or before the month's 1st and the Sunday on or after its
   * last day; `None` for a month outside 1..12, where `date` raises.
   */
  function GridBounds(year: int, month: int): (r: Option<(Date, Date)>)
    ensures r.Some? <==> 1 <= month <= 12
  {
    if !(1 <= month <= 12) then None
    else
      var first := DateOf(year, month, 1);
      var last := DateOf(year, month, DaysInMonth(year, month));
      Some((first - Weekday(first), last + (6 - Weekday(last))))
  }

  /**
   * The grid starts on a Monday in the week of the 1st and ends on a Sunday
   * in the week of the last day, so it covers the month and is a whole
   * number of weeks long.
   */
  lemma GridBoundsSpec(year: int, month: int)
    requires 1 <= month <= 12
    ensures var (start, end) := GridBounds(year, month).value;
      var first := DateOf(year, month, 1);
      var last := first + DaysInMonth(year, month) - 1;
      && Weekday(start) == 0 && Weekday(end) == 6
      && first - 7 < start <= first && last <= end < last + 7
      && (end - start + 1) % 7 == 0
  {
    var first := DateOf(year, month, 1);
    var last := DateOf(year, month, DaysInMonth(year, month));
    var (start, end) := GridBounds(year, month).value;
    WeekdayAddDays(first, -Weekday(first));
    WeekdayAddDays(last, 6 - Weekday(last));
    WholeWeeks(start, end);
  }

  lemma WholeWeeks(start: int, end: int)
    requires Weekday(start) == 0 && Weekday(end) == 6
    ensures (end - start + 1) % 7 == 0
  {
    var a := (start + 6) / 7;
    var b := (end + 6) / 7;
    assert start + 6 == 7 * a;
    assert end + 6 == 7 * b + 6;
    assert end - start + 1 == 7 * (b - a + 1);
  }

  // ---------------------------------------------------------------------
  // The cells
  // ---------------------------------------------------------------------

  /** One cell of the grid. */
  datatype GridCell = GridCell(
    date: Date,
    shift: Option<ShiftType>,
    rotationWeek: Option<int>,
    hours: real,
    start: Option<int>,
    end: Option<int>,
    isCurrentMonth: bool)

  /** The cell of a generated day. */
  function CellOf(day: DayRecord, current: bool): GridCell
  {
    GridCell(day.date, day.shift, day.rotationWeek, day.hours, day.start, day.end, current)
  }

  /** The cell of a date no day was generated for: not in the current month. */
  function EmptyCell(d: Date): GridCell
  {
    GridCell(d, None, None, 0.0, None, None, false)
  }

  /** A date of the requested month (year and month both compared). */
  predicate InGridMonth(d: Date, year: int, month: int)
  {
    MonthOf(d) == month && YearOf(d) == year
  }

  /** `days_by_date`: each day's cell under its date, a later day replacing an earlier one of the same date. */
  function Lookup(days: seq<DayRecord>, year: int, month: int): map<Date, GridCell>
    decreases |days|
  {
    if days == [] then map[]
    else
      var d := days[|days| - 1];
      Lookup(days[..|days| - 1], year, month)[d.date := CellOf(d, InGridMonth(d.date, year, month))]
  }

  /** The loop filling `days_by_date`. */
  method BuildLookup(days: seq<DayRecord>, year: int, month: int) returns (byDate: map<Date, GridCell>)
    ensures byDate == Lookup(days, year, month)
  {
    byDate := map[];
    for i := 0 to |days|
      invariant byDate == Lookup(days[..i], year, month)
    {
      assert days[..i + 1][..i] == days[..i];
      var day := days[i];
      var isCurrentMonth := MonthOf(day.date) == month && YearOf(day.date) == year;
      byDate := byDate[day.date := GridCell(day.date, day.shift, day.rotationWeek, day.hours, day.start, day.end, isCurrentMonth)];
    }
    assert days[..|days|] == days;
  }

  /** `i` is the last position of a day dated `k`. */
  predicate LastWith(days: seq<DayRecord>, k: Date, i: int)
  {
    0 <= i < |days| && days[i].date == k && forall j :: i < j < |days| ==> days[j].date != k
  }

  /**
   * A date has a cell exactly when some day has that date, and the cell is
   * that of the last such day, flagged when the date is in the requested
   * month.
   */
  lemma {:induction false} LookupSpec(days: seq<DayRecord>, year: int, month: int, k: Date)
    ensures k in Lookup(days, year, month) <==> exists i :: 0 <= i < |days| && days[i].date == k
    ensures k in Lookup(days, year, month) ==>
      exists i :: LastWith(days, k, i) && Lookup(days, year, month)[k] == CellOf(days[i], InGridMonth(k, year, month))
    decreases |days|
  {
    if days != [] {
      var n := |days| - 1;
      LookupSpec(days[..n], year, month, k);
      assert days == days[..n] + [days[n]];
      LookupStep(Lookup(days[..n], year, month), days[..n], days[n], InGridMonth(days[n].date, year, month),
                 k, InGridMonth(k, year, month));
    }
  }

  /** One step of the induction above, for a day whose cell carries the flag `flag`. */
  lemma LookupStep(before: map<Date, GridCell>, prev: seq<DayRecord>, d: DayRecord, flag: bool, k: Date, fk: bool)
    requires k in before <==> exists i :: 0 <= i < |prev| && prev[i].date == k
    requires k in before ==> exists i :: LastWith(prev, k, i) && before[k] == CellOf(prev[i], fk)
    requires d.date == k ==> flag == fk
    ensures var after, next := before[d.date := CellOf(d, flag)], prev + [d];
      && (k in after <==> exists i :: 0 <= i < |next| && next[i].date == k)
      && (k in after ==> exists i :: LastWith(next, k, i) && after[k] == CellOf(next[i], fk))
  {
    var after, next := before[d.date := CellOf(d, flag)], prev + [d];
    assert forall i :: 0 <= i < |prev| ==> next[i] == prev[i];
    assert next[|prev|] == d;
    if d.date == k {
      assert LastWith(next, k, |prev|);
    } else if k in before {
      var i :| LastWith(prev, k, i) && before[k] == CellOf(prev[i], fk);
      assert LastWith(next, k, i);
    }
  }

  // ---------------------------------------------------------------------
  // The weeks
  // ---------------------------------------------------------------------

  /** The cell of a date: from the lookup, or an empty cell. */
  function CellAt(byDate: map<Date, GridCell>, d: Date): GridCell
  {
    if d in byDate then byDate[d] else EmptyCell(d)
  }

  /** The seven cells from `monday` on. */
  function WeekAt(byDate: map<Date, GridCell>, monday: Date): (r: seq<GridCell>)
    ensures |r| == 7
  {
    seq(7, j => CellAt(byDate, monday + j))
  }

  /** The weeks from `start` while the week's first day is at most `end`. */
  function Weeks(byDate: map<Date, GridCell>, start: Date, end: Date): seq<seq<GridCell>>
    decreases if start > end then 0 else end - start + 1
  {
    if start > end then [] else [WeekAt(byDate, start)] + Weeks(byDate, start + 7, end)
  }

  /** The loop building the grid, one week of seven days at a time. */
  method BuildGrid(byDate: map<Date, GridCell>, gridStart: Date, gridEnd: Date) returns (grid: seq<seq<GridCell>>)
    ensures grid == Weeks(byDate, gridStart, gridEnd)
  {
    grid := [];
    var current := gridStart;
    while current <= gridEnd
      invariant Weeks(byDate, gridStart, gridEnd) == grid + Weeks(byDate, current, gridEnd)
      decreases gridEnd - current
    {
      var monday := current;
      var week := [];
      for k := 0 to 7
        invariant current == monday + k && |week| == k
        invariant forall j :: 0 <= j < k ==> week[j] == CellAt(byDate, monday + j)
      {
        week := week + [CellAt(byDate, current)];
        current := current + 1;
      }
      assert week == WeekAt(byDate, monday);
      grid := grid + [week];
    }
  }

  /** Week `w`'s day `j` is the cell of the date `7 * w + j` days after the start. */
  lemma {:induction false} WeeksAt(byDate: map<Date, GridCell>, start: Date, end: Date, w: int, j: int)
    requires start <= end && 0 <= w <= (end - start) / 7 && 0 <= j < 7
    ensures |Weeks(byDate, start, end)| == (end - start) / 7 + 1
    ensures |Weeks(byDate, start, end)[w]| == 7
    ensures Weeks(byDate, start, end)[w][j] == CellAt(byDate, start + 7 * w + j)
    decreases end - start
  {
    if start + 7 > end {
      assert (end - start) / 7 == 0;
    } else {
      assert (end - (start + 7)) / 7 == (end - start) / 7 - 1;
      if w == 0 {
        WeeksAt(byDate, start + 7, end, 0, j);
      } else {
        WeeksAt(byDate, start + 7, end, w - 1, j);
      }
    }
  }

  /**
   * Every cell carries its own date; it is flagged as the current month
   * exactly when the date is in the requested month and a day was
   * generated for it.
   */
  lemma CellAtSpec(days: seq<DayRecord>, year: int, month: int, d: Date)
    ensures CellAt(Lookup(days, year, month), d).date == d
    ensures CellAt(Lookup(days, year, month), d).isCurrentMonth <==>
      InGridMonth(d, year, month) && exists i :: 0 <= i < |days| && days[i].date == d
  {
    LookupSpec(days, year, month, d);
    CellFlag(Lookup(days, year, month), days, d, InGridMonth(d, year, month));
  }

  lemma CellFlag(byDate: map<Date, GridCell>, days: seq<DayRecord>, d: Date, fd: bool)
    requires d in byDate <==> exists i :: 0 <= i < |days| && days[i].date == d
    requires d in byDate ==> exists i :: LastWith(days, d, i) && byDate[d] == CellOf(days[i], fd)
    ensures CellAt(byDate, d).date == d
    ensures CellAt(byDate, d).isCurrentMonth <==> fd && exists i :: 0 <= i < |days| && days[i].date == d
  {
    if d in byDate {
      var i :| LastWith(days, d, i) && byDate[d] == CellOf(days[i], fd);
    }
  }

  /** One cell of the weeks from a Monday: its weekday is its column. */
  lemma WeekCell(byDate: map<Date, GridCell>, start: Date, end: Date, w: int, j: int)
    requires Weekday(start) == 0 && start <= end && 0 <= w <= (end - start) / 7 && 0 <= j < 7
    ensures var grid := Weeks(byDate, start, end);
      && |grid| == (end - start) / 7 + 1 && |grid[w]| == 7
      && grid[w][j] == CellAt(byDate, start + 7 * w + j)
      && Weekday(start + 7 * w + j) == j
  {
    WeeksAt(byDate, start, end, w, j);
    WeekOffsetWeekday(start, w, j);
  }

  /**
   * Each day of the month has its place in the grid: week `(d - start) / 7`,
   * day `(d - start) % 7`, holding that date's cell.
   */
  lemma MonthInGrid(days: seq<DayRecord>, year: int, month: int, d: Date)
    requires 1 <= month <= 12
    requires DateOf(year, month, 1) <= d < DateOf(year, month, 1) + DaysInMonth(year, month)
    ensures var (start, end) := GridBounds(year, month).value;
      var grid := Weeks(Lookup(days, year, month), start, end);
      var w, j := (d - start) / 7, (d - start) % 7;
      && 0 <= w < |grid| && |grid[w]| == 7
      && grid[w][j] == CellAt(Lookup(days, year, month), d) && grid[w][j].date == d
  {
    var (start, end) := GridBounds(year, month).value;
    GridBoundsSpec(year, month);
    CellInGrid(Lookup(days, year, month), start, end, d);
    CellAtSpec(days, year, month, d);
  }

  lemma CellInGrid(byDate: map<Date, GridCell>, start: Date, end: Date, d: Date)
    requires Weekday(start) == 0 && start <= d <= end
    ensures var grid := Weeks(byDate, start, end);
      var w, j := (d - start) / 7, (d - start) % 7;
      0 <= w < |grid| && |grid[w]| == 7 && grid[w][j] == CellAt(byDate, d)
  {
    var w, j := (d - start) / 7, (d - start) % 7;
    assert d - start == 7 * w + j;
    assert w <= (end - start) / 7;
    WeekCell(byDate, start, end, w, j);
  }

  // ---------------------------------------------------------------------
  // `build_calendar_grid_for_month`
  // ---------------------------------------------------------------------

  datatype CalendarGrid = CalendarGrid(summary: MonthSummary, grid: seq<seq<GridCell>>)

  /**
   * The month summary and the grid of the month's weeks, built from the
   * days generated for the grid's range; `None` for a month outside 1..12.
   */
  function CalendarGridOf(year: int, month: int, personId: int, days: seq<DayRecord>, rules: seq<ObRule>,
                          baseSalary: real, absence: Option<AbsenceInfo>, tax: TaxSource,
                          extendedDays: seq<DayRecord>): Option<CalendarGrid>
    requires Ob.AllWellFormed(rules)
  {
    match GridBounds(year, month)
    case None => None
    case Some((start, end)) =>
      Some(CalendarGrid(MonthSummaryOf(year, month, personId, days, rules, baseSalary, absence, tax),
                        Weeks(Lookup(extendedDays, year, month), start, end)))
  }

  /** `build_calendar_grid_for_month`. */
  method BuildCalendarGrid(year: int, month: int, personId: int, days: seq<DayRecord>, baseOb: seq<ObRule>,
                           baseSalary: real, absence: Option<AbsenceInfo>, tax: TaxSource,
                           extendedDays: seq<DayRecord>) returns (r: Option<CalendarGrid>)
    requires Ob.AllWellFormed(baseOb)
    ensures Ob.AllWellFormed(Ob.CombinedRules(baseOb, year))
    ensures r == CalendarGridOf(year, month, personId, days, Ob.CombinedRules(baseOb, year), baseSalary, absence, tax, extendedDays)
  {
    Ob.CombinedRulesWellFormed(baseOb, year);
    if !(1 <= month <= 12) {
      return None;
    }
    var summary := SummarizeMonth(year, month, personId, days, baseOb, baseSalary, absence, tax);
    var (gridStart, gridEnd) := GridBounds(year, month).value;
    var byDate := BuildLookup(extendedDays, year, month);
    var grid := BuildGrid(byDate, gridStart, gridEnd);
    r := Some(CalendarGrid(summary, grid));
  }
}
