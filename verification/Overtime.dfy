/**
 * Overtime pay and lookups (app/core/schedule/overtime.py): the pay
 * formula, the month window of the monthly query, and the details record
 * of one overtime shift. The database table is an input sequence of rows;
 * a missing session is `None`.
 */
module Overtime {
  import opened Wrappers
  import opened Calendar
  import opened TimeText

  /** A stored overtime shift. */
  datatype OvertimeRow = OvertimeRow(userId: int, date: Date, startTime: SecondOfDay, endTime: SecondOfDay, hours: real, otPay: real)

  /**
   * `calculate_overtime_pay`: the monthly salary over the divisor, times
   * the hours. The divisor is `OT_RATE_DIVISOR`, a parameter here.
   */
  function OvertimePay(monthlySalary: int, hours: real, divisor: real): (r: real)
    requires divisor != 0.0
  {
    (monthlySalary as real / divisor) * hours
  }

  /** No hours, no pay; and the pay of two stretches is the pay of their sum. */
  lemma OvertimePayAdditive(monthlySalary: int, h1: real, h2: real, divisor: real)
    requires divisor != 0.0
    ensures OvertimePay(monthlySalary, 0.0, divisor) == 0.0
    ensures OvertimePay(monthlySalary, h1 + h2, divisor) == OvertimePay(monthlySalary, h1, divisor) + OvertimePay(monthlySalary, h2, divisor)
  {
    var rate := monthlySalary as real / divisor;
    assert rate * (h1 + h2) == rate * h1 + rate * h2;
  }

  /** With a positive salary and divisor, more hours pay strictly more. */
  lemma OvertimePayIncreasing(monthlySalary: int, h1: real, h2: real, divisor: real)
    requires divisor > 0.0 && monthlySalary > 0 && h1 < h2
    ensures OvertimePay(monthlySalary, h1, divisor) < OvertimePay(monthlySalary, h2, divisor)
  {
    var rate := monthlySalary as real / divisor;
    assert rate > 0.0;
    assert rate * h2 - rate * h1 == rate * (h2 - h1);
  }

  /**
   * The month window of `get_overtime_shifts_for_month`: from the 1st of
   * the month to the 1st of the next, December running into January of
   * the next year. A month outside 1..12 makes `datetime.date` raise:
   * `None`.
   */
  function MonthWindow(year: int, month: int): (r: Option<(Date, Date)>)
    ensures r.Some? <==> 1 <= month <= 12
    ensures r.Some? ==> r.value.0 == DateOf(year, month, 1)
    ensures r.Some? && month == 12 ==> r.value.1 == DateOf(year + 1, 1, 1)
    ensures r.Some? && month < 12 ==> r.value.1 == DateOf(year, month + 1, 1)
  {
    if !(1 <= month <= 12) then None
    else
      var start := DateOf(year, month, 1);
      var end := if month == 12 then DateOf(year + 1, 1, 1) else DateOf(year, month + 1, 1);
      Some((start, end))
  }

  /** The window holds exactly the days of the month: `start <= d < end` iff `d` is in that year and month. */
  lemma MonthWindowIsMonth(year: int, month: int, d: Date)
    requires 1 <= month <= 12
    ensures var (start, end) := MonthWindow(year, month).value;
      end == start + DaysInMonth(year, month) &&
      (start <= d < end <==> YearOf(d) == year && MonthOf(d) == month)
  {
    NextMonthStart(year, month);
    InMonth(d, year, month);
  }

  /** The rows of one user whose date lies in `[start, end)`, in table order. */
  function RowsIn(rows: seq<OvertimeRow>, userId: int, start: Date, end: Date): (r: seq<OvertimeRow>)
    ensures |r| <= |rows|
    ensures forall x :: x in r <==> x in rows && x.userId == userId && start <= x.date < end
    decreases |rows|
  {
    if rows == [] then []
    else
      var rest := RowsIn(rows[1..], userId, start, end);
      assert forall x :: x in rows <==> x == rows[0] || x in rows[1..];
      var x := rows[0];
      if x.userId == userId && start <= x.date < end then [x] + rest else rest
  }

  /**
   * `get_overtime_shifts_for_month`: no session gives `[]`; otherwise the
   * user's rows dated in the month. `None` stands for the ValueError of an
   * invalid month.
   */
  function OvertimeShiftsForMonth(session: Option<seq<OvertimeRow>>, userId: int, year: int, month: int): (r: Option<seq<OvertimeRow>>)
    ensures session.None? ==> r == Some([])
    ensures session.Some? ==> (r.Some? <==> 1 <= month <= 12)
    ensures session.Some? && r.Some? ==>
      forall x :: x in r.value <==> x in session.value && x.userId == userId && YearOf(x.date) == year && MonthOf(x.date) == month
  {
    match session
    case None => Some([])
    case Some(rows) =>
      match MonthWindow(year, month)
      case None => None
      case Some((start, end)) =>
        var r := RowsIn(rows, userId, start, end);
        assert forall x :: x in r <==> x in rows && x.userId == userId && YearOf(x.date) == year && MonthOf(x.date) == month by {
          forall x ensures x in r <==> x in rows && x.userId == userId && YearOf(x.date) == year && MonthOf(x.date) == month {
            MonthWindowIsMonth(year, month, x.date);
          }
        }
        Some(r)
  }

  /** `get_overtime_shift_for_date`: no session gives `None`; otherwise the first row of that user and date. */
  function OvertimeShiftForDate(session: Option<seq<OvertimeRow>>, userId: int, date: Date): (r: Option<OvertimeRow>)
    ensures session.None? ==> r.None?
    ensures r.Some? ==> r.value in session.value && r.value.userId == userId && r.value.date == date
    ensures session.Some? && r.None? ==> forall x :: x in session.value ==> !(x.userId == userId && x.date == date)
  {
    match session
    case None => None
    case Some(rows) =>
      var found := RowsIn(rows, userId, date, date + 1);
      if found == [] then None else Some(found[0])
  }

  /** `str(time)`: "HH:MM:SS". */
  function TimeStr(sec: SecondOfDay): string
  {
    HmsText(sec / 3600, sec % 3600 / 60, sec % 60)
  }

  function HmsText(h: int, m: int, s: int): string
    requires 0 <= h <= 99 && 0 <= m <= 99 && 0 <= s <= 99
  {
    TwoDigits(h) + ":" + TwoDigits(m) + ":" + TwoDigits(s)
  }

  /** A second of the day splits into an hour, a minute and a second. */
  lemma ClockParts(sec: SecondOfDay)
    ensures 0 <= sec / 3600 <= 23 && 0 <= sec % 3600 / 60 <= 59 && 0 <= sec % 60 <= 59
    ensures sec == (sec / 3600) * 3600 + (sec % 3600 / 60) * 60 + sec % 60
  {
  }

  /** The details record of one overtime shift. */
  datatype OtDetailsRecord = OtDetailsRecord(startTime: string, endTime: string, hours: real, pay: real, hourlyRate: real)

  /**
   * `build_ot_details`: the shift's times as text, its hours and stored
   * pay, and the given hourly rate; the times read back, through the
   * overtime time parser, as the shift's own times.
   */
  function BuildOtDetails(ot: OvertimeRow, hourlyRate: real): (r: OtDetailsRecord)
    ensures r.hours == ot.hours && r.pay == ot.otPay && r.hourlyRate == hourlyRate
    ensures ToTime(TimeString(r.startTime), "start_time") == Ok(ot.startTime)
    ensures ToTime(TimeString(r.endTime), "end_time") == Ok(ot.endTime)
  {
    TimeStrReadsBack(ot.startTime, "start_time");
    TimeStrReadsBack(ot.endTime, "end_time");
    OtDetailsRecord(TimeStr(ot.startTime), TimeStr(ot.endTime), ot.hours, ot.otPay, hourlyRate)
  }

  /** A time written with `str` parses back to the same second of the day. */
  lemma TimeStrReadsBack(sec: SecondOfDay, field: string)
    ensures ToTime(TimeString(TimeStr(sec)), field) == Ok(sec)
  {
    ClockParts(sec);
    HmsReadsBack(TimeStr(sec), sec / 3600, sec % 3600 / 60, sec % 60, field);
  }

  lemma EmptyPadding(x: string)
    ensures "" + x == x && x + "" == x
  {
  }

  /** "HH:MM:SS" text reads back as its second of the day. */
  lemma HmsReadsBack(text: string, h: int, m: int, s: int, field: string)
    requires 0 <= h <= 23 && 0 <= m <= 59 && 0 <= s <= 59
    requires text == HmsText(h, m, s)
    ensures ToTime(TimeString(text), field) == Ok(h * 3600 + m * 60 + s)
  {
    HourMinuteSecondRoundTrip(h, m, s, "", "", field);
    EmptyPadding(TwoDigits(h));
    EmptyPadding(text);
  }
}
