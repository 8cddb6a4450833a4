/**
 * Dates of the proleptic Gregorian calendar, as Python's `datetime.date`
 * sees them. A date is its ordinal, the day count in which 0001-01-01 is
 * day 1 (a Monday), exactly like `date.toordinal()`; `DateOf` builds one from
 * a (year, month, day) triple and `ToYmd` reads the triple back. Moving by
 * days is adding to the ordinal, comparing dates is comparing ordinals.
 */
module Calendar {
  import opened Wrappers

  /** A day, as its ordinal. */
  type Date = int

  /** The (year, month, day) reading of a date. */
  datatype Ymd = Ymd(year: int, month: int, day: int)

  /** Seconds in one day; an instant is `date * SecondsPerDay + second of day`. */
  const SecondsPerDay: int := 86400

  predicate IsLeap(y: int)
  {
    y % 4 == 0 && (y % 100 != 0 || y % 400 == 0)
  }

  function DaysInMonth(y: int, m: int): int
  {
    if m == 2 then (if IsLeap(y) then 29 else 28)
    else if m == 4 || m == 6 || m == 9 || m == 11 then 30
    else 31
  }

  function DaysInYear(y: int): int
  {
    if IsLeap(y) then 366 else 365
  }

  /** A triple that `datetime.date(year, month, day)` accepts (the year range is not modelled). */
  predicate IsDate(y: int, m: int, d: int)
  {
    1 <= m <= 12 && 1 <= d <= DaysInMonth(y, m)
  }

  /** Days in the years before `y`; Python's `_days_before_year`. */
  function DaysBeforeYear(y: int): int
  {
    var p := y - 1;
    p * 365 + p / 4 - p / 100 + p / 400
  }

  /** Days in the months of year `y` before month `m` (1..13). */
  function DaysBeforeMonth(y: int, m: int): int
  {
    var common :=
      if m <= 1 then 0 else if m == 2 then 31 else if m == 3 then 59
      else if m == 4 then 90 else if m == 5 then 120 else if m == 6 then 151
      else if m == 7 then 181 else if m == 8 then 212 else if m == 9 then 243
      else if m == 10 then 273 else if m == 11 then 304 else if m == 12 then 334
      else 365;
    common + (if m > 2 && IsLeap(y) then 1 else 0)
  }

  /** `date(y, m, d).toordinal()`. */
  function DateOf(y: int, m: int, d: int): Date
  {
    DaysBeforeYear(y) + DaysBeforeMonth(y, m) + d
  }

  /** `date.weekday()`: 0 is Monday, 6 is Sunday. */
  function Weekday(d: Date): (w: int)
    ensures 0 <= w < 7
  {
    (d + 6) % 7
  }

  /** The instant `datetime.combine(d, time())` plus `sec` seconds. */
  function At(d: Date, sec: int): int
  {
    d * SecondsPerDay + sec
  }

  lemma DaysBeforeYearStep(y: int)
    ensures DaysBeforeYear(y + 1) == DaysBeforeYear(y) + DaysInYear(y)
  {
    var p := y - 1;
    assert y / 4 - p / 4 == (if y % 4 == 0 then 1 else 0);
    assert y / 100 - p / 100 == (if y % 100 == 0 then 1 else 0);
    assert y / 400 - p / 400 == (if y % 400 == 0 then 1 else 0);
  }

  lemma DaysBeforeMonthStep(y: int, m: int)
    requires 1 <= m <= 12
    ensures DaysBeforeMonth(y, m + 1) == DaysBeforeMonth(y, m) + DaysInMonth(y, m)
  {
  }

  lemma {:induction false} DaysBeforeYearMonotone(y1: int, y2: int)
    requires y1 < y2
    ensures DaysBeforeYear(y1 + 1) <= DaysBeforeYear(y2)
    decreases y2 - y1
  {
    if y1 + 1 < y2 {
      DaysBeforeYearMonotone(y1 + 1, y2);
      DaysBeforeYearStep(y1 + 1);
    }
  }

  lemma DaysBeforeMonthMonotone(y: int, m1: int, m2: int)
    requires 1 <= m1 < m2 <= 13
    ensures DaysBeforeMonth(y, m1 + 1) <= DaysBeforeMonth(y, m2)
  {
  }

  /** A valid date lies inside its own month and its own year on the ordinal line. */
  lemma WithinYear(y: int, m: int, d: int)
    requires IsDate(y, m, d)
    ensures DaysBeforeYear(y) + DaysBeforeMonth(y, m) < DateOf(y, m, d)
    ensures DateOf(y, m, d) <= DaysBeforeYear(y) + DaysBeforeMonth(y, m + 1)
    ensures DaysBeforeYear(y) < DateOf(y, m, d) <= DaysBeforeYear(y + 1)
  {
    DaysBeforeMonthStep(y, m);
    DaysBeforeYearStep(y);
  }

  /** Two valid triples with the same ordinal are the same triple. */
  lemma DateOfInjective(a: Ymd, b: Ymd)
    requires IsDate(a.year, a.month, a.day) && IsDate(b.year, b.month, b.day)
    requires DateOf(a.year, a.month, a.day) == DateOf(b.year, b.month, b.day)
    ensures a == b
  {
    WithinYear(a.year, a.month, a.day);
    WithinYear(b.year, b.month, b.day);
    if a.year < b.year {
      DaysBeforeYearMonotone(a.year, b.year);
      assert false;
    } else if b.year < a.year {
      DaysBeforeYearMonotone(b.year, a.year);
      assert false;
    }
    if a.month < b.month {
      DaysBeforeMonthMonotone(a.year, a.month, b.month);
      assert false;
    } else if b.month < a.month {
      DaysBeforeMonthMonotone(a.year, b.month, a.month);
      assert false;
    }
  }

  /** Earlier in (year, month, day) order is a smaller ordinal. */
  lemma DateOfOrder(a: Ymd, b: Ymd)
    requires IsDate(a.year, a.month, a.day) && IsDate(b.year, b.month, b.day)
    ensures DateOf(a.year, a.month, a.day) < DateOf(b.year, b.month, b.day) <==>
      (a.year < b.year || (a.year == b.year && (a.month < b.month || (a.month == b.month && a.day < b.day))))
  {
    WithinYear(a.year, a.month, a.day);
    WithinYear(b.year, b.month, b.day);
    if a.year < b.year {
      DaysBeforeYearMonotone(a.year, b.year);
    } else if b.year < a.year {
      DaysBeforeYearMonotone(b.year, a.year);
    } else if a.month < b.month {
      DaysBeforeMonthMonotone(a.year, a.month, b.month);
    } else if b.month < a.month {
      DaysBeforeMonthMonotone(a.year, b.month, a.month);
    }
  }

  // ---------------------------------------------------------------------
  // From an ordinal back to (year, month, day), as `date.fromordinal`.
  // ---------------------------------------------------------------------

  /** The year containing day `d`, searched for from the guess `y`. */
  function FindYear(d: int, y: int): (r: int)
    ensures DaysBeforeYear(r) < d <= DaysBeforeYear(r + 1)
    decreases if d <= DaysBeforeYear(y) then DaysBeforeYear(y) - d + 1
      else if d > DaysBeforeYear(y + 1) then d - DaysBeforeYear(y + 1) else 0
  {
    DaysBeforeYearStep(y - 1);
    DaysBeforeYearStep(y);
    DaysBeforeYearStep(y + 1);
    if d <= DaysBeforeYear(y) then FindYear(d, y - 1)
    else if d > DaysBeforeYear(y + 1) then FindYear(d, y + 1)
    else y
  }

  /** The month of year `y` containing day `d`, searched for downwards from `m`. */
  function FindMonth(d: int, y: int, m: int): (r: int)
    requires 1 <= m <= 12
    requires DaysBeforeYear(y) < d <= DaysBeforeYear(y) + DaysBeforeMonth(y, m + 1)
    ensures 1 <= r <= m
    ensures DaysBeforeYear(y) + DaysBeforeMonth(y, r) < d <= DaysBeforeYear(y) + DaysBeforeMonth(y, r + 1)
    decreases m
  {
    if m == 1 || DaysBeforeYear(y) + DaysBeforeMonth(y, m) < d then m
    else FindMonth(d, y, m - 1)
  }

  /** `date.fromordinal(d)` read as a triple: a valid triple whose ordinal is `d`. */
  function ToYmd(d: Date): (r: Ymd)
    ensures IsDate(r.year, r.month, r.day)
    ensures DateOf(r.year, r.month, r.day) == d
  {
    var y := FindYear(d, d / 366);
    DaysBeforeYearStep(y);
    var m := FindMonth(d, y, 12);
    DaysBeforeMonthStep(y, m);
    Ymd(y, m, d - DaysBeforeYear(y) - DaysBeforeMonth(y, m))
  }

  /** Reading a valid triple back from its ordinal gives the triple. */
  lemma YmdRoundTrip(y: int, m: int, d: int)
    requires IsDate(y, m, d)
    ensures ToYmd(DateOf(y, m, d)) == Ymd(y, m, d)
  {
    var r := ToYmd(DateOf(y, m, d));
    DateOfInjective(r, Ymd(y, m, d));
  }

  function YearOf(d: Date): int
  {
    ToYmd(d).year
  }

  function MonthOf(d: Date): int
  {
    ToYmd(d).month
  }

  /** A day lies in the year of its ordinal range, and only in that one. */
  lemma YearOfBounds(d: Date, y: int)
    ensures DaysBeforeYear(YearOf(d)) < d <= DaysBeforeYear(YearOf(d) + 1)
    ensures DaysBeforeYear(y) < d <= DaysBeforeYear(y + 1) ==> YearOf(d) == y
  {
    var r := ToYmd(d);
    WithinYear(r.year, r.month, r.day);
    if y < r.year {
      DaysBeforeYearMonotone(y, r.year);
    } else if r.year < y {
      DaysBeforeYearMonotone(r.year, y);
    }
  }

  /** Later days are in the same or a later year, and 365 days later is at most one year later. */
  lemma YearOfOrder(a: Date, b: Date)
    requires a <= b
    ensures YearOf(a) <= YearOf(b)
    ensures b <= a + 365 ==> YearOf(b) <= YearOf(a) + 1
  {
    YearOfBounds(a, 0);
    YearOfBounds(b, 0);
    YearsOrdered(a, b, YearOf(a), YearOf(b));
  }

  /** The ordering of two days' years, from the ordinal ranges of those years. */
  lemma YearsOrdered(a: Date, b: Date, ya: int, yb: int)
    requires a <= b
    requires DaysBeforeYear(ya) < a <= DaysBeforeYear(ya + 1)
    requires DaysBeforeYear(yb) < b <= DaysBeforeYear(yb + 1)
    ensures ya <= yb
    ensures b <= a + 365 ==> yb <= ya + 1
  {
    if yb < ya {
      DaysBeforeYearMonotone(yb, ya);
    }
    if b <= a + 365 && yb > ya + 1 {
      DaysBeforeYearStep(ya + 1);
      DaysBeforeYearMonotone(ya + 1, yb);
    }
  }

  /** The first day of the month after month `m` of year `y` (December wraps to January). */
  lemma NextMonthStart(y: int, m: int)
    requires 1 <= m <= 12
    ensures DateOf(y, m, 1) + DaysInMonth(y, m) == if m == 12 then DateOf(y + 1, 1, 1) else DateOf(y, m + 1, 1)
  {
    DaysBeforeMonthStep(y, m);
    DaysBeforeYearStep(y);
  }

  /** The days of month `m` of year `y` are the ordinals from its first to its last day. */
  lemma InMonth(t: Date, y: int, m: int)
    requires 1 <= m <= 12
    ensures (YearOf(t) == y && MonthOf(t) == m) <==>
      DateOf(y, m, 1) <= t < DateOf(y, m, 1) + DaysInMonth(y, m)
  {
    var r := ToYmd(t);
    WithinYear(r.year, r.month, r.day);
    DaysBeforeMonthStep(y, m);
    if DateOf(y, m, 1) <= t < DateOf(y, m, 1) + DaysInMonth(y, m) {
      var s := Ymd(y, m, t - DateOf(y, m, 1) + 1);
      DateOfInjective(r, s);
    }
  }

  /** Months numbered consecutively: month `m` of year `y` is `12 * y + m - 1`. */
  function MonthIndex(y: int, m: int): int
  {
    12 * y + (m - 1)
  }

  /** The month index of the month that contains day `d`. */
  function DateMonthIndex(d: Date): int
  {
    MonthIndex(YearOf(d), MonthOf(d))
  }

  /** The month after month `m` of year `y`: December is followed by January of the next year. */
  function NextMonth(y: int, m: int): (r: (int, int))
    requires 1 <= m <= 12
    ensures 1 <= r.1 <= 12 && MonthIndex(r.0, r.1) == MonthIndex(y, m) + 1
    ensures r.0 == y || (m == 12 && r.0 == y + 1)
  {
    if m == 12 then (y + 1, 1) else (y, m + 1)
  }

  /** Valid months with the same index are the same month. */
  lemma MonthIndexInjective(y1: int, m1: int, y2: int, m2: int)
    requires 1 <= m1 <= 12 && 1 <= m2 <= 12
    requires MonthIndex(y1, m1) == MonthIndex(y2, m2)
    ensures y1 == y2 && m1 == m2
  {
  }

  /** The first day of a month is at most `e` exactly when that month is not after the month of `e`. */
  lemma MonthStartAtMost(y: int, m: int, e: Date)
    requires 1 <= m <= 12
    ensures DateOf(y, m, 1) <= e <==> MonthIndex(y, m) <= DateMonthIndex(e)
  {
    var r := ToYmd(e);
    MonthStartAtMostYmd(y, m, r);
  }

  /** The same, for a day given as a valid (year, month, day) triple. */
  lemma MonthStartAtMostYmd(y: int, m: int, e: Ymd)
    requires 1 <= m <= 12 && IsDate(e.year, e.month, e.day)
    ensures DateOf(y, m, 1) <= DateOf(e.year, e.month, e.day) <==> MonthIndex(y, m) <= MonthIndex(e.year, e.month)
  {
    WithinYear(y, m, 1);
    DateOfOrder(Ymd(y, m, 1), e);
    if DateOf(y, m, 1) == DateOf(e.year, e.month, e.day) {
      DateOfInjective(Ymd(y, m, 1), e);
    }
  }

  // ---------------------------------------------------------------------
  // ISO 8601 week dates, as `date.isocalendar()` and `date.fromisocalendar()`
  // compute them.
  // ---------------------------------------------------------------------

  /** Facts about weeks of seven days, stated on plain integers. */
  lemma SevenSplit(x: int)
    ensures x == 7 * (x / 7) + x % 7 && 0 <= x % 7 < 7
  {
  }

  lemma SevenShift(t: int, w: int)
    requires (w + 6) % 7 == 0
    ensures (t - w) % 7 == (t + 6) % 7
  {
    var q := (w + 6) / 7;
    assert w == 7 * q - 6;
    assert t - w == (t + 6) - 7 * q;
  }

  /** Moving `k` days moves the weekday by `k` modulo seven. */
  lemma WeekdayAddDays(d: Date, k: int)
    ensures Weekday(d + k) == (Weekday(d) + k) % 7
  {
    var q := (d + 6) / 7;
    assert d + 6 == 7 * q + (d + 6) % 7;
    assert d + k + 6 == 7 * q + ((d + 6) % 7 + k);
  }

  /** Whole weeks later the weekday is the same. */
  lemma WeekdayAddWeeks(d: Date, n: int)
    ensures Weekday(d + 7 * n) == Weekday(d)
  {
    var q := (d + 6) / 7;
    assert d + 7 * n + 6 == 7 * (q + n) + (d + 6) % 7;
  }

  lemma WeekOffsetWeekday(monday: int, n: int, k: int)
    requires (monday + 6) % 7 == 0 && 0 <= k < 7
    ensures (monday + n * 7 + k + 6) % 7 == k
  {
    var q := (monday + 6) / 7;
    assert monday + n * 7 + k + 6 == 7 * (q + n) + k;
  }

  /** The Monday that starts ISO week 1, given the ordinal of 1 January. */
  function Week1MondayFrom(firstday: int): (r: int)
    ensures (r + 6) % 7 == 0
    ensures firstday - 3 <= r <= firstday + 3
  {
    var firstweekday := (firstday + 6) % 7;
    SevenSplit(firstday + 6);
    var week1monday := firstday - firstweekday;
    if firstweekday > 3 then week1monday + 7 else week1monday
  }

  /** Ordinal of the Monday that starts ISO week 1 of `year` (Python's `_isoweek1monday`). */
  function IsoWeek1Monday(year: int): (r: Date)
    ensures Weekday(r) == 0
  {
    Week1MondayFrom(DateOf(year, 1, 1))
  }

  /** The Monday of ISO week 1 lies within three days of 1 January. */
  lemma IsoWeek1MondayNear(year: int)
    ensures DateOf(year, 1, 1) - 3 <= IsoWeek1Monday(year) <= DateOf(year, 1, 1) + 3
  {
  }

  datatype IsoDate = IsoDate(isoYear: int, week: int, isoWeekday: int)

  /**
   * Python's `isocalendar` arithmetic on plain integers: `today` is an
   * ordinal of calendar year `year`, and `w0`, `w1`, `w2` are the week-1
   * Mondays of the years before, of and after it.
   */
  function IsoFromOrdinal(today: int, year: int, w0: int, w1: int, w2: int): (r: IsoDate)
    requires Weekday(w0) == 0 && Weekday(w1) == 0 && Weekday(w2) == 0
    requires w0 <= today < w2 + 7
    ensures 1 <= r.isoWeekday <= 7 && r.isoWeekday == (today + 6) % 7 + 1
    ensures r.week >= 1
    ensures year - 1 <= r.isoYear <= year + 1
    ensures today == (if r.isoYear == year - 1 then w0 else if r.isoYear == year then w1 else w2)
      + (r.week - 1) * 7 + (r.isoWeekday - 1)
    ensures r.isoYear == year - 1 ==> today < w1
    ensures r.isoYear == year ==> today < w2 || today < w1 + 364
  {
    SevenSplit(today - w1);
    SevenShift(today, w1);
    var week := (today - w1) / 7;
    var day := (today - w1) % 7;
    if week < 0 then
      SevenSplit(today - w0);
      SevenShift(today, w0);
      IsoDate(year - 1, (today - w0) / 7 + 1, (today - w0) % 7 + 1)
    else if week >= 52 && today >= w2 then
      SevenSplit(today - w2);
      SevenShift(today, w2);
      IsoDate(year + 1, 1, day + 1)
    else
      IsoDate(year, week + 1, day + 1)
  }

  /** `d.isocalendar()`: the ISO year, week and weekday (1 is Monday) that name day `d`. */
  function IsoCalendar(d: Date): (r: IsoDate)
    ensures 1 <= r.isoWeekday <= 7 && r.isoWeekday == Weekday(d) + 1
    ensures r.week >= 1
    ensures d == IsoWeek1Monday(r.isoYear) + (r.week - 1) * 7 + (r.isoWeekday - 1)
  {
    var y := YearOf(d);
    IsoCalendarBounds(d, y);
    IsoCalendarIn(d, y)
  }

  /** `isocalendar` for a day `d` of calendar year `y`. */
  function IsoCalendarIn(d: Date, y: int): (r: IsoDate)
    requires IsoWeek1Monday(y - 1) <= d < IsoWeek1Monday(y + 1) + 7
    ensures 1 <= r.isoWeekday <= 7 && r.isoWeekday == Weekday(d) + 1
    ensures r.week >= 1
    ensures d == IsoWeek1Monday(r.isoYear) + (r.week - 1) * 7 + (r.isoWeekday - 1)
  {
    var w0 := IsoWeek1Monday(y - 1);
    var w1 := IsoWeek1Monday(y);
    var w2 := IsoWeek1Monday(y + 1);
    var r := IsoFromOrdinal(d, y, w0, w1, w2);
    assert IsoWeek1Monday(r.isoYear) == if r.isoYear == y - 1 then w0 else if r.isoYear == y then w1 else w2;
    r
  }

  /** From 1 January of a common or leap year to the next one, the week-1 Mondays move by 52 or 53 weeks. */
  lemma Week1Gap(f: int, leap: bool)
    ensures Week1MondayFrom(f + (if leap then 366 else 365)) - Week1MondayFrom(f) ==
      if f % 7 == 4 || (f % 7 == 3 && leap) then 371 else 364
  {
    SevenSplit(f);
  }

  /** ISO year `y` has 53 weeks when `HasWeek53(y)`, and 52 otherwise. */
  lemma IsoYearLength(y: int)
    ensures IsoWeek1Monday(y + 1) - IsoWeek1Monday(y) == if HasWeek53(y) then 371 else 364
  {
    DaysBeforeYearStep(y);
    Week1Gap(DateOf(y, 1, 1), IsLeap(y));
  }

  /** An ISO year has at least 52 weeks. */
  lemma IsoYearAtLeast(y: int)
    ensures IsoWeek1Monday(y) + 364 <= IsoWeek1Monday(y + 1)
  {
    IsoYearLength(y);
  }

  /** `date.fromisocalendar(*d.isocalendar()) == d`: the week `isocalendar` reports always exists. */
  lemma IsoRoundTrip(d: Date)
    ensures var r := IsoCalendar(d);
      FromIsoCalendar(r.isoYear, r.week, r.isoWeekday) == Some(d)
  {
    IsoCalendarNames(d);
    RoundTripOf(d, IsoCalendar(d));
  }

  /** `r` names day `d`, and `d` comes before the week-1 Monday of the ISO year after `r`'s. */
  predicate NamesDay(d: Date, r: IsoDate)
  {
    1 <= r.isoWeekday <= 7 && r.isoWeekday == Weekday(d) + 1 && r.week >= 1 &&
    d == IsoWeek1Monday(r.isoYear) + (r.week - 1) * 7 + (r.isoWeekday - 1) &&
    d < IsoWeek1Monday(r.isoYear + 1)
  }

  /** The ISO date `isocalendar` reports names the day, within its ISO year. */
  lemma IsoCalendarNames(d: Date)
    ensures NamesDay(d, IsoCalendar(d))
  {
    IsoCalendarIsIn(d);
    IsoInBelow(d, YearOf(d), IsoCalendar(d));
  }

  /** `RoundTripFrom` for the fields of an ISO date. */
  lemma RoundTripOf(d: Date, r: IsoDate)
    requires NamesDay(d, r)
    ensures FromIsoCalendar(r.isoYear, r.week, r.isoWeekday) == Some(d)
  {
    RoundTripFrom(d, r.isoYear, r.week, r.isoWeekday);
  }

  /** The day `isocalendar` names comes before the week-1 Monday of the next ISO year. */
  lemma IsoInBelow(d: Date, y: int, iso: IsoDate)
    requires IsoWeek1Monday(y - 1) <= d < IsoWeek1Monday(y + 1) + 7
    requires iso == IsoCalendarIn(d, y)
    ensures d < IsoWeek1Monday(iso.isoYear + 1)
  {
    var w0 := IsoWeek1Monday(y - 1);
    var w1 := IsoWeek1Monday(y);
    var w2 := IsoWeek1Monday(y + 1);
    var w3 := IsoWeek1Monday(y + 2);
    IsoYearAtLeast(y);
    IsoYearAtLeast(y + 1);
    IsoFromOrdinalBelow(d, y, w0, w1, w2, w3);
    assert iso == IsoFromOrdinal(d, y, w0, w1, w2);
    if iso.isoYear == y - 1 {
      assert iso.isoYear + 1 == y;
    } else if iso.isoYear == y {
      assert iso.isoYear + 1 == y + 1;
    } else {
      assert iso.isoYear + 1 == y + 2;
    }
  }

  /** A day named by week and weekday of ISO year `year`, before the next ISO year, is found again by `fromisocalendar`. */
  lemma RoundTripFrom(d: Date, year: int, week: int, weekday: int)
    requires 1 <= weekday <= 7 && week >= 1
    requires d == IsoWeek1Monday(year) + (week - 1) * 7 + (weekday - 1)
    requires d < IsoWeek1Monday(year + 1)
    ensures FromIsoCalendar(year, week, weekday) == Some(d)
  {
    IsoYearLength(year);
    WeekWithinYear(d, IsoWeek1Monday(year), IsoWeek1Monday(year + 1), week, weekday, HasWeek53(year));
  }

  /** A day before the next ISO year's week 1 lies in week 52 at most, or 53 in a long year. */
  lemma WeekWithinYear(d: int, start: int, next: int, week: int, weekday: int, long: bool)
    requires d == start + (week - 1) * 7 + (weekday - 1) && 1 <= weekday <= 7 && week >= 1
    requires d < next && next - start == if long then 371 else 364
    ensures 1 <= week <= 52 || (week == 53 && long)
  {
    var k := week - 1;
    assert k * 7 + weekday - 1 < next - start;
    if long {
      assert k * 7 < 371;
    } else {
      assert k * 7 < 364;
    }
  }

  /** `isocalendar` reads a day within the ISO years around its calendar year. */
  lemma IsoCalendarIsIn(d: Date)
    ensures IsoWeek1Monday(YearOf(d) - 1) <= d < IsoWeek1Monday(YearOf(d) + 1) + 7
    ensures IsoCalendar(d) == IsoCalendarIn(d, YearOf(d))
  {
    IsoCalendarBounds(d, YearOf(d));
  }

  /** The day `IsoFromOrdinal` names lies before the week-1 Monday of the following ISO year. */
  lemma IsoFromOrdinalBelow(today: int, year: int, w0: int, w1: int, w2: int, w3: int)
    requires Weekday(w0) == 0 && Weekday(w1) == 0 && Weekday(w2) == 0
    requires w0 <= today < w2 + 7
    requires w1 + 364 <= w2 && w2 + 364 <= w3
    ensures var r := IsoFromOrdinal(today, year, w0, w1, w2);
      today < (if r.isoYear == year - 1 then w1 else if r.isoYear == year then w2 else w3)
  {
  }

  lemma IsoCalendarBounds(d: Date, y: int)
    requires y == YearOf(d)
    ensures IsoWeek1Monday(y - 1) <= d < IsoWeek1Monday(y + 1) + 7
  {
    var r := ToYmd(d);
    WithinYear(r.year, r.month, r.day);
    DaysBeforeYearStep(r.year - 1);
    IsoWeek1MondayNear(y - 1);
    IsoWeek1MondayNear(y + 1);
  }

  /** True when ISO year `year` has a week 53 (it starts on a Thursday, or on a Wednesday in a leap year). */
  predicate HasWeek53(year: int)
  {
    var firstWeekday := DateOf(year, 1, 1) % 7;
    firstWeekday == 4 || (firstWeekday == 3 && IsLeap(year))
  }

  /** `date.fromisocalendar(year, week, day)`; `None` where Python raises ValueError. */
  function FromIsoCalendar(year: int, week: int, day: int): (r: Option<Date>)
    ensures r.Some? <==> (1 <= week <= 52 || (week == 53 && HasWeek53(year))) && 1 <= day <= 7
    ensures r.Some? ==> r.value == IsoWeek1Monday(year) + (week - 1) * 7 + (day - 1)
    ensures r.Some? ==> Weekday(r.value) == day - 1
  {
    if !((1 <= week <= 52 || (week == 53 && HasWeek53(year))) && 1 <= day <= 7) then None
    else
      var w1 := IsoWeek1Monday(year);
      WeekOffsetWeekday(w1, week - 1, day - 1);
      Some(w1 + (week - 1) * 7 + (day - 1))
  }
}
