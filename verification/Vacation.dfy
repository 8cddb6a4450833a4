/**
 * Vacation balance (app/core/schedule/vacation.py): the vacation year and
 * its earning year, the weekdays that week-based vacation uses up, the
 * pro-rated entitlement of a first year, the days saved from the five
 * previous years, and the year-end split of the remaining days into days
 * saved and days paid out.
 *
 * A user's `vacation` column maps a calendar year to its list of ISO week
 * numbers and `vacation_saved` maps a closed vacation year to its closing
 * record; both are keyed by the year's `str`, which is one-to-one, so the
 * model keys them by the year itself. The day-level vacation rows of the
 * absences table are an input sequence.
 */
module Vacation {
  import opened Wrappers
  import opened Calendar
  import opened Arith

  // ---------------------------------------------------------------------
  // Vacation-year boundaries
  // ---------------------------------------------------------------------

  /**
   * `get_vacation_year_boundaries`: the vacation year of `year` starts on
   * the 1st of `startMonth` and ends on 31 December when that month is
   * January, else on the day before the same date a year later. A month
   * outside 1..12 makes `datetime.date` raise: `None`.
   */
  function YearBounds(year: int, startMonth: int): (r: Option<(Date, Date)>)
    ensures r.Some? <==> 1 <= startMonth <= 12
  {
    if !(1 <= startMonth <= 12) then None
    else if startMonth == 1 then Some((DateOf(year, 1, 1), DateOf(year, 12, 31)))
    else Some((DateOf(year, startMonth, 1), DateOf(year + 1, startMonth, 1) - 1))
  }

  /**
   * Every vacation year, January ones included, runs from the 1st of its
   * month to the day before that date a year later: it is one year long,
   * starts no later than it ends, and the next vacation year starts the day
   * after it ends.
   */
  lemma YearBoundsSpan(year: int, startMonth: int)
    requires 1 <= startMonth <= 12
    ensures var (start, end) := YearBounds(year, startMonth).value;
      start == DateOf(year, startMonth, 1) &&
      end + 1 == DateOf(year + 1, startMonth, 1) &&
      end - start + 1 == (if startMonth <= 2 then DaysInYear(year) else DaysInYear(year + 1)) &&
      start <= end &&
      YearBounds(year + 1, startMonth).value.0 == end + 1
  {
    DaysBeforeYearStep(year);
    DaysBeforeYearStep(year + 1);
  }

  /**
   * A vacation year covers exactly twelve months: a day lies in it iff
   * its month is one of the twelve months from the start month on.
   */
  lemma YearBoundsMonths(year: int, startMonth: int, d: Date)
    requires 1 <= startMonth <= 12
    ensures var (start, end) := YearBounds(year, startMonth).value;
      start <= d <= end <==>
      MonthIndex(year, startMonth) <= DateMonthIndex(d) < MonthIndex(year, startMonth) + 12
  {
    YearBoundsSpan(year, startMonth);
    MonthStartAtMost(year, startMonth, d);
    MonthStartAtMost(year + 1, startMonth, d);
  }

  // ---------------------------------------------------------------------
  // Week-based vacation: `_count_weekdays_in_vacation_weeks`
  // ---------------------------------------------------------------------

  /** ISO year `isoYear` has a week `week` (`fromisocalendar` accepts it). */
  predicate ValidIsoWeek(isoYear: int, week: int)
  {
    1 <= week <= 52 || (week == 53 && HasWeek53(isoYear))
  }

  /** 1 when ISO day `day` of `week` exists and lies in `[start, end]`, else 0. */
  function DayHit(isoYear: int, week: int, day: int, start: Date, end: Date): int
  {
    match FromIsoCalendar(isoYear, week, day)
    case None => 0
    case Some(d) => if start <= d <= end then 1 else 0
  }

  /** The hits among ISO days 1..n of `week`. */
  function WeekHits(isoYear: int, week: int, start: Date, end: Date, n: nat): int
  {
    if n == 0 then 0 else WeekHits(isoYear, week, start, end, n - 1) + DayHit(isoYear, week, n, start, end)
  }

  /** The Monday-to-Friday hits of every listed week, in list order. */
  function WeekdaysIn(weeks: seq<int>, isoYear: int, start: Date, end: Date): int
  {
    if weeks == [] then 0
    else WeekdaysIn(weeks[..|weeks| - 1], isoYear, start, end) + WeekHits(isoYear, weeks[|weeks| - 1], start, end, 5)
  }

  /** `_count_weekdays_in_vacation_weeks`: the nested loop over weeks and ISO days 1..5. */
  method CountWeekdaysInWeeks(weeks: seq<int>, isoYear: int, start: Date, end: Date) returns (count: int)
    ensures count == WeekdaysIn(weeks, isoYear, start, end)
  {
    count := 0;
    for i := 0 to |weeks|
      invariant count == WeekdaysIn(weeks[..i], isoYear, start, end)
    {
      var week := weeks[i];
      ghost var before := count;
      for isoDay := 1 to 6
        invariant count == before + WeekHits(isoYear, week, start, end, isoDay - 1)
      {
        var d := FromIsoCalendar(isoYear, week, isoDay);
        if d.Some? && start <= d.value <= end {
          count := count + 1;
        }
      }
      assert weeks[..i + 1][..i] == weeks[..i];
    }
    assert weeks[..|weeks|] == weeks;
  }

  /** The number of whole days in both `[a, b]` and `[start, end]`. */
  function Overlap(a: int, b: int, start: int, end: int): (r: int)
    ensures r >= 0
  {
    var lo := if a < start then start else a;
    var hi := if b < end then b else end;
    if hi < lo then 0 else hi - lo + 1
  }

  /**
   * The days counted in a valid week are exactly its Monday-to-Friday
   * days inside the period: as many as the days shared by Monday..Friday
   * of that week and `[start, end]`.
   */
  lemma {:induction false} WeekHitsOverlap(isoYear: int, week: int, start: Date, end: Date, n: nat)
    requires ValidIsoWeek(isoYear, week) && n <= 7
    ensures var monday := IsoWeek1Monday(isoYear) + (week - 1) * 7;
      WeekHits(isoYear, week, start, end, n) == Overlap(monday, monday + n - 1, start, end)
  {
    if n > 0 {
      WeekHitsOverlap(isoYear, week, start, end, n - 1);
    }
  }

  /** A week that `fromisocalendar` rejects counts nothing. */
  lemma InvalidWeekSkipped(isoYear: int, week: int, start: Date, end: Date, n: nat)
    requires !ValidIsoWeek(isoYear, week)
    ensures WeekHits(isoYear, week, start, end, n) == 0
  {
    if n > 0 {
      InvalidWeekSkipped(isoYear, week, start, end, n - 1);
    }
  }

  /** A valid week lying wholly inside the period counts five days. */
  lemma WholeWeekCountsFive(isoYear: int, week: int, start: Date, end: Date)
    requires ValidIsoWeek(isoYear, week)
    requires var monday := IsoWeek1Monday(isoYear) + (week - 1) * 7; start <= monday && monday + 4 <= end
    ensures WeekHits(isoYear, week, start, end, 5) == 5
  {
    WeekHitsOverlap(isoYear, week, start, end, 5);
  }

  /** Each week counts at most five days, so the count is at most five per listed week. */
  lemma {:induction false} WeekdaysBound(weeks: seq<int>, isoYear: int, start: Date, end: Date)
    ensures 0 <= WeekdaysIn(weeks, isoYear, start, end) <= 5 * |weeks|
  {
    if weeks != [] {
      WeekdaysBound(weeks[..|weeks| - 1], isoYear, start, end);
      var w := weeks[|weeks| - 1];
      if ValidIsoWeek(isoYear, w) {
        WeekHitsOverlap(isoYear, w, start, end, 5);
      } else {
        InvalidWeekSkipped(isoYear, w, start, end, 5);
      }
    }
  }

  // ---------------------------------------------------------------------
  // `count_vacation_days_used`
  // ---------------------------------------------------------------------

  /** A row of the absences table. */
  datatype AbsenceRow = AbsenceRow(userId: int, date: Date, isVacation: bool)

  /** The user's vacation rows dated inside `[start, end]`: the count query. */
  function DayLevel(rows: seq<AbsenceRow>, userId: int, start: Date, end: Date): (r: nat)
    ensures r <= |rows|
  {
    if rows == [] then 0
    else
      var x := rows[|rows| - 1];
      DayLevel(rows[..|rows| - 1], userId, start, end) +
        (if x.userId == userId && x.isVacation && start <= x.date <= end then 1 else 0)
  }

  /** The weeks stored for calendar year `y` (`.get(str(y), []) or []`). */
  function WeeksFor(vacation: map<int, seq<int>>, y: int): seq<int>
  {
    if y in vacation then vacation[y] else []
  }

  /** The week-based days of the `n` calendar years from `first` on. */
  function WeekBasedFrom(vacation: map<int, seq<int>>, first: int, n: nat, start: Date, end: Date): int
  {
    if n == 0 then 0
    else WeekBasedFrom(vacation, first, n - 1, start, end) + WeekdaysIn(WeeksFor(vacation, first + n - 1), first + n - 1, start, end)
  }

  datatype UsedDays = UsedDays(weekBased: int, dayLevel: int, total: int)

  /** The week-based days of `[start, end]`: those of every calendar year the period touches. */
  function WeekBasedOf(vacation: map<int, seq<int>>, start: Date, end: Date): int
  {
    if start <= end then
      YearOfOrder(start, end);
      WeekBasedFrom(vacation, YearOf(start), YearOf(end) - YearOf(start) + 1, start, end)
    else 0
  }

  /**
   * The vacation days used in `[start, end]`: the listed ISO weeks of every
   * calendar year the period touches, plus the day-level vacation rows.
   */
  function UsedOf(vacation: map<int, seq<int>>, rows: seq<AbsenceRow>, userId: int, start: Date, end: Date): UsedDays
  {
    var weekBased := WeekBasedOf(vacation, start, end);
    var dayLevel := DayLevel(rows, userId, start, end);
    UsedDays(weekBased, dayLevel, weekBased + dayLevel)
  }

  /**
   * The loop of `count_vacation_days_used` that collects the calendar
   * years of the period, jumping from the start day to the 1st of each
   * following month: exactly the years from the start's to the end's,
   * and none when the period is empty. The first pass, the only one that
   * starts from a day other than a 1st, is written before the loop.
   */
  method CalendarYears(start: Date, end: Date) returns (years: set<int>)
    ensures forall y :: y in years <==> start <= end && YearOf(start) <= y <= YearOf(end)
  {
    years := {};
    var d := ToYmd(start);
    ghost var e := ToYmd(end);
    if DateOf(d.year, d.month, d.day) <= end {
      ghost var first := d.year;
      MonthStartAtMostYmd(d.year, d.month, e);
      YearRangeStep(first, first - 1, first);
      years := years + {d.year};
      ghost var last := (d.year, d.month);
      var next := NextMonth(d.year, d.month);
      d := Ymd(next.0, next.1, 1);
      while DateOf(d.year, d.month, d.day) <= end
        invariant 1 <= last.1 <= 12 && d.day == 1 && first <= last.0
        invariant (d.year, d.month) == NextMonth(last.0, last.1)
        invariant MonthIndex(last.0, last.1) <= MonthIndex(e.year, e.month)
        invariant years == YearRange(first, last.0)
        decreases MonthIndex(e.year, e.month) + 1 - MonthIndex(d.year, d.month)
      {
        MonthStartAtMostYmd(d.year, d.month, e);
        YearRangeStep(first, last.0, d.year);
        years := years + {d.year};
        last := (d.year, d.month);
        next := NextMonth(d.year, d.month);
        d := Ymd(next.0, next.1, 1);
      }
      MonthStartAtMostYmd(d.year, d.month, e);
      MonthIndexInjective(last.0, last.1, e.year, e.month);
    }
  }

  /** The years `lo .. hi`. */
  function YearRange(lo: int, hi: int): (r: set<int>)
    ensures forall y :: y in r <==> lo <= y <= hi
    decreases hi - lo
  {
    if hi < lo then {} else YearRange(lo, hi - 1) + {hi}
  }

  /** Adding the year after the last of a range, or the last one again, extends the range to it. */
  lemma YearRangeStep(lo: int, hi: int, next: int)
    requires hi <= next <= hi + 1 && lo <= next
    ensures YearRange(lo, hi) + {next} == YearRange(lo, next)
  {
  }

  /**
   * `count_vacation_days_used`: the week-based days of every calendar year
   * the period touches, the day-level rows, and their sum.
   */
  method CountVacationDaysUsed(userId: int, start: Date, end: Date, rows: seq<AbsenceRow>, vacation: map<int, seq<int>>)
    returns (used: UsedDays)
    ensures used == UsedOf(vacation, rows, userId, start, end)
    ensures used.total == used.weekBased + used.dayLevel
  {
    var years := CalendarYears(start, end);
    var weekBased := WeekBasedDays(vacation, years, start, end);
    var dayLevel := DayLevel(rows, userId, start, end);
    used := UsedDays(weekBased, dayLevel, weekBased + dayLevel);
  }

  /** The week-based days of the calendar years of `[start, end]`, given as the set `years`. */
  method WeekBasedDays(vacation: map<int, seq<int>>, years: set<int>, start: Date, end: Date) returns (weekBased: int)
    requires forall y :: y in years <==> start <= end && YearOf(start) <= y <= YearOf(end)
    ensures weekBased == WeekBasedOf(vacation, start, end)
  {
    weekBased := 0;
    if start <= end {
      YearOfOrder(start, end);
      weekBased := WeekBasedLoop(vacation, years, YearOf(start), YearOf(end) - YearOf(start) + 1, start, end);
    }
  }

  /**
   * The loop over the calendar years `first .. first + n - 1`, adding the
   * weekdays of each year's listed weeks; the years are visited in
   * ascending order.
   */
  method WeekBasedLoop(vacation: map<int, seq<int>>, years: set<int>, first: int, n: nat, start: Date, end: Date)
    returns (weekBased: int)
    requires forall y :: y in years <==> first <= y < first + n
    ensures weekBased == WeekBasedFrom(vacation, first, n, start, end)
  {
    weekBased := 0;
    for k := 0 to n
      invariant weekBased == WeekBasedFrom(vacation, first, k, start, end)
    {
      var y := first + k;
      assert y in years;
      var weeks := WeeksFor(vacation, y);
      WeekBasedStep(vacation, first, k, start, end);
      if weeks != [] {
        var c := CountWeekdaysInWeeks(weeks, y, start, end);
        weekBased := weekBased + c;
      }
    }
  }

  /** One more year adds the weekdays of its listed weeks, and none when it lists no week. */
  lemma WeekBasedStep(vacation: map<int, seq<int>>, first: int, k: nat, start: Date, end: Date)
    ensures WeekBasedFrom(vacation, first, k + 1, start, end) ==
      WeekBasedFrom(vacation, first, k, start, end) + WeekdaysIn(WeeksFor(vacation, first + k), first + k, start, end)
    ensures WeeksFor(vacation, first + k) == [] ==> WeekdaysIn(WeeksFor(vacation, first + k), first + k, start, end) == 0
  {
  }

  /** Week-based vacation counts at most five days per listed week of the years touched. */
  lemma {:induction false} WeekBasedBound(vacation: map<int, seq<int>>, first: int, n: nat, start: Date, end: Date)
    ensures 0 <= WeekBasedFrom(vacation, first, n, start, end) <= 5 * ListedWeeks(vacation, first, n)
  {
    if n > 0 {
      WeekBasedBound(vacation, first, n - 1, start, end);
      WeekdaysBound(WeeksFor(vacation, first + n - 1), first + n - 1, start, end);
    }
  }

  /** The number of weeks listed for the `n` calendar years from `first` on. */
  function ListedWeeks(vacation: map<int, seq<int>>, first: int, n: nat): nat
  {
    if n == 0 then 0 else ListedWeeks(vacation, first, n - 1) + |WeeksFor(vacation, first + n - 1)|
  }

  // ---------------------------------------------------------------------
  // Pro-rating: `_calculate_prorated_days`
  // ---------------------------------------------------------------------

  /**
   * `_calculate_prorated_days`: 0 when employment starts after the earning
   * year; otherwise the full days times the employed days over the days of
   * the earning year, rounded up. The earning year is not empty (its
   * length is the divisor).
   */
  function ProratedDays(employmentStart: Date, earningStart: Date, earningEnd: Date, fullYearDays: int): (r: int)
    requires earningStart <= earningEnd
  {
    var effectiveStart := if employmentStart < earningStart then earningStart else employmentStart;
    if effectiveStart > earningEnd then 0
    else
      var employmentDays := earningEnd - effectiveStart + 1;
      var totalDays := earningEnd - earningStart + 1;
      CeilDiv(fullYearDays * employmentDays, totalDays)
  }

  /**
   * With a non-negative yearly quota the pro-rated days lie between 0 and
   * the quota; employment covering the whole earning year gives the whole
   * quota, and starting after it gives none.
   */
  lemma ProratedBounds(employmentStart: Date, earningStart: Date, earningEnd: Date, fullYearDays: int)
    requires earningStart <= earningEnd && fullYearDays >= 0
    ensures 0 <= ProratedDays(employmentStart, earningStart, earningEnd, fullYearDays) <= fullYearDays
    ensures employmentStart <= earningStart ==> ProratedDays(employmentStart, earningStart, earningEnd, fullYearDays) == fullYearDays
    ensures employmentStart > earningEnd ==> ProratedDays(employmentStart, earningStart, earningEnd, fullYearDays) == 0
  {
    var effectiveStart := if employmentStart < earningStart then earningStart else employmentStart;
    var totalDays := earningEnd - earningStart + 1;
    if effectiveStart <= earningEnd {
      var employmentDays := earningEnd - effectiveStart + 1;
      MulLeq(fullYearDays, 0, employmentDays);
      MulLeq(fullYearDays, employmentDays, totalDays);
      CeilDivMonotone(0, fullYearDays * employmentDays, totalDays);
      CeilDivMonotone(fullYearDays * employmentDays, fullYearDays * totalDays, totalDays);
      CeilDivExact(0, totalDays);
      CeilDivExact(fullYearDays, totalDays);
    }
  }

  /** A later employment start never earns more days. */
  lemma ProratedMonotone(s1: Date, s2: Date, earningStart: Date, earningEnd: Date, fullYearDays: int)
    requires earningStart <= earningEnd && fullYearDays >= 0 && s1 <= s2
    ensures ProratedDays(s2, earningStart, earningEnd, fullYearDays) <= ProratedDays(s1, earningStart, earningEnd, fullYearDays)
  {
    var e1 := if s1 < earningStart then earningStart else s1;
    var e2 := if s2 < earningStart then earningStart else s2;
    var totalDays := earningEnd - earningStart + 1;
    if e2 <= earningEnd {
      MulLeq(fullYearDays, earningEnd - e2 + 1, earningEnd - e1 + 1);
      CeilDivMonotone(fullYearDays * (earningEnd - e2 + 1), fullYearDays * (earningEnd - e1 + 1), totalDays);
    } else {
      ProratedBounds(s1, earningStart, earningEnd, fullYearDays);
    }
  }

  // ---------------------------------------------------------------------
  // Saved days: `get_saved_days_balance`
  // ---------------------------------------------------------------------

  /** The record `close_vacation_year` stores for a closed vacation year. */
  datatype ClosedYear = ClosedYear(saved: int, paidOut: int, payoutAmount: real, payoutPerDay: real)

  /** The days saved from year `y`, as the breakdown reports them. */
  datatype SavedEntry = SavedEntry(year: int, days: int)

  /** The years `first .. first + n - 1` whose closing saved a positive number of days, in ascending order. */
  function Breakdown(saved: map<int, ClosedYear>, first: int, n: nat): seq<SavedEntry>
  {
    if n == 0 then []
    else
      var y := first + n - 1;
      Breakdown(saved, first, n - 1) + (if y in saved && saved[y].saved > 0 then [SavedEntry(y, saved[y].saved)] else [])
  }

  function SumDays(entries: seq<SavedEntry>): int
  {
    if entries == [] then 0 else SumDays(entries[..|entries| - 1]) + entries[|entries| - 1].days
  }

  /**
   * `get_saved_days_balance`: the loop over the five years before the
   * target, keeping those that saved a positive number of days.
   */
  method SavedDaysBalance(saved: map<int, ClosedYear>, targetYear: int) returns (total: int, breakdown: seq<SavedEntry>)
    ensures breakdown == Breakdown(saved, targetYear - 5, 5)
    ensures total == SumDays(breakdown)
  {
    total, breakdown := 0, [];
    for k := 0 to 5
      invariant breakdown == Breakdown(saved, targetYear - 5, k)
      invariant total == SumDays(breakdown)
    {
      var y := targetYear - 5 + k;
      if y in saved && saved[y].saved > 0 {
        var days := saved[y].saved;
        total := total + days;
        assert (breakdown + [SavedEntry(y, days)])[..|breakdown|] == breakdown;
        breakdown := breakdown + [SavedEntry(y, days)];
      }
    }
  }

  /** Every breakdown entry is a year of the window whose closing saved that positive number of days. */
  lemma {:induction false} BreakdownSound(saved: map<int, ClosedYear>, first: int, n: nat)
    ensures forall e :: e in Breakdown(saved, first, n) ==>
      first <= e.year < first + n && e.year in saved && e.days == saved[e.year].saved && e.days > 0
  {
    if n > 0 {
      BreakdownSound(saved, first, n - 1);
    }
  }

  /** Entries in strictly ascending year order. */
  predicate Ascending(b: seq<SavedEntry>)
  {
    forall i, j :: 0 <= i < j < |b| ==> b[i].year < b[j].year
  }

  /** The breakdown is in strictly ascending year order. */
  lemma {:induction false} BreakdownAscending(saved: map<int, ClosedYear>, first: int, n: nat)
    ensures Ascending(Breakdown(saved, first, n))
  {
    if n > 0 {
      BreakdownAscending(saved, first, n - 1);
      BreakdownSound(saved, first, n - 1);
      var b0, b := Breakdown(saved, first, n - 1), Breakdown(saved, first, n);
      var y := first + n - 1;
      if y in saved && saved[y].saved > 0 {
        assert b == b0 + [SavedEntry(y, saved[y].saved)];
        forall i, j | 0 <= i < j < |b| ensures b[i].year < b[j].year {
          assert b[i] == b0[i] && b0[i] in b0;
          if j < |b0| {
            assert b[j] == b0[j];
          }
        }
      } else {
        assert b == b0;
      }
    }
  }

  /** Every year of the window whose closing saved a positive number of days is in the breakdown. */
  lemma {:induction false} BreakdownComplete(saved: map<int, ClosedYear>, first: int, n: nat, y: int)
    requires first <= y < first + n && y in saved && saved[y].saved > 0
    ensures SavedEntry(y, saved[y].saved) in Breakdown(saved, first, n)
  {
    if y < first + n - 1 {
      BreakdownComplete(saved, first, n - 1, y);
    }
  }

  /** Only positive savings are summed, so the balance is never negative. */
  lemma {:induction false} SumDaysNonNegative(saved: map<int, ClosedYear>, first: int, n: nat)
    ensures SumDays(Breakdown(saved, first, n)) >= 0
  {
    if n > 0 {
      SumDaysNonNegative(saved, first, n - 1);
      var b0, b := Breakdown(saved, first, n - 1), Breakdown(saved, first, n);
      var y := first + n - 1;
      if y in saved && saved[y].saved > 0 {
        assert b == b0 + [SavedEntry(y, saved[y].saved)];
        assert b[..|b| - 1] == b0;
      } else {
        assert b == b0;
        assert SumDays(b0) >= 0;
      }
    }
  }

  /** Closing records outside the five-year window never change the saved-days balance. */
  lemma {:induction false} BreakdownWindow(saved: map<int, ClosedYear>, first: int, n: nat, y: int, c: ClosedYear)
    requires y < first || y >= first + n
    ensures Breakdown(saved[y := c], first, n) == Breakdown(saved, first, n)
  {
    if n > 0 {
      BreakdownWindow(saved, first, n - 1, y, c);
    }
  }

  // ---------------------------------------------------------------------
  // Closing a year: days saved and days paid out
  // ---------------------------------------------------------------------

  /** `close_vacation_year`'s split: nothing for no remaining days, else up to 5 saved and the rest paid out. */
  function CloseSplit(remaining: int): (int, int)
  {
    if remaining <= 0 then (0, 0)
    else (if remaining < 5 then remaining else 5, if remaining - 5 > 0 then remaining - 5 else 0)
  }

  /** The split the projection of an open year shows: `min(max(rem, 0), 5)` and `max(rem - 5, 0)`. */
  function ProjectedSplit(remaining: int): (int, int)
  {
    var nonNegative := if remaining > 0 then remaining else 0;
    (if nonNegative < 5 then nonNegative else 5, if remaining - 5 > 0 then remaining - 5 else 0)
  }

  /**
   * The projection shows the split that closing will make; at most five
   * days are saved, days are paid out only once five are saved, and the
   * two parts add up to the remaining days, or to none when none remain.
   */
  lemma SplitsAgree(remaining: int)
    ensures CloseSplit(remaining) == ProjectedSplit(remaining)
    ensures var (saved, paidOut) := CloseSplit(remaining);
      0 <= saved <= 5 && paidOut >= 0 && (paidOut > 0 ==> saved == 5) &&
      saved + paidOut == (if remaining > 0 then remaining else 0)
  {
  }

  /** The pay figures the balance reads, from `calculate_vacation_pay`. */
  datatype PayFigures = PayFigures(monthlySalary: real, fixedPerDay: real, supplementPerDay: real, payoutPct: real, advanceUsed: int)

  /** The payout per day: the salary times the payout share plus the supplement per day. */
  function PayoutPerDay(pay: PayFigures): real
  {
    pay.monthlySalary * pay.payoutPct + pay.supplementPerDay
  }

  /** The closing record of a year with `remaining` days left. */
  function ClosedYearFor(remaining: int, pay: PayFigures): (r: ClosedYear)
    ensures (r.saved, r.paidOut) == CloseSplit(remaining)
    ensures r.payoutPerDay == PayoutPerDay(pay) && r.payoutAmount == r.paidOut as real * r.payoutPerDay
  {
    var (saved, paidOut) := CloseSplit(remaining);
    var perDay := PayoutPerDay(pay);
    ClosedYear(saved, paidOut, paidOut as real * perDay, perDay)
  }

  // ---------------------------------------------------------------------
  // `calculate_vacation_balance`
  // ---------------------------------------------------------------------

  /** The columns of a user that the balance reads and never writes. */
  datatype UserInfo = UserInfo(
    id: int,
    vacationYearStartMonth: Option<int>,
    vacationDaysPerYear: Option<int>,
    employmentStart: Option<Date>,
    transitionDate: Option<Date>,
    vacation: map<int, seq<int>>)

  /** The projection shown for a vacation year that has not ended. */
  datatype Projection = Projection(daysToSave: int, daysToPayOut: int, payoutPerDay: real, payoutTotal: real)

  /** The report of `calculate_vacation_balance`; `advanceUsed` is 0 where the pay figures carry none. */
  datatype Balance = Balance(
    entitledDays: int,
    usedDays: int,
    remainingDays: int,
    yearStart: Date,
    yearEnd: Date,
    earningStart: Date,
    earningEnd: Date,
    isFirstYear: bool,
    weekBasedUsed: int,
    dayLevelUsed: int,
    pay: PayFigures,
    advanceUsed: int,
    savedFromPrevious: int,
    savedBreakdown: seq<SavedEntry>,
    totalAvailable: int,
    projection: Option<Projection>,
    closed: Option<ClosedYear>)

  /** `x or default`: an unset or zero setting falls back to the default. */
  function OrDefault(x: Option<int>, default: int): int
  {
    if x.None? || x.value == 0 then default else x.value
  }

  /** The start of accrual: the transition date when a transition comes after the employment start. */
  function AccrualStart(employmentStart: Option<Date>, transitionDate: Option<Date>): (r: Option<Date>)
    ensures r.None? <==> employmentStart.None?
    ensures r.Some? ==> r.value >= employmentStart.value && (r.value == employmentStart.value || Some(r.value) == transitionDate)
  {
    if employmentStart.Some? && transitionDate.Some? && transitionDate.value > employmentStart.value then transitionDate
    else employmentStart
  }

  /**
   * The advance vacation of a first direct-employment year: the days used
   * beyond the entitlement, capped at the days missing from the full quota.
   */
  function AdvanceUsed(usedTotal: int, entitled: int, fullDays: int): int
  {
    var maxAdvance := if fullDays - entitled > 0 then fullDays - entitled else 0;
    var beyond := if usedTotal - entitled < maxAdvance then usedTotal - entitled else maxAdvance;
    if beyond > 0 then beyond else 0
  }

  /**
   * The advance lies between 0 and the days missing from the full quota,
   * never exceeds the days used beyond the entitlement, and takes all of
   * them up to that cap.
   */
  lemma AdvanceBounds(usedTotal: int, entitled: int, fullDays: int)
    ensures var a := AdvanceUsed(usedTotal, entitled, fullDays);
      0 <= a && (a == 0 || (a <= fullDays - entitled && a <= usedTotal - entitled)) &&
      (usedTotal >= entitled && fullDays >= entitled ==>
        a == if usedTotal - entitled < fullDays - entitled then usedTotal - entitled else fullDays - entitled)
  {
  }

  /** The supplement per day blended over normal and advance days. */
  function Blended(usedTotal: int, advance: int, supplementPerDay: real, fixedPerDay: real): real
    requires usedTotal > 0
  {
    ((usedTotal - advance) as real * supplementPerDay + advance as real * fixedPerDay) / usedTotal as real
  }

  /** The blended supplement is a weighted mean: it lies between the normal supplement and the fixed part. */
  lemma BlendedBetween(usedTotal: int, advance: int, supplementPerDay: real, fixedPerDay: real)
    requires 0 < advance <= usedTotal
    ensures var b := Blended(usedTotal, advance, supplementPerDay, fixedPerDay);
      (supplementPerDay <= fixedPerDay ==> supplementPerDay <= b <= fixedPerDay) &&
      (fixedPerDay <= supplementPerDay ==> fixedPerDay <= b <= supplementPerDay)
  {
    var t, a := usedTotal as real, advance as real;
    var w := a / t;
    var b := Blended(usedTotal, advance, supplementPerDay, fixedPerDay);
    assert (t - a) * supplementPerDay + a * fixedPerDay == t * supplementPerDay + a * (fixedPerDay - supplementPerDay);
    DivSplit(t * supplementPerDay, a * (fixedPerDay - supplementPerDay), t);
    assert b == supplementPerDay + a * (fixedPerDay - supplementPerDay) / t;
    WeightedStep(a, t, fixedPerDay - supplementPerDay);
  }

  lemma DivSplit(x: real, y: real, t: real)
    requires t > 0.0
    ensures (x + y) / t == x / t + y / t
  {
  }

  /** A share `a / t` of a difference, with `0 < a <= t`, lies between 0 and the difference. */
  lemma WeightedStep(a: real, t: real, diff: real)
    requires 0.0 < a <= t
    ensures diff >= 0.0 ==> 0.0 <= a * diff / t <= diff
    ensures diff <= 0.0 ==> diff <= a * diff / t <= 0.0
  {
    var w := a / t;
    assert 0.0 < w <= 1.0;
    assert a * diff / t == w * diff;
  }

  /**
   * The pay figures after the advance: in a first year after a transition
   * with days used, an advance blends the supplement per day over normal
   * and advance days and is recorded; otherwise the figures are unchanged.
   */
  function PayWithAdvance(pay: PayFigures, eligible: bool, usedTotal: int, entitled: int, fullDays: int): (PayFigures, int)
  {
    if eligible && usedTotal > 0 then
      var advance := AdvanceUsed(usedTotal, entitled, fullDays);
      if advance > 0 then
        (pay.(supplementPerDay := Blended(usedTotal, advance, pay.supplementPerDay, pay.fixedPerDay)), advance)
      else (pay, 0)
    else (pay, 0)
  }

  /** The projection of an open year: the split closing would make and its payout. */
  function ProjectionFor(remaining: int, pay: PayFigures): Projection
  {
    var (toSave, toPayOut) := ProjectedSplit(remaining);
    var perDay := PayoutPerDay(pay);
    Projection(toSave, toPayOut, perDay, toPayOut as real * perDay)
  }

  /** An open year's projection shows exactly the record that closing it with the same figures stores. */
  lemma ProjectionMatchesClose(remaining: int, pay: PayFigures)
    ensures var p, c := ProjectionFor(remaining, pay), ClosedYearFor(remaining, pay);
      p.daysToSave == c.saved && p.daysToPayOut == c.paidOut &&
      p.payoutPerDay == c.payoutPerDay && p.payoutTotal == c.payoutAmount
  {
    SplitsAgree(remaining);
  }

  /**
   * The balance before the year-end branch: `None` when the vacation-year
   * start month is not a month, since `datetime.date` raises.
   */
  function Report(info: UserInfo, saved: map<int, ClosedYear>, targetYear: int, rows: seq<AbsenceRow>, pay: PayFigures): Option<Balance>
  {
    var startMonth := OrDefault(info.vacationYearStartMonth, 4);
    if !(1 <= startMonth <= 12) then None
    else
      var (yearStart, yearEnd) := YearBounds(targetYear, startMonth).value;
      YearBoundsSpan(targetYear - 1, startMonth);
      var (earningStart, earningEnd) := YearBounds(targetYear - 1, startMonth).value;
      Some(Assemble(info, pay, yearStart, yearEnd, earningStart, earningEnd,
        UsedOf(info.vacation, rows, info.id, yearStart, yearEnd), Breakdown(saved, targetYear - 5, 5)))
  }

  /** The balance figures from the year bounds, the days used and the saved-days breakdown. */
  function Assemble(info: UserInfo, pay: PayFigures, yearStart: Date, yearEnd: Date, earningStart: Date, earningEnd: Date,
    used: UsedDays, breakdown: seq<SavedEntry>): Balance
    requires earningStart <= earningEnd
  {
    var fullDays := OrDefault(info.vacationDaysPerYear, 25);
    var accrual := AccrualStart(info.employmentStart, info.transitionDate);
    var isFirstYear := accrual.Some? && accrual.value > earningStart;
    var entitled := if isFirstYear then ProratedDays(accrual.value, earningStart, earningEnd, fullDays) else fullDays;
    var (pay', advance) := PayWithAdvance(pay, isFirstYear && info.transitionDate.Some?, used.total, entitled, fullDays);
    var savedFromPrevious := SumDays(breakdown);
    var totalAvailable := entitled + savedFromPrevious;
    Balance(entitled, used.total, totalAvailable - used.total, yearStart, yearEnd, earningStart, earningEnd,
      isFirstYear, used.weekBased, used.dayLevel, pay', advance, savedFromPrevious, breakdown, totalAvailable, None, None)
  }

  /** Closing records outside the five years before the target never change the report. */
  lemma ReportWindow(info: UserInfo, saved: map<int, ClosedYear>, targetYear: int, rows: seq<AbsenceRow>, pay: PayFigures, y: int, c: ClosedYear)
    requires y < targetYear - 5 || y >= targetYear
    ensures Report(info, saved[y := c], targetYear, rows, pay) == Report(info, saved, targetYear, rows, pay)
  {
    BreakdownWindow(saved, targetYear - 5, 5, y, c);
  }

  /**
   * `calculate_vacation_balance` with today's date as a parameter: the
   * report and the user's `vacation_saved` afterwards. A year that has
   * ended shows its stored closing record, or is closed now when it has
   * none; an open year shows a projection.
   */
  function BalanceOf(info: UserInfo, saved: map<int, ClosedYear>, targetYear: int, today: Date, rows: seq<AbsenceRow>, pay: PayFigures)
    : Option<(Balance, map<int, ClosedYear>)>
  {
    match Report(info, saved, targetYear, rows, pay)
    case None => None
    case Some(b) =>
      if today > b.yearEnd then
        if targetYear in saved then Some((b.(closed := Some(saved[targetYear])), saved))
        else
          var c := ClosedYearFor(b.remainingDays, b.pay);
          Some((b.(closed := Some(c)), saved[targetYear := c]))
      else Some((b.(projection := Some(ProjectionFor(b.remainingDays, b.pay))), saved))
  }

  /**
   * The figures of the balance: the remaining days are the entitled and
   * saved days less the used ones, the first year is the one in which
   * accrual starts after the earning year began, a non-negative quota
   * bounds the entitlement, and the advance stays within the days the
   * entitlement falls short of the quota.
   */
  lemma ReportFigures(info: UserInfo, saved: map<int, ClosedYear>, targetYear: int, rows: seq<AbsenceRow>, pay: PayFigures)
    requires Report(info, saved, targetYear, rows, pay).Some?
    ensures var b := Report(info, saved, targetYear, rows, pay).value;
      var fullDays := OrDefault(info.vacationDaysPerYear, 25);
      var accrual := AccrualStart(info.employmentStart, info.transitionDate);
      b.totalAvailable == b.entitledDays + b.savedFromPrevious &&
      b.remainingDays == b.totalAvailable - b.usedDays &&
      b.usedDays == b.weekBasedUsed + b.dayLevelUsed &&
      (b.isFirstYear <==> accrual.Some? && accrual.value > b.earningStart) &&
      b.earningEnd + 1 == b.yearStart && b.earningStart <= b.earningEnd &&
      b.savedFromPrevious >= 0 &&
      (fullDays >= 0 ==> 0 <= b.entitledDays <= fullDays) &&
      0 <= b.advanceUsed && (b.advanceUsed > 0 ==> b.isFirstYear && b.advanceUsed <= fullDays - b.entitledDays)
  {
    var startMonth := OrDefault(info.vacationYearStartMonth, 4);
    YearBoundsSpan(targetYear - 1, startMonth);
    SumDaysNonNegative(saved, targetYear - 5, 5);
    var b := Report(info, saved, targetYear, rows, pay).value;
    var fullDays := OrDefault(info.vacationDaysPerYear, 25);
    if fullDays >= 0 && b.isFirstYear {
      var accrual := AccrualStart(info.employmentStart, info.transitionDate);
      ProratedBounds(accrual.value, b.earningStart, b.earningEnd, fullDays);
    }
    AdvanceBounds(b.usedDays, b.entitledDays, fullDays);
  }

  /**
   * A vacation year is closed once: after a balance of an ended year, a
   * later balance reports the same figures and closing record and leaves
   * `vacation_saved` as it is.
   */
  lemma ClosesOnce(info: UserInfo, saved: map<int, ClosedYear>, targetYear: int, today: Date, later: Date, rows: seq<AbsenceRow>, pay: PayFigures)
    requires BalanceOf(info, saved, targetYear, today, rows, pay).Some?
    requires today > BalanceOf(info, saved, targetYear, today, rows, pay).value.0.yearEnd && later >= today
    ensures var (b, saved') := BalanceOf(info, saved, targetYear, today, rows, pay).value;
      targetYear in saved' &&
      BalanceOf(info, saved', targetYear, later, rows, pay) == Some((b, saved'))
  {
    var (b, saved') := BalanceOf(info, saved, targetYear, today, rows, pay).value;
    if targetYear !in saved {
      ReportWindow(info, saved, targetYear, rows, pay, targetYear, saved'[targetYear]);
    }
  }

  /** The entitlement, the advance and the totals, as the source computes them one after another. */
  method AssembleSteps(info: UserInfo, pay: PayFigures, yearStart: Date, yearEnd: Date, earningStart: Date, earningEnd: Date,
    used: UsedDays, savedFromPrevious: int, breakdown: seq<SavedEntry>) returns (b: Balance)
    requires earningStart <= earningEnd && savedFromPrevious == SumDays(breakdown)
    ensures b == Assemble(info, pay, yearStart, yearEnd, earningStart, earningEnd, used, breakdown)
  {
    var fullDays := OrDefault(info.vacationDaysPerYear, 25);
    var employmentStart := AccrualStart(info.employmentStart, info.transitionDate);
    var isFirstYear := false;
    var entitled;
    if employmentStart.Some? && employmentStart.value > earningStart {
      isFirstYear := true;
      entitled := ProratedDays(employmentStart.value, earningStart, earningEnd, fullDays);
    } else {
      entitled := fullDays;
    }
    var (pay', advance) := PayWithAdvance(pay, isFirstYear && info.transitionDate.Some?, used.total, entitled, fullDays);
    var totalAvailable := entitled + savedFromPrevious;
    var remainingTotal := totalAvailable - used.total;
    b := Balance(entitled, used.total, remainingTotal, yearStart, yearEnd, earningStart, earningEnd,
      isFirstYear, used.weekBased, used.dayLevel, pay', advance, savedFromPrevious, breakdown, totalAvailable, None, None);
  }

  /**
   * A user's row. `info` holds the columns the balance only reads;
   * `vacationSaved` is the `vacation_saved` column that closing a year
   * writes.
   */
  class User {
    const info: UserInfo
    var vacationSaved: map<int, ClosedYear>

    constructor (info: UserInfo, vacationSaved: map<int, ClosedYear>)
      ensures this.info == info && this.vacationSaved == vacationSaved
    {
      this.info := info;
      this.vacationSaved := vacationSaved;
    }

    /**
     * `close_vacation_year`: store the closing record of `targetYear`,
     * replacing any earlier one, and return it.
     */
    method CloseVacationYear(targetYear: int, remainingTotal: int, pay: PayFigures) returns (closed: ClosedYear)
      modifies this
      ensures closed == ClosedYearFor(remainingTotal, pay)
      ensures vacationSaved == old(vacationSaved)[targetYear := closed]
    {
      var perDay := PayoutPerDay(pay);
      var daysSaved, daysPaidOut;
      if remainingTotal <= 0 {
        daysSaved, daysPaidOut := 0, 0;
      } else {
        daysSaved := if remainingTotal < 5 then remainingTotal else 5;
        daysPaidOut := if remainingTotal - 5 > 0 then remainingTotal - 5 else 0;
      }
      closed := ClosedYear(daysSaved, daysPaidOut, daysPaidOut as real * perDay, perDay);
      vacationSaved := vacationSaved[targetYear := closed];
    }

    /**
     * `calculate_vacation_balance` with today's date as a parameter: the
     * report, closing an ended year that has no closing record yet.
     */
    method CalculateBalance(targetYear: int, today: Date, rows: seq<AbsenceRow>, pay: PayFigures) returns (r: Option<Balance>)
      modifies this
      ensures match BalanceOf(info, old(vacationSaved), targetYear, today, rows, pay)
        case None => r.None? && vacationSaved == old(vacationSaved)
        case Some((b, saved)) => r == Some(b) && vacationSaved == saved
    {
      var b := BalanceReport(targetYear, rows, pay);
      if b.None? {
        return None;
      }
      var report := b.value;
      if today > report.yearEnd {
        if targetYear in vacationSaved {
          r := Some(report.(closed := Some(vacationSaved[targetYear])));
        } else {
          var closed := CloseVacationYear(targetYear, report.remainingDays, report.pay);
          r := Some(report.(closed := Some(closed)));
        }
      } else {
        r := Some(report.(projection := Some(ProjectionFor(report.remainingDays, report.pay))));
      }
    }

    /** The figures of the balance, computed step by step as the source does before the year-end branch. */
    method BalanceReport(targetYear: int, rows: seq<AbsenceRow>, pay: PayFigures) returns (r: Option<Balance>)
      ensures r == Report(info, vacationSaved, targetYear, rows, pay)
    {
      var startMonth := OrDefault(info.vacationYearStartMonth, 4);
      var bounds := YearBounds(targetYear, startMonth);
      if bounds.None? {
        return None;
      }
      var (yearStart, yearEnd) := bounds.value;
      YearBoundsSpan(targetYear - 1, startMonth);
      var (earningStart, earningEnd) := YearBounds(targetYear - 1, startMonth).value;
      var used := CountVacationDaysUsed(info.id, yearStart, yearEnd, rows, info.vacation);
      var savedFromPrevious, breakdown := SavedDaysBalance(vacationSaved, targetYear);
      var report := AssembleSteps(info, pay, yearStart, yearEnd, earningStart, earningEnd, used, savedFromPrevious, breakdown);
      r := Some(report);
    }
  }
}
