/**
 * The consultant-to-direct-employment transition
 * (app/core/schedule/transition.py): the consultant's earning year, the
 * pro-rated vacation days earned as a consultant, the months of a period,
 * and the average daily variable pay over the earning year's working days.
 */
module Transition {
  import opened Wrappers
  import opened Calendar
  import opened Arith
  import opened Models
  import Period

  /** The transition record: its date and the optional explicit earning year. */
  datatype EmploymentTransition = EmploymentTransition(transitionDate: Date, earningYearStart: Option<Date>, earningYearEnd: Option<Date>)

  // ---------------------------------------------------------------------
  // The earning year
  // ---------------------------------------------------------------------

  /**
   * `get_earning_year`: the explicit bounds when both are set; otherwise
   * from the last 1 April on or before the last consultant day through that
   * day, the day before the transition.
   */
  function EarningYear(t: EmploymentTransition): (Date, Date)
  {
    if t.earningYearStart.Some? && t.earningYearEnd.Some? then (t.earningYearStart.value, t.earningYearEnd.value)
    else
      var end := t.transitionDate - 1;
      (DateOf(AprilYear(end), 4, 1), end)
  }

  /** The year of `end` from April on, the year before in January to March. */
  function AprilYear(end: Date): int
  {
    if MonthOf(end) >= 4 then YearOf(end) else YearOf(end) - 1
  }

  /**
   * Without explicit bounds the earning year ends the day before the
   * transition and starts on the latest 1 April on or before that day: the
   * start is a 1 April no later than the end, and the next 1 April comes
   * after the end.
   */
  lemma EarningYearSpec(t: EmploymentTransition)
    requires !(t.earningYearStart.Some? && t.earningYearEnd.Some?)
    ensures EarningYear(t).1 == t.transitionDate - 1
    ensures EarningYear(t).0 == DateOf(AprilYear(t.transitionDate - 1), 4, 1)
    ensures EarningYear(t).0 <= EarningYear(t).1 < DateOf(AprilYear(t.transitionDate - 1) + 1, 4, 1)
  {
    LatestApril(t.transitionDate - 1);
  }

  /** The 1 April of `AprilYear(end)` is the latest 1 April on or before `end`. */
  lemma LatestApril(end: Date)
    ensures DateOf(AprilYear(end), 4, 1) <= end < DateOf(AprilYear(end) + 1, 4, 1)
  {
    MonthStartAtMost(AprilYear(end), 4, end);
    MonthStartAtMost(AprilYear(end) + 1, 4, end);
  }

  /** The explicit bounds, when both are set, are taken as they are. */
  lemma EarningYearOverride(t: EmploymentTransition)
    requires t.earningYearStart.Some? && t.earningYearEnd.Some?
    ensures EarningYear(t) == (t.earningYearStart.value, t.earningYearEnd.value)
  {
  }

  // ---------------------------------------------------------------------
  // Vacation days earned as a consultant
  // ---------------------------------------------------------------------

  /**
   * `calculate_consultant_vacation_days`: `None` without an employment
   * start; 0 when the consultant employment and the earning year do not
   * overlap; otherwise the full days times the overlapping days over the
   * earning year's days, rounded up.
   */
  function ConsultantVacationDays(employmentStart: Option<Date>, t: EmploymentTransition, fullYearDays: int): Option<int>
  {
    if employmentStart.None? then None
    else
      var (earningStart, earningEnd) := EarningYear(t);
      var overlapStart := if employmentStart.value < earningStart then earningStart else employmentStart.value;
      var lastDay := t.transitionDate - 1;
      var overlapEnd := if lastDay < earningEnd then lastDay else earningEnd;
      if overlapStart > overlapEnd then Some(0)
      else
        var employedDays := overlapEnd - overlapStart + 1;
        var totalDays := earningEnd - earningStart + 1;
        Some(CeilDiv(fullYearDays * employedDays, totalDays))
  }

  /**
   * The days are missing exactly when the employment start is; with a
   * non-negative quota they lie between 0 and the quota; a consultant
   * employed over the whole earning year earns the whole quota.
   */
  lemma ConsultantDaysBounds(employmentStart: Option<Date>, t: EmploymentTransition, fullYearDays: int)
    ensures ConsultantVacationDays(employmentStart, t, fullYearDays).None? <==> employmentStart.None?
    ensures fullYearDays >= 0 && employmentStart.Some? ==>
      0 <= ConsultantVacationDays(employmentStart, t, fullYearDays).value <= fullYearDays
    ensures var (earningStart, earningEnd) := EarningYear(t);
      employmentStart.Some? && employmentStart.value <= earningStart && earningEnd <= t.transitionDate - 1 &&
      earningStart <= earningEnd ==>
      ConsultantVacationDays(employmentStart, t, fullYearDays) == Some(fullYearDays)
  {
    if employmentStart.Some? {
      var (earningStart, earningEnd) := EarningYear(t);
      var overlapStart := if employmentStart.value < earningStart then earningStart else employmentStart.value;
      var lastDay := t.transitionDate - 1;
      var overlapEnd := if lastDay < earningEnd then lastDay else earningEnd;
      if overlapStart <= overlapEnd {
        var employedDays := overlapEnd - overlapStart + 1;
        var totalDays := earningEnd - earningStart + 1;
        if fullYearDays >= 0 {
          MulLeq(fullYearDays, 0, employedDays);
          MulLeq(fullYearDays, employedDays, totalDays);
          CeilDivMonotone(0, fullYearDays * employedDays, totalDays);
          CeilDivMonotone(fullYearDays * employedDays, fullYearDays * totalDays, totalDays);
          CeilDivExact(0, totalDays);
        }
        CeilDivExact(fullYearDays, totalDays);
      }
    }
  }

  // ---------------------------------------------------------------------
  // `_iter_months`
  // ---------------------------------------------------------------------

  /** The (year, month) with month index `k`. */
  function MonthAt(k: int): (r: (int, int))
    ensures 1 <= r.1 <= 12 && MonthIndex(r.0, r.1) == k
  {
    (k / 12, k % 12 + 1)
  }

  /** A valid month is the month at its own index. */
  lemma MonthAtIndex(y: int, m: int)
    requires 1 <= m <= 12
    ensures MonthAt(MonthIndex(y, m)) == (y, m)
  {
    var r := MonthAt(MonthIndex(y, m));
    MonthIndexInjective(r.0, r.1, y, m);
  }

  /** The `n` consecutive months from index `first`. */
  function MonthSpan(first: int, n: nat): (r: seq<(int, int)>)
    ensures |r| == n && forall i :: 0 <= i < n ==> r[i] == MonthAt(first + i)
  {
    seq(n, i requires 0 <= i < n => MonthAt(first + i))
  }

  /** The number of months from the month of `start` through the month of `end`; none when the first is later. */
  function MonthCount(start: Date, end: Date): nat
  {
    if DateMonthIndex(start) <= DateMonthIndex(end) then DateMonthIndex(end) - DateMonthIndex(start) + 1 else 0
  }

  /** Whether the 1st of month `m` of year `y` is on or before `end`: whether that month is not after the month of `end`. */
  function StartsBy(y: int, m: int, end: Date): (r: bool)
    requires 1 <= m <= 12
    ensures r <==> MonthIndex(y, m) <= DateMonthIndex(end)
  {
    MonthStartAtMost(y, m, end);
    DateOf(y, m, 1) <= end
  }

  /**
   * `_iter_months`: from the 1st of the start's month, each month whose
   * 1st is not after the end, December followed by January. They are the
   * consecutive months from the start's month through the end's.
   */
  method IterMonths(start: Date, end: Date) returns (months: seq<(int, int)>)
    ensures months == MonthSpan(DateMonthIndex(start), MonthCount(start, end))
  {
    var s := ToYmd(start);
    months := MonthsFrom(s.year, s.month, end);
  }

  /** The loop of `_iter_months`, from month `m` of year `y`. */
  method MonthsFrom(y: int, m: int, end: Date) returns (months: seq<(int, int)>)
    requires 1 <= m <= 12
    ensures var first := MonthIndex(y, m);
      months == MonthSpan(first, if first <= DateMonthIndex(end) then DateMonthIndex(end) - first + 1 else 0)
  {
    months := [];
    ghost var first := MonthIndex(y, m);
    ghost var last := DateMonthIndex(end);
    var current := (y, m);
    while StartsBy(current.0, current.1, end)
      invariant 1 <= current.1 <= 12
      invariant first <= MonthIndex(current.0, current.1) <= (if first <= last then last + 1 else first)
      invariant months == MonthSpan(first, MonthIndex(current.0, current.1) - first)
      decreases last + 1 - MonthIndex(current.0, current.1)
    {
      MonthAtIndex(current.0, current.1);
      MonthSpanSnoc(first, MonthIndex(current.0, current.1) - first);
      months := months + [current];
      current := NextMonth(current.0, current.1);
    }
  }

  /** One more month extends the span by the month at the next index. */
  lemma MonthSpanSnoc(first: int, n: nat)
    ensures MonthSpan(first, n + 1) == MonthSpan(first, n) + [MonthAt(first + n)]
  {
    assert MonthSpan(first, n + 1)[..n] == MonthSpan(first, n);
  }

  /** Later days lie in the same or a later month. */
  lemma DateMonthIndexMonotone(a: Date, b: Date)
    requires a <= b
    ensures DateMonthIndex(a) <= DateMonthIndex(b)
  {
    var r := ToYmd(a);
    WithinYear(r.year, r.month, r.day);
    MonthStartAtMost(r.year, r.month, b);
  }

  /** Each listed month is followed by the next calendar month, and no month is listed twice. */
  lemma MonthSpanConsecutive(first: int, n: nat)
    ensures var r := MonthSpan(first, n);
      (forall i :: 0 <= i < n - 1 ==> r[i + 1] == NextMonth(r[i].0, r[i].1)) &&
      (forall i, j :: 0 <= i < j < n ==> r[i] != r[j])
  {
    var r := MonthSpan(first, n);
    forall i | 0 <= i < n - 1
      ensures r[i + 1] == NextMonth(r[i].0, r[i].1)
    {
      var next := NextMonth(r[i].0, r[i].1);
      MonthIndexInjective(next.0, next.1, r[i + 1].0, r[i + 1].1);
    }
  }

  /**
   * The months listed for `[start, end]` are the months of the days in
   * it: every day of the period has its month listed, and every listed
   * month starts no later than the end and is not before the start's month.
   */
  lemma IterMonthsCovers(start: Date, end: Date, d: Date)
    requires start <= d <= end
    ensures (YearOf(d), MonthOf(d)) in MonthSpan(DateMonthIndex(start), MonthCount(start, end))
  {
    DateMonthIndexMonotone(start, d);
    DateMonthIndexMonotone(d, end);
    DayMonthListed(start, end, d);
  }

  /** The month of a day whose month lies between those of `start` and `end` is listed for `[start, end]`. */
  lemma DayMonthListed(start: Date, end: Date, d: Date)
    requires DateMonthIndex(start) <= DateMonthIndex(d) <= DateMonthIndex(end)
    ensures (YearOf(d), MonthOf(d)) in MonthSpan(DateMonthIndex(start), MonthCount(start, end))
  {
    var ymd := ToYmd(d);
    SpanHasMonth(DateMonthIndex(start), MonthCount(start, end), ymd.year, ymd.month);
  }

  /** A valid month whose index is among the `n` from `first` is listed in the span over those indices. */
  lemma SpanHasMonth(first: int, n: nat, y: int, m: int)
    requires 1 <= m <= 12 && first <= MonthIndex(y, m) < first + n
    ensures (y, m) in MonthSpan(first, n)
  {
    MonthAtIndex(y, m);
    MonthSpanHas(first, n, MonthIndex(y, m));
  }

  /** The span from `first` holds the month at each of its indices. */
  lemma MonthSpanHas(first: int, n: nat, k: int)
    requires first <= k < first + n
    ensures MonthAt(k) in MonthSpan(first, n)
  {
    assert MonthSpan(first, n)[k - first] == MonthAt(k);
  }

  lemma IterMonthsWithin(start: Date, end: Date, i: int)
    requires 0 <= i < MonthCount(start, end)
    ensures var (y, m) := MonthSpan(DateMonthIndex(start), MonthCount(start, end))[i];
      1 <= m <= 12 && DateOf(y, m, 1) <= end && DateMonthIndex(start) <= MonthIndex(y, m)
  {
    var (y, m) := MonthSpan(DateMonthIndex(start), MonthCount(start, end))[i];
    MonthStartAtMost(y, m, end);
  }

  // ---------------------------------------------------------------------
  // `calculate_variable_avg_daily`
  // ---------------------------------------------------------------------

  /** A generated day counts as worked: on or after employment, with a shift other than OFF and SEM. */
  predicate IsWorkingDay(day: Period.PeriodDay)
  {
    day.OnePosition? && !day.day.beforeEmployment &&
    day.day.shown.shift.Some? && day.day.shown.shift.value.code != "OFF" && day.day.shown.shift.value.code != "SEM"
  }

  /** The worked days among `days`. */
  function WorkingDays(days: seq<Period.PeriodDay>): (r: nat)
    ensures r <= |days|
  {
    if days == [] then 0
    else WorkingDays(days[..|days| - 1]) + (if IsWorkingDay(days[|days| - 1]) then 1 else 0)
  }

  /** The counting loop of `calculate_variable_avg_daily`, with its skips. */
  method CountWorkingDays(days: seq<Period.PeriodDay>) returns (workingDays: int)
    ensures workingDays == WorkingDays(days)
  {
    workingDays := 0;
    for i := 0 to |days|
      invariant workingDays == WorkingDays(days[..i])
    {
      assert days[..i + 1][..i] == days[..i];
      var day := days[i];
      if !day.OnePosition? || day.day.beforeEmployment {
        continue;
      }
      var shift := day.day.shown.shift;
      if shift.None? || shift.value.code == "OFF" || shift.value.code == "SEM" {
        continue;
      }
      workingDays := workingDays + 1;
    }
    assert days[..|days|] == days;
  }

  /** The working-day count splits over concatenation, so it counts each worked day once. */
  lemma {:induction false} WorkingDaysAppend(a: seq<Period.PeriodDay>, b: seq<Period.PeriodDay>)
    ensures WorkingDays(a + b) == WorkingDays(a) + WorkingDays(b)
    decreases |b|
  {
    if b != [] {
      assert (a + b)[..|a + b| - 1] == a + b[..|b| - 1];
      assert (a + b)[|a + b| - 1] == b[|b| - 1];
      WorkingDaysAppend(a, b[..|b| - 1]);
    } else {
      assert a + b == a;
    }
  }

  /** One month's variable pay: its OB pay per code, overtime pay and on-call pay. */
  datatype MonthVariable = MonthVariable(obPay: seq<real>, otPay: real, oncallPay: real)

  function SumReals(xs: seq<real>): real
  {
    if xs == [] then 0.0 else SumReals(xs[..|xs| - 1]) + xs[|xs| - 1]
  }

  /** The variable pay of the months whose summary could be made; a failed month (`None`) adds nothing. */
  function VariableTotal(months: seq<Option<MonthVariable>>): real
  {
    if months == [] then 0.0
    else
      var m := months[|months| - 1];
      VariableTotal(months[..|months| - 1]) + (if m.Some? then SumReals(m.value.obPay) + m.value.otPay + m.value.oncallPay else 0.0)
  }

  /**
   * `calculate_variable_avg_daily`: `None` for a rotation position outside
   * 1..10, when the period data cannot be made (`None` days), with no
   * working day or with no variable pay; otherwise the variable pay over
   * the working days. `months` holds the summary of each month of the
   * earning year.
   */
  function VariableAvgDaily(personId: Option<int>, days: Option<seq<Period.PeriodDay>>, months: seq<Option<MonthVariable>>): (r: Option<real>)
  {
    if personId.None? || !(1 <= personId.value <= 10) then None
    else if days.None? then None
    else
      var workingDays := WorkingDays(days.value);
      if workingDays == 0 then None
      else
        var total := VariableTotal(months);
        if total == 0.0 then None else Some(total / workingDays as real)
  }

  /**
   * The average is present exactly for a valid position with period data,
   * some working day and some variable pay, and then it times the working
   * days gives the variable pay back.
   */
  lemma VariableAvgSpec(personId: Option<int>, days: Option<seq<Period.PeriodDay>>, months: seq<Option<MonthVariable>>)
    ensures var r := VariableAvgDaily(personId, days, months);
      (r.Some? <==> (personId.Some? && 1 <= personId.value <= 10 && days.Some? &&
                     WorkingDays(days.value) > 0 && VariableTotal(months) != 0.0)) &&
      (r.Some? ==> r.value * WorkingDays(days.value) as real == VariableTotal(months))
  {
    var r := VariableAvgDaily(personId, days, months);
    if r.Some? {
      var n := WorkingDays(days.value) as real;
      var t := VariableTotal(months);
      assert r.value == t / n;
      assert (t / n) * n == t;
    }
  }
}
