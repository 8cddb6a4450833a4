/**
 * The time machinery of the on-call engine in app/core/oncall.py: which
 * rules a date selects, the window of a rule on a date, the parts of a
 * shift that a rule's windows cover, and the subtraction of time that a
 * higher-priority rule has already claimed. Instants are integer seconds
 * on the ordinal line of `Calendar`.
 */
module OnCall {
  import opened Wrappers
  import opened Calendar
  import opened Models
  import opened Intervals

  // ---------------------------------------------------------------------
  // `_select_oncall_rules_for_date`
  // ---------------------------------------------------------------------

  /**
   * A rule applies on `day` when the weekday is in `days` or the date is in
   * `specific_dates`; an absent list is empty, so the truthiness guards add
   * nothing.
   */
  predicate OcMatches(r: OnCallRule, day: Date)
  {
    Weekday(day) in r.days || day in r.specificDates
  }

  /** The rules that apply on `day`, in list order. */
  function RulesForDate(day: Date, rules: seq<OnCallRule>): (r: seq<OnCallRule>)
    ensures |r| <= |rules|
    ensures forall x :: x in r <==> x in rules && OcMatches(x, day)
    decreases |rules|
  {
    if rules == [] then []
    else
      var n := |rules| - 1;
      assert rules == rules[..n] + [rules[n]];
      RulesForDate(day, rules[..n]) + (if OcMatches(rules[n], day) then [rules[n]] else [])
  }

  /** The loop of `_select_oncall_rules_for_date`. */
  method SelectOncallRulesForDate(day: Date, rules: seq<OnCallRule>) returns (applicable: seq<OnCallRule>)
    ensures applicable == RulesForDate(day, rules)
  {
    applicable := [];
    for i := 0 to |rules|
      invariant applicable == RulesForDate(day, rules[..i])
    {
      assert rules[..i + 1][..i] == rules[..i];
      var rule := rules[i];
      var hit := false;
      if Weekday(day) in rule.days {
        hit := true;
      }
      if day in rule.specificDates {
        hit := true;
      }
      if hit {
        applicable := applicable + [rule];
      }
    }
    assert rules[..|rules|] == rules;
  }

  // ---------------------------------------------------------------------
  // The window of a rule on one date
  // ---------------------------------------------------------------------

  /**
   * Times from which `_get_rule_intervals_for_shift` can build its
   * datetimes: a valid start, and an end that is a valid time or has hour
   * 24 (read as the next midnight, whatever its minutes). Other rules raise
   * ValueError.
   */
  predicate OcWellFormed(r: OnCallRule)
  {
    ValidClock(r.startTime) && (ValidClock(r.endTime) || (r.endTime.hour == 24 && 0 <= r.endTime.minute <= 59))
  }

  predicate AllOcWellFormed(rules: seq<OnCallRule>)
  {
    forall r :: r in rules ==> OcWellFormed(r)
  }

  /** `ends_at_midnight`: the end time has hour 24. */
  predicate EndsAtMidnight(r: OnCallRule)
  {
    r.endTime.hour == 24
  }

  /** `spans_midnight`: the flag is set, or the end is not after the start and is not "24:00". */
  predicate SpansMidnight(r: OnCallRule)
  {
    r.spansToNextDay || (!EndsAtMidnight(r) && ClockSeconds(r.endTime) <= ClockSeconds(r.startTime))
  }

  /** The end of the window, as seconds after midnight of its own date. */
  function EndSeconds(r: OnCallRule): int
  {
    if EndsAtMidnight(r) then 0 else ClockSeconds(r.endTime)
  }

  /**
   * The window of the rule on `day`. It starts at the start time of `day`
   * and is never empty: "24:00" ends it at the next midnight, a rule that
   * spans midnight ends at its end time on the next day, and any other rule
   * ends later on the same day.
   */
  function OcWindow(r: OnCallRule, day: Date): (w: Interval)
    requires OcWellFormed(r)
    ensures w.lo == At(day, ClockSeconds(r.startTime))
    ensures At(day, 0) <= w.lo < w.hi < At(day + 2, 0)
    ensures w.hi == At(day, EndSeconds(r)) || w.hi == At(day + 1, EndSeconds(r))
    ensures w.hi == At(day + 1, EndSeconds(r)) <==> EndsAtMidnight(r) || SpansMidnight(r)
  {
    var lo := At(day, ClockSeconds(r.startTime));
    if EndsAtMidnight(r) then Interval(lo, At(day + 1, 0))
    else if SpansMidnight(r) then Interval(lo, At(day + 1, ClockSeconds(r.endTime)))
    else Interval(lo, At(day, ClockSeconds(r.endTime)))
  }

  // ---------------------------------------------------------------------
  // `_get_rule_intervals_for_shift`
  // ---------------------------------------------------------------------

  /**
   * The last date the loop examines: the date of the shift's end, or the
   * date before when the shift ends exactly at midnight. It is the date of
   * the shift's last instant.
   */
  function LastDay(e: int): (d: Date)
    ensures d == (e - 1) / SecondsPerDay
    ensures At(d, 0) < e <= At(d + 1, 0)
  {
    if e % SecondsPerDay == 0 then e / SecondsPerDay - 1 else e / SecondsPerDay
  }

  /** What the loop adds on date `d`: the window clipped to [s, e), when the rule applies and they overlap. */
  function Piece(r: OnCallRule, s: int, e: int, d: Date): seq<Interval>
    requires OcWellFormed(r)
  {
    var here := Overlap(OcWindow(r, d), s, e);
    if OcMatches(r, d) && here.Some? then [here.value] else []
  }

  /** The clipped windows of the dates from `first` up to, not including, `next`. */
  function IntervalsBetween(r: OnCallRule, s: int, e: int, first: Date, next: Date): seq<Interval>
    requires OcWellFormed(r)
    decreases next - first
  {
    if next <= first then []
    else IntervalsBetween(r, s, e, first, next - 1) + Piece(r, s, e, next - 1)
  }

  lemma IntervalsBetweenStep(r: OnCallRule, s: int, e: int, first: Date, d: Date)
    requires OcWellFormed(r) && first <= d
    ensures IntervalsBetween(r, s, e, first, d + 1) == IntervalsBetween(r, s, e, first, d) + Piece(r, s, e, d)
  {
  }

  /** The parts of the shift [s, e) that the rule's windows cover, date by date from the date of `s`. */
  function RuleIntervals(r: OnCallRule, s: int, e: int): seq<Interval>
    requires OcWellFormed(r)
  {
    IntervalsBetween(r, s, e, s / SecondsPerDay, LastDay(e) + 1)
  }

  /** `t` lies in the window of a date from `first` up to `next` on which the rule applies. */
  ghost predicate InWindowBetween(r: OnCallRule, first: Date, next: Date, t: int)
    requires OcWellFormed(r)
  {
    exists d :: first <= d < next && OcMatches(r, d) && Contains(OcWindow(r, d), t)
  }

  /** `t` lies in the window of a date from `from` on on which the rule applies. */
  ghost predicate InWindowFrom(r: OnCallRule, from: Date, t: int)
    requires OcWellFormed(r)
  {
    exists d :: from <= d && OcMatches(r, d) && Contains(OcWindow(r, d), t)
  }

  lemma InWindowBetweenStep(r: OnCallRule, first: Date, next: Date, t: int)
    requires OcWellFormed(r) && first < next
    ensures InWindowBetween(r, first, next, t) <==>
      InWindowBetween(r, first, next - 1, t) || (OcMatches(r, next - 1) && Contains(OcWindow(r, next - 1), t))
  {
    if InWindowBetween(r, first, next, t) {
      var d :| first <= d < next && OcMatches(r, d) && Contains(OcWindow(r, d), t);
      if d != next - 1 {
        assert first <= d < next - 1;
      }
    }
  }

  lemma {:induction false} IntervalsBetweenSpec(r: OnCallRule, s: int, e: int, first: Date, next: Date)
    requires OcWellFormed(r)
    ensures NonEmpty(IntervalsBetween(r, s, e, first, next))
    ensures Within(IntervalsBetween(r, s, e, first, next), s, e)
    ensures forall t :: Covers(IntervalsBetween(r, s, e, first, next), t) <==> s <= t < e && InWindowBetween(r, first, next, t)
    decreases next - first
  {
    var iv := IntervalsBetween(r, s, e, first, next);
    if next <= first {
      forall t ensures !InWindowBetween(r, first, next, t) {
      }
    } else {
      IntervalsBetweenSpec(r, s, e, first, next - 1);
      var d := next - 1;
      var w := OcWindow(r, d);
      var here := Overlap(w, s, e);
      var prev := IntervalsBetween(r, s, e, first, d);
      var tail := Piece(r, s, e, d);
      assert iv == prev + tail;
      forall t ensures Covers(iv, t) <==> s <= t < e && InWindowBetween(r, first, next, t) {
        CoversAppend(prev, tail, t);
        InWindowBetweenStep(r, first, next, t);
        OverlapContains(w, s, e, t);
        if tail != [] {
          CoversSingleton(here.value, t);
        }
      }
    }
  }

  /**
   * The intervals of a rule in the shift [s, e) are non-empty and inside the
   * shift, and hold exactly the instants of the shift that lie in the
   * window of a date, from the shift's first date on, on which the rule
   * applies. Dates after the last one examined contribute nothing; a window
   * that opens on the day before the shift's first date is not looked at.
   */
  lemma RuleIntervalsSpec(r: OnCallRule, s: int, e: int)
    requires OcWellFormed(r)
    ensures NonEmpty(RuleIntervals(r, s, e))
    ensures Within(RuleIntervals(r, s, e), s, e)
    ensures forall t :: Covers(RuleIntervals(r, s, e), t) <==> s <= t < e && InWindowFrom(r, s / SecondsPerDay, t)
  {
    var first := s / SecondsPerDay;
    var next := LastDay(e) + 1;
    IntervalsBetweenSpec(r, s, e, first, next);
    forall t | s <= t < e ensures InWindowBetween(r, first, next, t) <==> InWindowFrom(r, first, t) {
      if InWindowFrom(r, first, t) {
        var d :| first <= d && OcMatches(r, d) && Contains(OcWindow(r, d), t);
        assert d < next;
      }
    }
  }

  /** The body of the loop for one date: the clipped window, when the rule applies and it is not empty. */
  method ClipForDate(r: OnCallRule, s: int, e: int, current: Date) returns (piece: seq<Interval>)
    requires OcWellFormed(r)
    ensures piece == Piece(r, s, e, current)
  {
    piece := [];
    var applies := false;
    if Weekday(current) in r.days {
      applies := true;
    }
    if current in r.specificDates {
      applies := true;
    }
    if applies {
      var w := OcWindow(r, current);
      var clippedStart := Max(w.lo, s);
      var clippedEnd := Min(w.hi, e);
      if clippedStart < clippedEnd {
        piece := [Interval(clippedStart, clippedEnd)];
      }
    }
  }

  /** The `while current_date <= end_date` loop of `_get_rule_intervals_for_shift`. */
  method GetRuleIntervalsForShift(r: OnCallRule, s: int, e: int) returns (intervals: seq<Interval>)
    requires OcWellFormed(r)
    ensures intervals == RuleIntervals(r, s, e)
  {
    var first := s / SecondsPerDay;
    var endDate := e / SecondsPerDay;
    if e % SecondsPerDay == 0 {
      endDate := endDate - 1;
    }
    assert endDate == LastDay(e);
    intervals := ClipDates(r, s, e, first, endDate);
  }

  /** The loop over the dates from `first` through `endDate`, one clipped window per date. */
  method ClipDates(r: OnCallRule, s: int, e: int, first: Date, endDate: Date) returns (intervals: seq<Interval>)
    requires OcWellFormed(r)
    ensures intervals == IntervalsBetween(r, s, e, first, endDate + 1)
  {
    intervals := [];
    var current := first;
    while current <= endDate
      invariant current == first || first < current <= endDate + 1
      invariant intervals == IntervalsBetween(r, s, e, first, current)
      decreases endDate - current
    {
      var piece := ClipForDate(r, s, e, current);
      IntervalsBetweenStep(r, s, e, first, current);
      intervals := intervals + piece;
      current := current + 1;
    }
  }

  // ---------------------------------------------------------------------
  // `_subtract_covered_oncall`
  // ---------------------------------------------------------------------

  /**
   * The loop of `_subtract_covered_oncall`: the whole span when nothing is
   * covered, else the cursor walk over the covered intervals sorted by
   * start, stopping as soon as the cursor reaches the end.
   */
  method SubtractCoveredOncall(start: int, end: int, covered: seq<Interval>) returns (uncovered: seq<Interval>)
    ensures uncovered == Subtract(ByStart, start, end, covered)
  {
    if covered == [] {
      return [Interval(start, end)];
    }
    var sorted := SortByStart(covered);
    uncovered := WalkGaps(start, end, sorted);
  }

  /** The cursor walk over the sorted covered intervals, leaving the loop once the cursor reaches the end. */
  method WalkGaps(start: int, end: int, sorted: seq<Interval>) returns (uncovered: seq<Interval>)
    ensures uncovered == Gaps(start, end, sorted)
  {
    uncovered := [];
    var cursor := start;
    var i := 0;
    while i < |sorted|
      invariant 0 <= i <= |sorted|
      invariant uncovered + Gaps(cursor, end, sorted[i..]) == Gaps(start, end, sorted)
    {
      var c := sorted[i];
      assert sorted[i..] == [c] + sorted[i + 1..];
      i := i + 1;
      if c.hi <= cursor || c.lo >= end {
        continue;
      }
      if c.lo > cursor {
        uncovered := uncovered + [Interval(cursor, Min(c.lo, end))];
      }
      cursor := Max(cursor, c.hi);
      if cursor >= end {
        GapsPastEnd(cursor, end, sorted[i..]);
        GapsPastEnd(cursor, end, []);
        break;
      }
    }
    if cursor < end {
      uncovered := uncovered + [Interval(cursor, end)];
    }
  }
}
