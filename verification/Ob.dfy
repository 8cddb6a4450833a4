/**
 * The OB engine of app/core/schedule/ob.py. A shift from `start` to `end`
 * (instants in seconds) is cut at every midnight. On each day the rules that
 * apply to that date are sorted by priority, and each rule in turn is paid
 * for the part of its window, inside the day's segment, that no earlier
 * rule has claimed. The totals are kept per code, in seconds.
 */
module Ob {
  import opened Wrappers
  import opened Calendar
  import opened Models
  import opened Sorting
  import opened Intervals
  import HolidaysOb

  // ---------------------------------------------------------------------
  // Rules: priority, selection by date, windows
  // ---------------------------------------------------------------------

  /** `_rule_priority`: OB5 is 3, OB4 is 2, every other code the default 1. */
  function RulePriority(r: ObRule): int
  {
    if r.code == "OB5" then 3 else if r.code == "OB4" then 2 else 1
  }

  /** `sorted(rules, key=_rule_priority, reverse=True)`. */
  function SortByPriority(rules: seq<ObRule>): seq<ObRule>
  {
    SortDesc(rules, RulePriority)
  }

  /**
   * The sort keeps the rules, puts every OB5 rule before every other rule
   * and every OB4 rule before every rule that is neither, and keeps the list
   * order among rules of equal priority.
   */
  lemma SortByPriorityOrder(rules: seq<ObRule>)
    ensures multiset(SortByPriority(rules)) == multiset(rules)
    ensures var s := SortByPriority(rules);
      forall i, j :: 0 <= i < j < |s| ==>
        (s[j].code == "OB5" ==> s[i].code == "OB5") &&
        (s[j].code == "OB4" ==> s[i].code == "OB5" || s[i].code == "OB4")
    ensures forall v :: WithKey(SortByPriority(rules), RulePriority, v) == WithKey(rules, RulePriority, v)
  {
    SortDescSorted(rules, RulePriority);
    forall v ensures WithKey(SortByPriority(rules), RulePriority, v) == WithKey(rules, RulePriority, v) {
      KeepsOrderWithinKey(rules, RulePriority, v);
    }
  }

  /**
   * `_select_rules_for_date`'s test: the weekday is in `days`, or the date
   * is in `specific_dates`. The rules have no `specific_date` attribute, so
   * the middle test never matches; an empty list contains nothing, so the
   * truthiness guards add nothing.
   */
  predicate Matches(r: ObRule, day: Date)
  {
    Weekday(day) in r.days || day in r.specificDates
  }

  /** The rules that apply on `day`, in list order. */
  function RulesForDate(day: Date, rules: seq<ObRule>): (r: seq<ObRule>)
    ensures |r| <= |rules|
    ensures forall x :: x in r <==> x in rules && Matches(x, day)
    decreases |rules|
  {
    if rules == [] then []
    else
      var n := |rules| - 1;
      assert rules == rules[..n] + [rules[n]];
      RulesForDate(day, rules[..n]) + (if Matches(rules[n], day) then [rules[n]] else [])
  }

  /** The loop of `_select_rules_for_date`. */
  method SelectRulesForDate(day: Date, rules: seq<ObRule>) returns (matching: seq<ObRule>)
    ensures matching == RulesForDate(day, rules)
  {
    matching := [];
    for i := 0 to |rules|
      invariant matching == RulesForDate(day, rules[..i])
    {
      assert rules[..i + 1][..i] == rules[..i];
      var rule := rules[i];
      var hit := false;
      if Weekday(day) in rule.days {
        hit := true;
      }
      if !hit && day in rule.specificDates {
        hit := true;
      }
      if hit {
        matching := matching + [rule];
      }
    }
    assert rules[..|rules|] == rules;
  }

  /** Times that `_rule_interval_for_day` can build a datetime from; other rules raise ValueError. */
  predicate WellFormedTimes(r: ObRule)
  {
    ValidClock(r.startTime) && (r.endTime == EndOfDay || ValidClock(r.endTime))
  }

  /**
   * `_rule_interval_for_day`: the rule's window on `day`. It starts on that
   * date; "24:00" ends it at the next midnight and any other end time ends
   * it on the same date, so an end before the start gives an empty window.
   */
  function RuleWindow(r: ObRule, day: Date): (w: Interval)
    requires WellFormedTimes(r)
    ensures At(day, 0) <= w.lo < At(day + 1, 0) && w.hi <= At(day + 1, 0)
    ensures w.lo == At(day, ClockSeconds(r.startTime))
    ensures w.hi == At(day, ClockSeconds(r.endTime))
    ensures r.endTime == EndOfDay ==> w.hi == At(day + 1, 0)
  {
    var obStart := At(day, ClockSeconds(r.startTime));
    if r.endTime == EndOfDay then Interval(obStart, At(day + 1, 0))
    else Interval(obStart, At(day, ClockSeconds(r.endTime)))
  }

  /** A window that ends before it starts on the same date contributes nothing. */
  lemma BackwardsWindowIsSkipped(r: ObRule, day: Date, lo: int, hi: int)
    requires WellFormedTimes(r) && r.endTime != EndOfDay
    requires ClockSeconds(r.endTime) <= ClockSeconds(r.startTime)
    ensures Overlap(RuleWindow(r, day), lo, hi) == None
  {
  }

  // ---------------------------------------------------------------------
  // `_subtract_covered`
  // ---------------------------------------------------------------------

  /** The loop of `_subtract_covered`, over `sorted(covered)`. */
  method SubtractCovered(start: int, end: int, covered: seq<Interval>) returns (result: seq<Interval>)
    ensures result == Subtract(ByTuple, start, end, covered)
  {
    var sorted := SortByTuple(covered);
    result := [];
    var cursor := start;
    for i := 0 to |sorted|
      invariant result + Gaps(cursor, end, sorted[i..]) == Gaps(start, end, sorted)
    {
      var c := sorted[i];
      assert sorted[i..] == [c] + sorted[i + 1..];
      if c.hi <= cursor || c.lo >= end {
        continue;
      }
      if c.lo > cursor {
        result := result + [Interval(cursor, Min(c.lo, end))];
      }
      cursor := Max(cursor, c.hi);
    }
    if cursor < end {
      result := result + [Interval(cursor, end)];
    }
  }

  // ---------------------------------------------------------------------
  // One calendar day of `calculate_ob_hours`
  // ---------------------------------------------------------------------

  /** Seconds per code. A code not yet present counts as 0. */
  type Totals = map<string, int>

  function Get(m: Totals, c: string): int
  {
    if c in m then m[c] else 0
  }

  /** `ob_totals[code] += x`. */
  function Add(m: Totals, c: string, x: int): (r: Totals)
    ensures r.Keys == m.Keys + {c}
    ensures Get(r, c) == Get(m, c) + x
    ensures forall d :: d != c ==> Get(r, d) == Get(m, d)
  {
    m[c := Get(m, c) + x]
  }

  lemma AddAdd(m: Totals, c: string, x: int, y: int)
    ensures Add(Add(m, c, x), c, y) == Add(m, c, x + y)
  {
  }

  predicate AllWellFormed(rules: seq<ObRule>)
  {
    forall r :: r in rules ==> WellFormedTimes(r)
  }

  function CodeSet(rules: seq<ObRule>): set<string>
  {
    set r | r in rules :: r.code
  }

  /** The running totals of a day and the time already paid on it. */
  datatype DayState = DayState(totals: Totals, covered: seq<Interval>)

  /** One pass of the loop over the day's sorted rules. */
  function RuleStep(st: DayState, rule: ObRule, day: Date, lo: int, hi: int): DayState
    requires WellFormedTimes(rule)
  {
    match Overlap(RuleWindow(rule, day), lo, hi)
    case None => st
    case Some(ov) =>
      var pieces := Subtract(ByTuple, ov.lo, ov.hi, st.covered);
      DayState(Add(st.totals, rule.code, SumLengths(pieces)), st.covered + pieces)
  }

  /** The loop over the day's sorted rules `s`, within the segment [lo, hi). */
  function DayRun(st: DayState, s: seq<ObRule>, day: Date, lo: int, hi: int): DayState
    requires AllWellFormed(s)
    decreases |s|
  {
    if s == [] then st
    else
      var n := |s| - 1;
      assert forall r :: r in s[..n] ==> r in s;
      RuleStep(DayRun(st, s[..n], day, lo, hi), s[n], day, lo, hi)
  }

  /** The windows of the day's rules clipped to the segment, each tagged with its rule's position. */
  function DayItems(s: seq<ObRule>, day: Date, lo: int, hi: int): (items: seq<Item>)
    requires AllWellFormed(s)
    ensures forall k :: 0 <= k < |items| ==>
      items[k].rank < |s| && Overlap(RuleWindow(s[items[k].rank], day), lo, hi) == Some(items[k].window)
    ensures RanksNondecreasing(items) && WindowsNonEmpty(items)
    ensures forall j, w :: 0 <= j < |s| && Overlap(RuleWindow(s[j], day), lo, hi) == Some(w) ==> Item(j, w) in items
    decreases |s|
  {
    if s == [] then []
    else
      var n := |s| - 1;
      assert forall r :: r in s[..n] ==> r in s;
      var prev := DayItems(s[..n], day, lo, hi);
      match Overlap(RuleWindow(s[n], day), lo, hi)
      case None => prev
      case Some(w) => prev + [Item(n, w)]
  }

  /** The time a day has paid is exactly the overlay of its clipped windows, in rule order. */
  lemma {:induction false} DayRunIsOverlay(t0: Totals, s: seq<ObRule>, day: Date, lo: int, hi: int)
    requires AllWellFormed(s)
    ensures DayRun(DayState(t0, []), s, day, lo, hi).covered == Spans(Overlay(ByTuple, DayItems(s, day, lo, hi)))
    decreases |s|
  {
    if s != [] {
      var n := |s| - 1;
      assert forall r :: r in s[..n] ==> r in s;
      DayRunIsOverlay(t0, s[..n], day, lo, hi);
      var prev := DayItems(s[..n], day, lo, hi);
      var before := Overlay(ByTuple, prev);
      match Overlap(RuleWindow(s[n], day), lo, hi)
      case None =>
      case Some(w) =>
        var items := prev + [Item(n, w)];
        assert items[..|items| - 1] == prev;
        SpansAppend(before, n, Subtract(ByTuple, w.lo, w.hi, Spans(before)));
    }
  }

  /**
   * What `OverlayOk` says about claims, restated per rule position: `clip[j]`
   * is the clipped window of the rule at position `j`, if any.
   */
  lemma ClaimsByPosition(items: seq<Item>, cl: seq<Claim>, clip: seq<Option<Interval>>, lo: int, hi: int)
    requires OverlayOk(items, cl)
    requires forall k :: 0 <= k < |items| ==>
      items[k].rank < |clip| && clip[items[k].rank] == Some(items[k].window) &&
      lo <= items[k].window.lo && items[k].window.hi <= hi
    requires forall j, w :: 0 <= j < |clip| && clip[j] == Some(w) ==> Item(j, w) in items
    ensures NonEmpty(Spans(cl)) && PairwiseDisjoint(Spans(cl))
    ensures forall i :: 0 <= i < |cl| ==> cl[i].rank < |clip|
    ensures forall i, t :: 0 <= i < |cl| && Contains(cl[i].span, t) ==> lo <= t < hi
    ensures forall i, j, t :: 0 <= i < |cl| && 0 <= j < cl[i].rank && Contains(cl[i].span, t) && clip[j].Some? ==>
      !Contains(clip[j].value, t)
    ensures forall j, t :: 0 <= j < |clip| && clip[j].Some? && Contains(clip[j].value, t) ==> Covers(Spans(cl), t)
  {
    forall i | 0 <= i < |cl| ensures cl[i].rank < |clip| {
      var t := cl[i].span.lo;
      assert Spans(cl)[i] == cl[i].span;
      assert Contains(cl[i].span, t);
      var k :| 0 <= k < |items| && items[k].rank == cl[i].rank && Contains(items[k].window, t);
    }
    forall i, t | 0 <= i < |cl| && Contains(cl[i].span, t) ensures lo <= t < hi {
      var k :| 0 <= k < |items| && items[k].rank == cl[i].rank && Contains(items[k].window, t);
    }
    forall i, j, t | 0 <= i < |cl| && 0 <= j < cl[i].rank && Contains(cl[i].span, t) && clip[j].Some?
      ensures !Contains(clip[j].value, t)
    {
      assert Item(j, clip[j].value) in items;
      var k2 :| 0 <= k2 < |items| && items[k2] == Item(j, clip[j].value);
    }
    forall j, t | 0 <= j < |clip| && clip[j].Some? && Contains(clip[j].value, t)
      ensures Covers(Spans(cl), t)
    {
      assert Item(j, clip[j].value) in items;
      var k2 :| 0 <= k2 < |items| && items[k2] == Item(j, clip[j].value);
    }
  }

  /** The clipped windows of the day's rules, by position. */
  function Clipped(s: seq<ObRule>, day: Date, lo: int, hi: int): (clip: seq<Option<Interval>>)
    requires AllWellFormed(s)
    ensures |clip| == |s| && forall j :: 0 <= j < |s| ==> clip[j] == Overlap(RuleWindow(s[j], day), lo, hi)
  {
    seq(|s|, j requires 0 <= j < |s| => Overlap(RuleWindow(s[j], day), lo, hi))
  }

  /**
   * The day's priority rule. Each piece of time is paid to one rule whose
   * window holds it; no piece lies in the window of a rule earlier in the
   * priority order; pieces never overlap; and every instant of the segment
   * that some rule's window holds is paid.
   */
  /** `ClaimsByPosition` for the items of a day. */
  lemma DayClaims(s: seq<ObRule>, day: Date, lo: int, hi: int)
    requires AllWellFormed(s)
    ensures var clip := Clipped(s, day, lo, hi);
      var cl := Overlay(ByTuple, DayItems(s, day, lo, hi));
      && NonEmpty(Spans(cl)) && PairwiseDisjoint(Spans(cl)) && Within(Spans(cl), lo, hi)
      && (forall i :: 0 <= i < |cl| ==> cl[i].rank < |s|)
      && (forall i, j, t :: 0 <= i < |cl| && 0 <= j < cl[i].rank && Contains(cl[i].span, t) && clip[j].Some? ==>
            !Contains(clip[j].value, t))
      && (forall j, t :: 0 <= j < |s| && clip[j].Some? && Contains(clip[j].value, t) ==> Covers(Spans(cl), t))
  {
    var items := DayItems(s, day, lo, hi);
    var clip := Clipped(s, day, lo, hi);
    var cl := Overlay(ByTuple, items);
    OverlaySound(ByTuple, items);
    ClaimsByPosition(items, cl, clip, lo, hi);
    forall k | 0 <= k < |cl| ensures lo <= Spans(cl)[k].lo && Spans(cl)[k].hi <= hi {
      assert Contains(cl[k].span, cl[k].span.lo) && Contains(cl[k].span, cl[k].span.hi - 1);
    }
  }

  /**
   * The day's priority rule. Each piece of time is paid to one rule whose
   * window holds it; no piece lies in the window of a rule earlier in the
   * priority order; pieces never overlap; and every instant of the segment
   * that some rule's window holds is paid.
   */
  lemma DayPriority(t0: Totals, s: seq<ObRule>, day: Date, lo: int, hi: int)
    requires AllWellFormed(s)
    ensures var cl := Overlay(ByTuple, DayItems(s, day, lo, hi));
      && DayRun(DayState(t0, []), s, day, lo, hi).covered == Spans(cl)
      && NonEmpty(Spans(cl)) && PairwiseDisjoint(Spans(cl)) && Within(Spans(cl), lo, hi)
      && (forall i :: 0 <= i < |cl| ==> cl[i].rank < |s|)
      && (forall i, j, t :: 0 <= i < |cl| && 0 <= j < cl[i].rank && Contains(cl[i].span, t) ==>
            !Contains(RuleWindow(s[j], day), t))
      && (forall j, t :: 0 <= j < |s| && Contains(RuleWindow(s[j], day), t) && lo <= t < hi ==> Covers(Spans(cl), t))
  {
    var cl := Overlay(ByTuple, DayItems(s, day, lo, hi));
    var clip := Clipped(s, day, lo, hi);
    DayRunIsOverlay(t0, s, day, lo, hi);
    DayClaims(s, day, lo, hi);
    forall i, j, t | 0 <= i < |cl| && 0 <= j < cl[i].rank && Contains(cl[i].span, t)
      ensures !Contains(RuleWindow(s[j], day), t)
    {
      OverlapContains(RuleWindow(s[j], day), lo, hi, t);
    }
    forall j, t | 0 <= j < |s| && Contains(RuleWindow(s[j], day), t) && lo <= t < hi
      ensures Covers(Spans(cl), t)
    {
      OverlapContains(RuleWindow(s[j], day), lo, hi, t);
    }
  }

  /** Every claim carries the rank of one of `bound` rules. */
  predicate RanksBelow(cl: seq<Claim>, bound: int)
  {
    forall i :: 0 <= i < |cl| ==> cl[i].rank < bound
  }

  /** The totals a day adds, claim by claim, to the code of the rule each claim belongs to. */
  function PaidTo(m: Totals, cl: seq<Claim>, s: seq<ObRule>): (r: Totals)
    requires RanksBelow(cl, |s|)
    ensures m.Keys <= r.Keys
    decreases |cl|
  {
    if cl == [] then m
    else
      var n := |cl| - 1;
      Add(PaidTo(m, cl[..n], s), s[cl[n].rank].code, Length(cl[n].span))
  }

  lemma PaidToSnoc(m: Totals, cl: seq<Claim>, c: Claim, s: seq<ObRule>)
    requires c.rank < |s| && RanksBelow(cl, |s|)
    ensures RanksBelow(cl + [c], |s|)
    ensures PaidTo(m, cl + [c], s) == Add(PaidTo(m, cl, s), s[c.rank].code, Length(c.span))
  {
    assert (cl + [c])[..|cl|] == cl;
  }

  lemma TagRanks(before: seq<Claim>, k: nat, ps: seq<Interval>, bound: nat)
    requires k < bound && RanksBelow(before, bound)
    ensures RanksBelow(before + Tag(k, ps), bound)
  {
  }

  lemma {:induction false} PaidToTag(m: Totals, before: seq<Claim>, k: nat, ps: seq<Interval>, s: seq<ObRule>)
    requires k < |s| && RanksBelow(before, |s|)
    requires s[k].code in PaidTo(m, before, s)
    ensures RanksBelow(before + Tag(k, ps), |s|)
    ensures PaidTo(m, before + Tag(k, ps), s) == Add(PaidTo(m, before, s), s[k].code, SumLengths(ps))
    decreases |ps|
  {
    TagRanks(before, k, ps, |s|);
    if ps == [] {
      assert before + Tag(k, ps) == before;
    } else {
      var n := |ps| - 1;
      PaidToTag(m, before, k, ps[..n], s);
      PaidToTagStep(m, before, k, ps[..n], ps[n], s);
      assert ps[..n] + [ps[n]] == ps;
    }
  }

  /** One more piece `p`, given the claim for the pieces `qs` before it. */
  lemma PaidToTagStep(m: Totals, before: seq<Claim>, k: nat, qs: seq<Interval>, p: Interval, s: seq<ObRule>)
    requires k < |s| && RanksBelow(before, |s|) && RanksBelow(before + Tag(k, qs), |s|)
    requires PaidTo(m, before + Tag(k, qs), s) == Add(PaidTo(m, before, s), s[k].code, SumLengths(qs))
    ensures RanksBelow(before + Tag(k, qs + [p]), |s|)
    ensures PaidTo(m, before + Tag(k, qs + [p]), s) == Add(PaidTo(m, before, s), s[k].code, SumLengths(qs + [p]))
  {
    var base := PaidTo(m, before, s);
    var prefix := before + Tag(k, qs);
    TagRanks(before, k, qs + [p], |s|);
    TagSnoc(before, k, qs, p);
    PaidToSnoc(m, prefix, Claim(k, p), s);
    SumLengthsAppend(qs, [p]);
    AddAdd(base, s[k].code, SumLengths(qs), Length(p));
  }

  /** Claims only ever carry the ranks of the items they came from. */
  lemma {:induction false} OverlayRanks(order: SortOrder, items: seq<Item>, bound: nat)
    requires forall k :: 0 <= k < |items| ==> items[k].rank < bound
    ensures forall i :: 0 <= i < |Overlay(order, items)| ==> Overlay(order, items)[i].rank < bound
    decreases |items|
  {
    if items != [] {
      var n := |items| - 1;
      var prev := Overlay(order, items[..n]);
      var it := items[n];
      OverlayRanks(order, items[..n], bound);
      var tg := Tag(it.rank, Subtract(order, it.window.lo, it.window.hi, Spans(prev)));
      var cl := Overlay(order, items);
      assert cl == prev + tg;
      forall i | 0 <= i < |cl| ensures cl[i].rank < bound {
        if i < |prev| {
          assert cl[i] == prev[i];
        } else {
          assert cl[i] == tg[i - |prev|];
        }
      }
    }
  }

  /** Each code's seconds on a day are the lengths of the claims paid to rules of that code. */
  lemma {:induction false} DayTotalsArePaidClaims(t0: Totals, s: seq<ObRule>, day: Date, lo: int, hi: int)
    requires AllWellFormed(s) && forall r :: r in s ==> r.code in t0
    ensures var cl := Overlay(ByTuple, DayItems(s, day, lo, hi));
      RanksBelow(cl, |s|) && DayRun(DayState(t0, []), s, day, lo, hi).totals == PaidTo(t0, cl, s)
    decreases |s|
  {
    OverlayRanks(ByTuple, DayItems(s, day, lo, hi), |s|);
    if s != [] {
      var n := |s| - 1;
      assert forall r :: r in s[..n] ==> r in s;
      DayTotalsArePaidClaims(t0, s[..n], day, lo, hi);
      DayRunIsOverlay(t0, s[..n], day, lo, hi);
      var prev := DayItems(s[..n], day, lo, hi);
      var before := Overlay(ByTuple, prev);
      PaidToSame(t0, before, s[..n], s);
      match Overlap(RuleWindow(s[n], day), lo, hi)
      case None =>
      case Some(w) =>
        var items := prev + [Item(n, w)];
        assert items[..|items| - 1] == prev;
        assert s[n] in s;
        PaidToTag(t0, before, n, Subtract(ByTuple, w.lo, w.hi, Spans(before)), s);
    }
  }

  /** `PaidTo` only looks at the rules the claims name. */
  lemma {:induction false} PaidToSame(m: Totals, cl: seq<Claim>, s: seq<ObRule>, s': seq<ObRule>)
    requires |s| <= |s'| && s == s'[..|s|]
    requires RanksBelow(cl, |s|)
    ensures PaidTo(m, cl, s) == PaidTo(m, cl, s')
    decreases |cl|
  {
    if cl != [] {
      PaidToSame(m, cl[..|cl| - 1], s, s');
    }
  }

  // ---------------------------------------------------------------------
  // Sums over the codes
  // ---------------------------------------------------------------------

  predicate Distinct(cs: seq<string>)
  {
    forall i, j :: 0 <= i < j < |cs| ==> cs[i] != cs[j]
  }

  /** The codes of `rules`, each once, in order of first appearance: the keys of `ob_totals`. */
  function Codes(rules: seq<ObRule>): (cs: seq<string>)
    ensures Distinct(cs)
    ensures forall c :: c in cs <==> c in CodeSet(rules)
    decreases |rules|
  {
    if rules == [] then []
    else
      var n := |rules| - 1;
      var prev := Codes(rules[..n]);
      assert rules == rules[..n] + [rules[n]];
      assert CodeSet(rules) == CodeSet(rules[..n]) + {rules[n].code};
      if rules[n].code in prev then prev else prev + [rules[n].code]
  }

  function SumOver(m: Totals, cs: seq<string>): int
    decreases |cs|
  {
    if cs == [] then 0 else Get(m, cs[0]) + SumOver(m, cs[1..])
  }

  lemma {:induction false} SumOverOther(m: Totals, cs: seq<string>, c: string, x: int)
    requires c !in cs
    ensures SumOver(Add(m, c, x), cs) == SumOver(m, cs)
    decreases |cs|
  {
    if cs != [] {
      SumOverOther(m, cs[1..], c, x);
    }
  }

  lemma {:induction false} SumOverAdd(m: Totals, cs: seq<string>, c: string, x: int)
    requires Distinct(cs) && c in cs
    ensures SumOver(Add(m, c, x), cs) == SumOver(m, cs) + x
    decreases |cs|
  {
    if cs[0] == c {
      assert c !in cs[1..];
      SumOverOther(m, cs[1..], c, x);
    } else {
      SumOverAdd(m, cs[1..], c, x);
    }
  }

  lemma {:induction false} SumOverZero(m: Totals, cs: seq<string>)
    requires forall c :: Get(m, c) == 0
    ensures SumOver(m, cs) == 0
    decreases |cs|
  {
    if cs != [] {
      SumOverZero(m, cs[1..]);
    }
  }

  lemma {:induction false} SumLengthsNonNegative(cs: seq<Interval>)
    requires WellFormed(cs)
    ensures SumLengths(cs) >= 0
    decreases |cs|
  {
    if cs != [] {
      SumLengthsNonNegative(cs[1..]);
    }
  }

  /**
   * Over a day the keys only grow, by codes of the day's rules; no total
   * shrinks; and the totals grow together by exactly the time newly paid.
   */
  lemma {:induction false} DayRunTotals(st: DayState, s: seq<ObRule>, day: Date, lo: int, hi: int, codes: seq<string>)
    requires AllWellFormed(s) && Distinct(codes) && WellFormed(st.covered)
    requires forall r :: r in s ==> r.code in codes
    ensures var r := DayRun(st, s, day, lo, hi);
      && st.totals.Keys <= r.totals.Keys <= st.totals.Keys + CodeSet(s)
      && (forall c :: Get(r.totals, c) >= Get(st.totals, c))
      && WellFormed(r.covered)
      && SumOver(r.totals, codes) - SumOver(st.totals, codes) == SumLengths(r.covered) - SumLengths(st.covered)
    decreases |s|
  {
    if s != [] {
      var n := |s| - 1;
      assert forall r :: r in s[..n] ==> r in s;
      DayRunTotals(st, s[..n], day, lo, hi, codes);
      RuleStepTotals(DayRun(st, s[..n], day, lo, hi), s[n], day, lo, hi, codes);
    }
  }

  lemma RuleStepTotals(st: DayState, rule: ObRule, day: Date, lo: int, hi: int, codes: seq<string>)
    requires WellFormedTimes(rule) && Distinct(codes) && WellFormed(st.covered) && rule.code in codes
    ensures var r := RuleStep(st, rule, day, lo, hi);
      && st.totals.Keys <= r.totals.Keys <= st.totals.Keys + {rule.code}
      && (forall c :: Get(r.totals, c) >= Get(st.totals, c))
      && WellFormed(r.covered)
      && SumOver(r.totals, codes) - SumOver(st.totals, codes) == SumLengths(r.covered) - SumLengths(st.covered)
  {
    match Overlap(RuleWindow(rule, day), lo, hi)
    case None =>
    case Some(ov) =>
      var pieces := Subtract(ByTuple, ov.lo, ov.hi, st.covered);
      SubtractSpec(ByTuple, ov.lo, ov.hi, st.covered);
      SumLengthsNonNegative(pieces);
      SumLengthsAppend(st.covered, pieces);
      SumOverAdd(st.totals, codes, rule.code, SumLengths(pieces));
  }

  // ---------------------------------------------------------------------
  // The whole shift
  // ---------------------------------------------------------------------

  /** `ob_totals = {rule.code: 0.0 for rule in rules}`. */
  function ZeroTotals(rules: seq<ObRule>): Totals
  {
    map c | c in CodeSet(rules) :: 0
  }

  /** The day containing `current` and the end of its segment: the next midnight, or the shift's end. */
  function SegmentEnd(current: int, end: int): (r: int)
    ensures current < end ==> current < r <= end
    ensures r <= At(current / SecondsPerDay + 1, 0)
  {
    Min(end, At(current / SecondsPerDay + 1, 0))
  }

  /** The rules of `day`, highest priority first. */
  function DayRules(day: Date, rules: seq<ObRule>): (s: seq<ObRule>)
    ensures forall r :: r in s <==> r in rules && Matches(r, day)
  {
    var s := SortByPriority(RulesForDate(day, rules));
    assert forall r :: r in s <==> r in RulesForDate(day, rules) by {
      forall r ensures r in s <==> r in RulesForDate(day, rules) {
        assert r in s <==> r in multiset(s);
      }
    }
    s
  }

  /** The `while current < end_dt` loop, one calendar day per step. */
  function ShiftRun(totals: Totals, current: int, end: int, rules: seq<ObRule>): Totals
    requires AllWellFormed(rules)
    decreases end - current
  {
    if current >= end then totals
    else
      var day := current / SecondsPerDay;
      var segEnd := SegmentEnd(current, end);
      var s := DayRules(day, rules);
      ShiftRun(DayRun(DayState(totals, []), s, day, current, segEnd).totals, segEnd, end, rules)
  }

  /** `calculate_ob_hours`, in seconds. A missing start or end is None. */
  function ObHours(start: Option<int>, end: Option<int>, rules: seq<ObRule>): Totals
    requires AllWellFormed(rules)
  {
    if start.None? || end.None? || end.value <= start.value then ZeroTotals(rules)
    else ShiftRun(ZeroTotals(rules), start.value, end.value, rules)
  }

  /** What a run of the shift loop does to the totals. */
  lemma {:induction false} ShiftRunTotals(totals: Totals, current: int, end: int, rules: seq<ObRule>)
    requires AllWellFormed(rules)
    ensures var r := ShiftRun(totals, current, end, rules);
      && totals.Keys <= r.Keys <= totals.Keys + CodeSet(rules)
      && (forall c :: Get(r, c) >= Get(totals, c))
      && SumOver(r, Codes(rules)) <= SumOver(totals, Codes(rules)) + Max(0, end - current)
    decreases end - current
  {
    if current < end {
      var day := current / SecondsPerDay;
      var segEnd := SegmentEnd(current, end);
      var s := DayRules(day, rules);
      var st := DayRun(DayState(totals, []), s, day, current, segEnd);
      DayRunTotals(DayState(totals, []), s, day, current, segEnd, Codes(rules));
      DayPriority(totals, s, day, current, segEnd);
      DisjointLengthBound(st.covered, current, segEnd);
      assert CodeSet(s) <= CodeSet(rules);
      ShiftRunTotals(st.totals, segEnd, end, rules);
    }
  }

  /**
   * The result of `calculate_ob_hours` has a key for every code of the
   * rules and no other. No total is negative; when start or end is missing
   * or the shift is empty every total is 0; and no second is counted twice:
   * the totals add up to at most the length of the shift.
   */
  lemma ObHoursSpec(start: Option<int>, end: Option<int>, rules: seq<ObRule>)
    requires AllWellFormed(rules)
    ensures var r := ObHours(start, end, rules);
      && r.Keys == CodeSet(rules)
      && (forall c :: c in r ==> r[c] >= 0)
      && (start.None? || end.None? || end.value <= start.value ==> forall c :: c in r ==> r[c] == 0)
      && (start.Some? && end.Some? ==> SumOver(r, Codes(rules)) <= Max(0, end.value - start.value))
  {
    var zero := ZeroTotals(rules);
    assert forall c :: Get(zero, c) == 0;
    SumOverZero(zero, Codes(rules));
    if start.Some? && end.Some? && start.value < end.value {
      ShiftRunSpec(start.value, end.value, rules);
    }
  }

  /** A shift run from zero totals: every code of the rules, no negative total, the sum bounded by the length. */
  lemma ShiftRunSpec(start: int, end: int, rules: seq<ObRule>)
    requires AllWellFormed(rules)
    requires SumOver(ZeroTotals(rules), Codes(rules)) == 0
    ensures var r := ShiftRun(ZeroTotals(rules), start, end, rules);
      && r.Keys == CodeSet(rules)
      && (forall c :: c in r ==> r[c] >= 0)
      && SumOver(r, Codes(rules)) <= Max(0, end - start)
  {
    var zero := ZeroTotals(rules);
    var r := ShiftRun(zero, start, end, rules);
    ShiftRunTotals(zero, start, end, rules);
    forall c | c in r ensures r[c] >= 0 {
      assert Get(r, c) >= Get(zero, c);
    }
  }

  // ---------------------------------------------------------------------
  // The loops of `calculate_ob_hours`
  // ---------------------------------------------------------------------

  /** The inner loop: each uncovered piece is added to the rule's code and to `covered`. */
  method PayPieces(t: Totals, covered: seq<Interval>, code: string, uncovered: seq<Interval>)
    returns (t': Totals, covered': seq<Interval>)
    requires code in t
    ensures t' == Add(t, code, SumLengths(uncovered))
    ensures covered' == covered + uncovered
  {
    t', covered' := t, covered;
    for j := 0 to |uncovered|
      invariant t' == Add(t, code, SumLengths(uncovered[..j]))
      invariant covered' == covered + uncovered[..j]
    {
      assert uncovered[..j + 1] == uncovered[..j] + [uncovered[j]];
      SumLengthsAppend(uncovered[..j], [uncovered[j]]);
      AddAdd(t, code, SumLengths(uncovered[..j]), Length(uncovered[j]));
      t' := Add(t', code, Length(uncovered[j]));
      covered' := covered' + [uncovered[j]];
    }
    assert uncovered[..|uncovered|] == uncovered;
  }

  /** The `for rule in sorted_rules` loop of one day. */
  method ProcessDay(totals: Totals, sorted: seq<ObRule>, day: Date, lo: int, hi: int) returns (t: Totals)
    requires AllWellFormed(sorted) && forall r :: r in sorted ==> r.code in totals
    ensures t == DayRun(DayState(totals, []), sorted, day, lo, hi).totals
    ensures totals.Keys <= t.Keys
  {
    t := totals;
    var covered: seq<Interval> := [];
    for k := 0 to |sorted|
      invariant DayState(t, covered) == DayRun(DayState(totals, []), sorted[..k], day, lo, hi)
      invariant totals.Keys <= t.Keys
    {
      assert sorted[..k + 1][..k] == sorted[..k];
      ghost var before := DayState(t, covered);
      assert DayRun(DayState(totals, []), sorted[..k + 1], day, lo, hi) == RuleStep(before, sorted[k], day, lo, hi);
      var rule := sorted[k];
      var w := RuleWindow(rule, day);
      var overlapStart := Max(lo, w.lo);
      var overlapEnd := Min(hi, w.hi);
      if overlapEnd <= overlapStart {
        assert Overlap(w, lo, hi) == None;
        continue;
      }
      assert Overlap(w, lo, hi) == Some(Interval(overlapStart, overlapEnd));
      var uncovered := SubtractCovered(overlapStart, overlapEnd, covered);
      assert rule in sorted;
      t, covered := PayPieces(t, covered, rule.code, uncovered);
    }
    assert sorted[..|sorted|] == sorted;
  }

  /** `calculate_ob_hours`: the `while current < end_dt` loop over calendar days. */
  method CalculateObHours(start: Option<int>, end: Option<int>, rules: seq<ObRule>) returns (totals: Totals)
    requires AllWellFormed(rules)
    ensures totals == ObHours(start, end, rules)
  {
    totals := ZeroTotals(rules);
    if start.None? || end.None? || end.value <= start.value {
      return;
    }
    var e := end.value;
    var current := start.value;
    while current < e
      invariant ShiftRun(totals, current, e, rules) == ObHours(start, end, rules)
      invariant CodeSet(rules) <= totals.Keys
      decreases e - current
    {
      var day := current / SecondsPerDay;
      var segmentEnd := Min(e, At(day + 1, 0));
      var todays := SelectRulesForDate(day, rules);
      var sortedRules := SortByPriority(todays);
      assert sortedRules == DayRules(day, rules);
      assert forall r :: r in sortedRules ==> r.code in CodeSet(rules);
      assert segmentEnd == SegmentEnd(current, e);
      var next := ProcessDay(totals, sortedRules, day, current, segmentEnd);
      assert ShiftRun(totals, current, e, rules) == ShiftRun(next, segmentEnd, e, rules);
      totals := next;
      current := segmentEnd;
    }
  }

  // ---------------------------------------------------------------------
  // `calculate_ob_pay`
  // ---------------------------------------------------------------------

  /**
   * The pay of one rule: its code's hours times salary over rate when the
   * rate is set (non-zero) and the hours are positive, and 0 otherwise.
   * Hours are the code's seconds over 3600.
   */
  function RulePay(hours: Totals, rule: ObRule, salary: real): real
  {
    var secs := Get(hours, rule.code);
    if rule.rate != 0 && secs > 0 then (secs as real / 3600.0) * (salary / rule.rate as real) else 0.0
  }

  /** The `for rule in rules` loop of `calculate_ob_pay`: each rule writes its code's entry. */
  function ObPay(hours: Totals, rules: seq<ObRule>, salary: real): (pays: map<string, real>)
    ensures pays.Keys == CodeSet(rules)
    decreases |rules|
  {
    if rules == [] then map[]
    else
      var n := |rules| - 1;
      assert rules == rules[..n] + [rules[n]];
      assert CodeSet(rules) == CodeSet(rules[..n]) + {rules[n].code};
      ObPay(hours, rules[..n], salary)[rules[n].code := RulePay(hours, rules[n], salary)]
  }

  /** Where several rules share a code, the last of them decides that code's pay. */
  lemma {:induction false} ObPayLastRuleWins(hours: Totals, rules: seq<ObRule>, salary: real, i: int)
    requires 0 <= i < |rules| && forall j :: i < j < |rules| ==> rules[j].code != rules[i].code
    ensures ObPay(hours, rules, salary)[rules[i].code] == RulePay(hours, rules[i], salary)
    decreases |rules|
  {
    var n := |rules| - 1;
    if i < n {
      ObPayLastRuleWins(hours, rules[..n], salary, i);
    }
  }

  /** Every entry is the pay of some rule of that code. */
  lemma {:induction false} ObPayFromSomeRule(hours: Totals, rules: seq<ObRule>, salary: real, c: string)
    requires c in ObPay(hours, rules, salary)
    ensures exists r :: r in rules && r.code == c && ObPay(hours, rules, salary)[c] == RulePay(hours, r, salary)
    decreases |rules|
  {
    var n := |rules| - 1;
    if rules[n].code != c {
      ObPayFromSomeRule(hours, rules[..n], salary, c);
      var r :| r in rules[..n] && r.code == c && ObPay(hours, rules[..n], salary)[c] == RulePay(hours, r, salary);
      assert r in rules;
    } else {
      assert rules[n] in rules;
    }
  }

  /** With no OB seconds at all, every pay is 0; with non-negative salary and rates, no pay is negative. */
  lemma ObPaySigns(hours: Totals, rules: seq<ObRule>, salary: real, c: string)
    requires c in ObPay(hours, rules, salary)
    ensures (forall d :: Get(hours, d) == 0) ==> ObPay(hours, rules, salary)[c] == 0.0
    ensures salary >= 0.0 && (forall r :: r in rules ==> r.rate >= 0) ==> ObPay(hours, rules, salary)[c] >= 0.0
  {
    ObPayFromSomeRule(hours, rules, salary, c);
  }

  /** The `for rule in rules` loop of `calculate_ob_pay`. */
  method PayPerRule(hours: Totals, rules: seq<ObRule>, salary: real) returns (pays: map<string, real>)
    ensures pays == ObPay(hours, rules, salary)
  {
    pays := map[];
    for i := 0 to |rules|
      invariant pays == ObPay(hours, rules[..i], salary)
    {
      assert rules[..i + 1][..i] == rules[..i];
      var rule := rules[i];
      var pay := PayForRule(hours, rule, salary);
      assert ObPay(hours, rules[..i + 1], salary) == ObPay(hours, rules[..i], salary)[rule.code := pay];
      pays := pays[rule.code := pay];
    }
    assert rules[..|rules|] == rules;
  }

  /** The body of the loop for one rule: its hours times the rule's hourly rate, 0 for a zero rate or no hours. */
  method PayForRule(hours: Totals, rule: ObRule, salary: real) returns (pay: real)
    ensures pay == RulePay(hours, rule, salary)
  {
    var h := Get(hours, rule.code);
    pay := 0.0;
    if rule.rate != 0 && h > 0 {
      pay := (h as real / 3600.0) * (salary / rule.rate as real);
    }
  }

  /** `calculate_ob_pay`: the hours of the shift, then one entry per rule. */
  method CalculateObPay(start: Option<int>, end: Option<int>, rules: seq<ObRule>, salary: real)
    returns (pays: map<string, real>)
    requires AllWellFormed(rules)
    ensures pays == ObPay(ObHours(start, end, rules), rules, salary)
  {
    var hours := CalculateObHours(start, end, rules);
    pays := PayPerRule(hours, rules, salary);
  }

  // ---------------------------------------------------------------------
  // `get_combined_rules_for_year`
  // ---------------------------------------------------------------------

  /** The base rules followed by the year's holiday rules. */
  function CombinedRules(base: seq<ObRule>, year: int): seq<ObRule>
  {
    base + HolidaysOb.SpecialObRules(year)
  }

  lemma AppendKeepsBase(base: seq<ObRule>, special: seq<ObRule>)
    requires forall x :: x in special ==> HolidaysOb.SpecialShape(x)
    ensures var r := base + special;
      |r| >= |base| && r[..|base|] == base &&
      forall i :: |base| <= i < |r| ==> HolidaysOb.SpecialShape(r[i])
  {
    assert forall i :: |base| <= i < |base + special| ==> (base + special)[i] == special[i - |base|];
  }

  /** The combined list starts with the base rules; every rule after them is a holiday rule of OB4 or OB5 shape. */
  lemma CombinedRulesShape(base: seq<ObRule>, year: int)
    ensures var r := CombinedRules(base, year);
      |r| >= |base| && r[..|base|] == base &&
      forall i :: |base| <= i < |r| ==> HolidaysOb.SpecialShape(r[i])
  {
    HolidaysOb.SpecialObRulesShape(year);
    AppendKeepsBase(base, HolidaysOb.SpecialObRules(year));
  }

  lemma AppendWellFormed(base: seq<ObRule>, special: seq<ObRule>)
    requires AllWellFormed(base) && forall x :: x in special ==> HolidaysOb.SpecialShape(x)
    ensures AllWellFormed(base + special)
  {
  }

  /** Holiday rules have well-formed times, so the combined rules do when the base rules do. */
  lemma CombinedRulesWellFormed(base: seq<ObRule>, year: int)
    requires AllWellFormed(base)
    ensures AllWellFormed(CombinedRules(base, year))
  {
    HolidaysOb.SpecialObRulesShape(year);
    AppendWellFormed(base, HolidaysOb.SpecialObRules(year));
  }
}
