/**
 * The pay of the on-call engine in app/core/oncall.py. Rules are visited in
 * descending priority; each pays for the parts of its windows that no
 * earlier rule has claimed, so every second of a shift is paid by at most
 * one rule, the one of highest priority whose window holds it. Each claimed
 * piece is paid `(monthly_salary / rate) * hours` and credited to its
 * rule's code in a breakdown kept in insertion order.
 */
module OnCallPay {
  import opened Wrappers
  import opened Calendar
  import opened Models
  import opened Sorting
  import opened Intervals
  import opened OnCall
  import opened OnCallRules

  // ---------------------------------------------------------------------
  // Priority order
  // ---------------------------------------------------------------------

  function OcPriority(r: OnCallRule): int
  {
    r.priority
  }

  /** `sorted(rules, key=lambda r: r.priority, reverse=True)`. */
  function SortByPriority(rules: seq<OnCallRule>): (s: seq<OnCallRule>)
    ensures |s| == |rules| && forall r :: r in s <==> r in rules
  {
    var s := SortDesc(rules, OcPriority);
    assert forall r :: r in s <==> r in multiset(rules);
    s
  }

  /**
   * The sort keeps every rule, puts higher priorities first, and keeps the
   * list order among rules of equal priority.
   */
  lemma SortByPriorityOrder(rules: seq<OnCallRule>)
    ensures multiset(SortByPriority(rules)) == multiset(rules)
    ensures SortedDesc(SortByPriority(rules), OcPriority)
    ensures forall v :: WithKey(SortByPriority(rules), OcPriority, v) == WithKey(rules, OcPriority, v)
  {
    SortDescSorted(rules, OcPriority);
    forall v ensures WithKey(SortByPriority(rules), OcPriority, v) == WithKey(rules, OcPriority, v) {
      KeepsOrderWithinKey(rules, OcPriority, v);
    }
  }

  // ---------------------------------------------------------------------
  // The claims of a shift
  // ---------------------------------------------------------------------

  /** The intervals of each rule of `s` inside [lo, hi), by position. */
  function Windows(s: seq<OnCallRule>, lo: int, hi: int): (ws: seq<seq<Interval>>)
    requires AllOcWellFormed(s)
    ensures |ws| == |s| && forall k :: 0 <= k < |s| ==> ws[k] == RuleIntervals(s[k], lo, hi)
  {
    seq(|s|, k requires 0 <= k < |s| => assert s[k] in s; RuleIntervals(s[k], lo, hi))
  }

  /**
   * The pieces paid in [lo, hi) when the rules `s` are visited in order:
   * each rule claims what its intervals hold and nothing earlier claimed.
   * A claim's rank is the position of its rule in `s`.
   */
  function Claims(s: seq<OnCallRule>, lo: int, hi: int): seq<Claim>
    requires AllOcWellFormed(s)
  {
    Overlay(ByStart, Flatten(Windows(s, lo, hi)))
  }

  predicate Ranked(cl: seq<Claim>, s: seq<OnCallRule>)
  {
    forall i :: 0 <= i < |cl| ==> cl[i].rank < |s|
  }

  /** The items of a shift are in rule order, non-empty, and are exactly the rules' intervals. */
  lemma ItemsOfShift(s: seq<OnCallRule>, lo: int, hi: int)
    requires AllOcWellFormed(s)
    ensures var items := Flatten(Windows(s, lo, hi));
      && RanksNondecreasing(items) && WindowsNonEmpty(items)
      && (forall k: nat, w :: Item(k, w) in items <==> k < |s| && w in RuleIntervals(s[k], lo, hi))
      && (forall k :: 0 <= k < |items| ==> items[k].rank < |s| && items[k].window in RuleIntervals(s[items[k].rank], lo, hi))
  {
    var ws := Windows(s, lo, hi);
    var items := Flatten(ws);
    FlattenSpec(ws);
    forall k, w: Interval | 0 <= k < |ws| && w in ws[k] ensures w.lo < w.hi {
      assert s[k] in s;
      RuleIntervalsSpec(s[k], lo, hi);
      var m :| 0 <= m < |ws[k]| && ws[k][m] == w;
    }
    forall k | 0 <= k < |items| ensures items[k].rank < |s| && items[k].window in RuleIntervals(s[items[k].rank], lo, hi) {
      assert Item(items[k].rank, items[k].window) in items;
    }
  }

  /** A window of a rule's intervals holding `t` makes those intervals cover `t`. */
  lemma WindowCovers(ivs: seq<Interval>, w: Interval, t: int)
    requires w in ivs && Contains(w, t)
    ensures Covers(ivs, t)
  {
    var m :| 0 <= m < |ivs| && ivs[m] == w;
  }

  /** Each claim lies in an interval of its own rule, inside [lo, hi). */
  lemma ClaimsInOwnRule(s: seq<OnCallRule>, lo: int, hi: int)
    requires AllOcWellFormed(s)
    ensures var cl := Claims(s, lo, hi);
      && Ranked(cl, s)
      && (forall i, t :: 0 <= i < |cl| && Contains(cl[i].span, t) ==> Covers(RuleIntervals(s[cl[i].rank], lo, hi), t))
      && NonEmpty(Spans(cl)) && PairwiseDisjoint(Spans(cl)) && Within(Spans(cl), lo, hi)
  {
    var items := Flatten(Windows(s, lo, hi));
    var cl := Claims(s, lo, hi);
    ItemsOfShift(s, lo, hi);
    OverlaySound(ByStart, items);
    forall i, t | 0 <= i < |cl| && Contains(cl[i].span, t)
      ensures cl[i].rank < |s| && Covers(RuleIntervals(s[cl[i].rank], lo, hi), t) && lo <= t < hi
    {
      var k :| 0 <= k < |items| && items[k].rank == cl[i].rank && Contains(items[k].window, t);
      var r := s[items[k].rank];
      assert r in s;
      WindowCovers(RuleIntervals(r, lo, hi), items[k].window, t);
      RuleIntervalsSpec(r, lo, hi);
    }
    forall i | 0 <= i < |cl| ensures cl[i].rank < |s| && lo <= Spans(cl)[i].lo && Spans(cl)[i].hi <= hi {
      assert Spans(cl)[i] == cl[i].span;
      assert Contains(cl[i].span, cl[i].span.lo) && Contains(cl[i].span, cl[i].span.hi - 1);
    }
  }

  /** No instant of a claim is covered by a rule earlier in `s`. */
  lemma ClaimsYieldToEarlier(s: seq<OnCallRule>, lo: int, hi: int)
    requires AllOcWellFormed(s)
    ensures var cl := Claims(s, lo, hi);
      forall i, j, t :: 0 <= i < |cl| && 0 <= j < |s| && j < cl[i].rank && Contains(cl[i].span, t) ==>
        !Covers(RuleIntervals(s[j], lo, hi), t)
  {
    var items := Flatten(Windows(s, lo, hi));
    var cl := Claims(s, lo, hi);
    ItemsOfShift(s, lo, hi);
    OverlaySound(ByStart, items);
    forall i, j, t | 0 <= i < |cl| && 0 <= j < |s| && j < cl[i].rank && Contains(cl[i].span, t)
      ensures !Covers(RuleIntervals(s[j], lo, hi), t)
    {
      forall m | 0 <= m < |RuleIntervals(s[j], lo, hi)| ensures !Contains(RuleIntervals(s[j], lo, hi)[m], t) {
        var w := RuleIntervals(s[j], lo, hi)[m];
        assert Item(j, w) in items;
      }
    }
  }

  /** Every instant that some rule's intervals cover is claimed. */
  lemma ClaimsComplete(s: seq<OnCallRule>, lo: int, hi: int)
    requires AllOcWellFormed(s)
    ensures forall j, t :: 0 <= j < |s| && Covers(RuleIntervals(s[j], lo, hi), t) ==> Covers(Spans(Claims(s, lo, hi)), t)
  {
    var items := Flatten(Windows(s, lo, hi));
    ItemsOfShift(s, lo, hi);
    OverlaySound(ByStart, items);
    forall j, t | 0 <= j < |s| && Covers(RuleIntervals(s[j], lo, hi), t)
      ensures Covers(Spans(Claims(s, lo, hi)), t)
    {
      var m :| 0 <= m < |RuleIntervals(s[j], lo, hi)| && Contains(RuleIntervals(s[j], lo, hi)[m], t);
      var w := RuleIntervals(s[j], lo, hi)[m];
      assert Item(j, w) in items;
      var k2 :| 0 <= k2 < |items| && items[k2] == Item(j, w);
    }
  }

  // ---------------------------------------------------------------------
  // The breakdown and the segments
  // ---------------------------------------------------------------------

  /** The rules divide by their rate; a rate of 0 raises ZeroDivisionError. */
  predicate RatesSet(rules: seq<OnCallRule>)
  {
    forall r :: r in rules ==> r.rate != 0
  }

  /** One value of the `breakdown` dict: its key `code`, its seconds, the rate and label of the first rule credited, its pay. */
  datatype Entry = Entry(code: string, seconds: int, rate: int, pay: real, name: string)

  /** One element of `segments`. */
  datatype Segment = Segment(start: int, end: int, seconds: int, code: string, rate: int, pay: real)

  /** `(monthly_salary / rate) * hours` for `secs` seconds. */
  function PiecePay(salary: int, rate: int, secs: int): real
    requires rate != 0
  {
    (salary as real / rate as real) * (secs as real / 3600.0)
  }

  /** The position of the entry for `code`. */
  function FindCode(bd: seq<Entry>, code: string): (r: Option<nat>)
    ensures r.Some? ==> r.value < |bd| && bd[r.value].code == code
    ensures r.None? ==> forall i :: 0 <= i < |bd| ==> bd[i].code != code
    decreases |bd|
  {
    if bd == [] then None
    else if bd[|bd| - 1].code == code then Some(|bd| - 1)
    else FindCode(bd[..|bd| - 1], code)
  }

  predicate DistinctCodes(bd: seq<Entry>)
  {
    forall i, j :: 0 <= i < j < |bd| ==> bd[i].code != bd[j].code
  }

  /**
   * Crediting `secs` seconds and `pay` to the rule's code: a code not yet
   * present gets an entry with the rule's rate and label; an existing entry
   * keeps its rate and label and adds the seconds and pay.
   */
  function Credit(bd: seq<Entry>, r: OnCallRule, secs: int, pay: real): seq<Entry>
  {
    match FindCode(bd, r.code)
    case Some(i) => bd[i := bd[i].(seconds := bd[i].seconds + secs, pay := bd[i].pay + pay)]
    case None => bd + [Entry(r.code, secs, r.rate, pay, r.name)]
  }

  ghost predicate HasCode(bd: seq<Entry>, c: string)
  {
    exists i :: 0 <= i < |bd| && bd[i].code == c
  }

  /** Crediting keeps one entry per code and adds the rule's code to the codes present. */
  lemma CreditCodes(bd: seq<Entry>, r: OnCallRule, secs: int, pay: real)
    ensures DistinctCodes(bd) ==> DistinctCodes(Credit(bd, r, secs, pay))
    ensures forall c :: HasCode(Credit(bd, r, secs, pay), c) <==> c == r.code || HasCode(bd, c)
  {
    var bd' := Credit(bd, r, secs, pay);
    match FindCode(bd, r.code)
    case Some(i) =>
      assert forall j :: 0 <= j < |bd| ==> bd'[j].code == bd[j].code;
    case None =>
      assert forall j :: 0 <= j < |bd| ==> bd'[j] == bd[j];
      assert bd'[|bd|].code == r.code;
  }

  function Seconds(e: Entry): int { e.seconds }
  function Pay(e: Entry): real { e.pay }
  function RateSeconds(e: Entry): int { e.rate * e.seconds }

  function SumInt(bd: seq<Entry>, f: Entry -> int): int
    decreases |bd|
  {
    if bd == [] then 0 else SumInt(bd[..|bd| - 1], f) + f(bd[|bd| - 1])
  }

  function SumReal(bd: seq<Entry>, f: Entry -> real): real
    decreases |bd|
  {
    if bd == [] then 0.0 else SumReal(bd[..|bd| - 1], f) + f(bd[|bd| - 1])
  }

  lemma {:induction false} SumIntUpdate(bd: seq<Entry>, i: nat, e: Entry, f: Entry -> int)
    requires i < |bd|
    ensures SumInt(bd[i := e], f) == SumInt(bd, f) - f(bd[i]) + f(e)
    decreases |bd|
  {
    var n := |bd| - 1;
    if i < n {
      assert bd[i := e][..n] == bd[..n][i := e];
      SumIntUpdate(bd[..n], i, e, f);
    } else {
      assert bd[i := e][..n] == bd[..n];
    }
  }

  lemma {:induction false} SumRealUpdate(bd: seq<Entry>, i: nat, e: Entry, f: Entry -> real)
    requires i < |bd|
    ensures SumReal(bd[i := e], f) == SumReal(bd, f) - f(bd[i]) + f(e)
    decreases |bd|
  {
    var n := |bd| - 1;
    if i < n {
      assert bd[i := e][..n] == bd[..n][i := e];
      SumRealUpdate(bd[..n], i, e, f);
    } else {
      assert bd[i := e][..n] == bd[..n];
    }
  }

  lemma SumIntSnoc(bd: seq<Entry>, e: Entry, f: Entry -> int)
    ensures SumInt(bd + [e], f) == SumInt(bd, f) + f(e)
  {
    assert (bd + [e])[..|bd|] == bd;
  }

  lemma SumRealSnoc(bd: seq<Entry>, e: Entry, f: Entry -> real)
    ensures SumReal(bd + [e], f) == SumReal(bd, f) + f(e)
  {
    assert (bd + [e])[..|bd|] == bd;
  }

  /** Crediting adds the piece's seconds and pay to the totals. */
  lemma CreditTotals(bd: seq<Entry>, r: OnCallRule, secs: int, pay: real)
    ensures SumInt(Credit(bd, r, secs, pay), Seconds) == SumInt(bd, Seconds) + secs
    ensures SumReal(Credit(bd, r, secs, pay), Pay) == SumReal(bd, Pay) + pay
  {
    var found := FindCode(bd, r.code);
    if found.Some? {
      var i := found.value;
      var e := bd[i].(seconds := bd[i].seconds + secs, pay := bd[i].pay + pay);
      assert Credit(bd, r, secs, pay) == bd[i := e];
      SumIntUpdate(bd, i, e, Seconds);
      SumRealUpdate(bd, i, e, Pay);
    } else {
      var e := Entry(r.code, secs, r.rate, pay, r.name);
      assert Credit(bd, r, secs, pay) == bd + [e];
      SumIntSnoc(bd, e, Seconds);
      SumRealSnoc(bd, e, Pay);
    }
  }

  /** What one claim earns: its rule's pay for its length. */
  function ClaimPay(c: Claim, s: seq<OnCallRule>, salary: int): real
    requires c.rank < |s| && RatesSet(s)
  {
    assert s[c.rank] in s;
    PiecePay(salary, s[c.rank].rate, Length(c.span))
  }

  /** The breakdown after crediting the claims `cl` in order. */
  function Breakdown(cl: seq<Claim>, s: seq<OnCallRule>, salary: int): seq<Entry>
    requires Ranked(cl, s) && RatesSet(s)
    decreases |cl|
  {
    if cl == [] then []
    else
      var n := |cl| - 1;
      var c := cl[n];
      Credit(Breakdown(cl[..n], s, salary), s[c.rank], Length(c.span), ClaimPay(c, s, salary))
  }

  function SegmentOf(c: Claim, s: seq<OnCallRule>, salary: int): Segment
    requires c.rank < |s| && RatesSet(s)
  {
    Segment(c.span.lo, c.span.hi, Length(c.span), s[c.rank].code, s[c.rank].rate, ClaimPay(c, s, salary))
  }

  /** The segments in the order the claims were made. */
  function RawSegments(cl: seq<Claim>, s: seq<OnCallRule>, salary: int): (segs: seq<Segment>)
    requires Ranked(cl, s) && RatesSet(s)
    ensures |segs| == |cl| && forall i :: 0 <= i < |cl| ==> segs[i] == SegmentOf(cl[i], s, salary)
  {
    seq(|cl|, i requires 0 <= i < |cl| && Ranked(cl, s) && RatesSet(s) => SegmentOf(cl[i], s, salary))
  }

  function SegmentPaySum(segs: seq<Segment>): real
    decreases |segs|
  {
    if segs == [] then 0.0 else SegmentPaySum(segs[..|segs| - 1]) + segs[|segs| - 1].pay
  }

  function SegmentSecondsSum(segs: seq<Segment>): int
    decreases |segs|
  {
    if segs == [] then 0 else SegmentSecondsSum(segs[..|segs| - 1]) + segs[|segs| - 1].seconds
  }

  /** One entry per code. */
  lemma {:induction false} BreakdownCodes(cl: seq<Claim>, s: seq<OnCallRule>, salary: int)
    requires Ranked(cl, s) && RatesSet(s)
    ensures DistinctCodes(Breakdown(cl, s, salary))
    decreases |cl|
  {
    if cl != [] {
      var n := |cl| - 1;
      var c := cl[n];
      BreakdownCodes(cl[..n], s, salary);
      CreditCodes(Breakdown(cl[..n], s, salary), s[c.rank], Length(c.span), ClaimPay(c, s, salary));
    }
  }

  /** The breakdown's seconds add up to the claims' lengths. */
  lemma {:induction false} BreakdownSeconds(cl: seq<Claim>, s: seq<OnCallRule>, salary: int)
    requires Ranked(cl, s) && RatesSet(s)
    ensures SumInt(Breakdown(cl, s, salary), Seconds) == SumLengths(Spans(cl))
    decreases |cl|
  {
    if cl != [] {
      var n := |cl| - 1;
      var c := cl[n];
      BreakdownSeconds(cl[..n], s, salary);
      CreditTotals(Breakdown(cl[..n], s, salary), s[c.rank], Length(c.span), ClaimPay(c, s, salary));
      SpansSnoc(cl);
      SumLengthsAppend(Spans(cl[..n]), [c.span]);
    }
  }

  lemma SpansSnoc(cl: seq<Claim>)
    requires cl != []
    ensures Spans(cl) == Spans(cl[..|cl| - 1]) + [cl[|cl| - 1].span]
  {
  }

  /** The breakdown's seconds and pay add up to the segments' seconds and pay. */
  lemma {:induction false} BreakdownMatchesSegments(cl: seq<Claim>, s: seq<OnCallRule>, salary: int)
    requires Ranked(cl, s) && RatesSet(s)
    ensures SumInt(Breakdown(cl, s, salary), Seconds) == SegmentSecondsSum(RawSegments(cl, s, salary))
    ensures SumReal(Breakdown(cl, s, salary), Pay) == SegmentPaySum(RawSegments(cl, s, salary))
    decreases |cl|
  {
    if cl != [] {
      var n := |cl| - 1;
      var c := cl[n];
      BreakdownMatchesSegments(cl[..n], s, salary);
      CreditTotals(Breakdown(cl[..n], s, salary), s[c.rank], Length(c.span), ClaimPay(c, s, salary));
      var segs := RawSegments(cl, s, salary);
      RawSegmentsPrefix(cl, s, salary, n);
      assert segs[n] == SegmentOf(c, s, salary);
      assert SegmentSecondsSum(segs) == SegmentSecondsSum(segs[..n]) + segs[n].seconds;
      assert SegmentPaySum(segs) == SegmentPaySum(segs[..n]) + segs[n].pay;
    }
  }

  lemma RawSegmentsPrefix(cl: seq<Claim>, s: seq<OnCallRule>, salary: int, n: int)
    requires Ranked(cl, s) && RatesSet(s) && 0 <= n <= |cl|
    ensures Ranked(cl[..n], s)
    ensures RawSegments(cl, s, salary)[..n] == RawSegments(cl[..n], s, salary)
  {
    assert Ranked(cl[..n], s) by {
      forall i | 0 <= i < n ensures cl[..n][i].rank < |s| {
        assert cl[..n][i] == cl[i];
      }
    }
    var a := RawSegments(cl, s, salary)[..n];
    var b := RawSegments(cl[..n], s, salary);
    forall i | 0 <= i < n ensures a[i] == b[i] {
      assert cl[..n][i] == cl[i];
    }
  }

  /** Every entry carries the code, rate and label of a rule of `s`. */
  ghost predicate FromRule(e: Entry, s: seq<OnCallRule>)
  {
    exists r :: r in s && r.code == e.code && r.rate == e.rate && r.name == e.name
  }

  lemma {:induction false} BreakdownFromRules(cl: seq<Claim>, s: seq<OnCallRule>, salary: int)
    requires Ranked(cl, s) && RatesSet(s)
    ensures forall i :: 0 <= i < |Breakdown(cl, s, salary)| ==> FromRule(Breakdown(cl, s, salary)[i], s)
    decreases |cl|
  {
    if cl != [] {
      var n := |cl| - 1;
      var c := cl[n];
      var before := Breakdown(cl[..n], s, salary);
      BreakdownFromRules(cl[..n], s, salary);
      var bd := Breakdown(cl, s, salary);
      forall i | 0 <= i < |bd| ensures FromRule(bd[i], s) {
        if i < |before| {
          assert bd[i].code == before[i].code && bd[i].rate == before[i].rate && bd[i].name == before[i].name;
          var r :| r in s && r.code == before[i].code && r.rate == before[i].rate && r.name == before[i].name;
        } else {
          assert bd[i] == Entry(s[c.rank].code, Length(c.span), s[c.rank].rate, ClaimPay(c, s, salary), s[c.rank].name);
          assert s[c.rank] in s;
        }
      }
    }
  }

  // ---------------------------------------------------------------------
  // `calculate_oncall_pay`: one shift from 00:00 to 00:00 the next day
  // ---------------------------------------------------------------------

  /** The result of `calculate_oncall_pay`; hours are kept as seconds. */
  datatype DayPay = DayPay(
    date: Date,
    totalPay: real,
    totalSeconds: int,
    effectiveRate: real,
    breakdown: seq<Entry>,
    segments: seq<Segment>)

  /** Segments are sorted ascending by start: descending by the negated start. */
  function NegStart(g: Segment): int
  {
    -g.start
  }

  function SortSegments(segs: seq<Segment>): seq<Segment>
  {
    SortDesc(segs, NegStart)
  }

  /** The weighted average of the rates, weighted by seconds; 0 when nothing is paid. */
  function EffectiveRate(bd: seq<Entry>): real
  {
    var secs := SumInt(bd, Seconds);
    if secs > 0 then SumInt(bd, RateSeconds) as real / secs as real else 0.0
  }

  lemma SortedRulesOk(rules: seq<OnCallRule>)
    requires AllOcWellFormed(rules)
    ensures AllOcWellFormed(SortByPriority(rules))
    ensures RatesSet(rules) ==> RatesSet(SortByPriority(rules))
  {
  }

  function DayStart(date: Date): int
  {
    At(date, 0)
  }

  function DayEnd(date: Date): int
  {
    At(date + 1, 0)
  }

  /** The claims of the shift on `date`. */
  function DayClaims(date: Date, rules: seq<OnCallRule>): seq<Claim>
    requires AllOcWellFormed(rules)
  {
    SortedRulesOk(rules);
    Claims(SortByPriority(rules), DayStart(date), DayEnd(date))
  }

  /** The totals and segments of a shift, from its claims `cl` under the sorted rules `s`. */
  function Tally(date: Date, cl: seq<Claim>, s: seq<OnCallRule>, salary: int): DayPay
    requires Ranked(cl, s) && RatesSet(s)
  {
    var bd := Breakdown(cl, s, salary);
    DayPay(date, SumReal(bd, Pay), SumInt(bd, Seconds), EffectiveRate(bd), bd, SortSegments(RawSegments(cl, s, salary)))
  }

  function OncallDay(date: Date, salary: int, rules: seq<OnCallRule>): DayPay
    requires AllOcWellFormed(rules) && RatesSet(rules)
  {
    var s := SortByPriority(rules);
    SortedRulesOk(rules);
    ClaimsInOwnRule(s, DayStart(date), DayEnd(date));
    Tally(date, DayClaims(date, rules), s, salary)
  }

  /** `oncall_rules=None`: the rules of the date's year are built from the base rules. */
  function OncallDayDefault(date: Date, salary: int, rules: Option<seq<OnCallRule>>, base: seq<OnCallRule>): DayPay
    requires AllOcWellFormed(base) && RatesSet(base)
    requires rules.Some? ==> AllOcWellFormed(rules.value) && RatesSet(rules.value)
  {
    match rules
    case Some(rs) => OncallDay(date, salary, rs)
    case None =>
      GeneratedRulesOk(base, YearOf(date));
      OncallDay(date, salary, OncallRulesForYear(base, YearOf(date)))
  }

  /** The rules built for a year are well formed and have non-zero rates when the base rules do. */
  lemma GeneratedRulesOk(base: seq<OnCallRule>, year: int)
    requires AllOcWellFormed(base) && RatesSet(base)
    ensures AllOcWellFormed(OncallRulesForYear(base, year)) && RatesSet(OncallRulesForYear(base, year))
  {
    var f := FeastsOf(year);
    AssembledOk(base, f, HolidaySet(f), StorhelgSet(f));
  }

  lemma AssembledOk(base: seq<OnCallRule>, f: Feasts, holidays: set<Date>, storhelg: set<Date>)
    requires AllOcWellFormed(base) && RatesSet(base)
    ensures AllOcWellFormed(Assemble(base, f, holidays, storhelg)) && RatesSet(Assemble(base, f, holidays, storhelg))
  {
    var rs := Assemble(base, f, holidays, storhelg);
    AssembleSpec(base, f, holidays, storhelg);
    forall i | 0 <= i < |rs| ensures OcWellFormed(rs[i]) && rs[i].rate != 0 {
      if i < |base| {
        assert rs[i] == base[i] && base[i] in base;
      } else {
        GeneratedOk(rs[i], f, holidays, storhelg);
      }
    }
  }

  lemma GeneratedOk(x: OnCallRule, f: Feasts, holidays: set<Date>, storhelg: set<Date>)
    requires Generated(x, f, holidays, storhelg)
    ensures OcWellFormed(x) && x.rate != 0
  {
    var d :| (d in storhelg && x == SpecialRule(d, f))
      || (d in holidays - storhelg && (x == HolidayRule(d) || (x == EveRule(d - 1) && EveEligible(d, holidays, storhelg))));
  }

  // ---------------------------------------------------------------------
  // The loops of `calculate_oncall_pay`
  // ---------------------------------------------------------------------

  /** The loop state follows the claims `cl`: what is covered, the breakdown and the segments. */
  ghost predicate Follows(cl: seq<Claim>, s: seq<OnCallRule>, salary: int, covered: seq<Interval>, bd: seq<Entry>, segs: seq<Segment>)
  {
    && RatesSet(s) && Ranked(cl, s)
    && covered == Spans(cl) && WellFormed(covered)
    && bd == Breakdown(cl, s, salary)
    && segs == RawSegments(cl, s, salary)
  }

  lemma FollowsStep(cl: seq<Claim>, s: seq<OnCallRule>, salary: int, covered: seq<Interval>, bd: seq<Entry>, segs: seq<Segment>, c: Claim)
    requires Follows(cl, s, salary, covered, bd, segs) && c.rank < |s| && c.span.lo <= c.span.hi
    ensures Follows(cl + [c], s, salary, covered + [c.span],
      Credit(bd, s[c.rank], Length(c.span), ClaimPay(c, s, salary)), segs + [SegmentOf(c, s, salary)])
  {
    var cl' := cl + [c];
    assert cl'[..|cl|] == cl;
    assert Ranked(cl', s);
    SpansSnoc(cl');
    BreakdownSnoc(cl', s, salary);
    RawSegmentsSnoc(cl', s, salary);
  }

  lemma BreakdownSnoc(cl: seq<Claim>, s: seq<OnCallRule>, salary: int)
    requires cl != [] && Ranked(cl, s) && RatesSet(s)
    ensures var n := |cl| - 1;
      Breakdown(cl, s, salary) == Credit(Breakdown(cl[..n], s, salary), s[cl[n].rank], Length(cl[n].span), ClaimPay(cl[n], s, salary))
  {
  }

  lemma RawSegmentsSnoc(cl: seq<Claim>, s: seq<OnCallRule>, salary: int)
    requires cl != [] && Ranked(cl, s) && RatesSet(s)
    ensures var n := |cl| - 1;
      RawSegments(cl, s, salary) == RawSegments(cl[..n], s, salary) + [SegmentOf(cl[n], s, salary)]
  {
  }

  /** `breakdown[rule.code]` is created on first use, then its hours and pay are increased. */
  method CreditEntry(bd: seq<Entry>, rule: OnCallRule, secs: int, pay: real) returns (bd': seq<Entry>)
    ensures bd' == Credit(bd, rule, secs, pay)
  {
    var found := FindCode(bd, rule.code);
    if found.None? {
      bd' := bd + [Entry(rule.code, 0, rule.rate, 0.0, rule.name)];
      var i := |bd'| - 1;
      bd' := bd'[i := bd'[i].(seconds := bd'[i].seconds + secs, pay := bd'[i].pay + pay)];
    } else {
      var i := found.value;
      bd' := bd[i := bd[i].(seconds := bd[i].seconds + secs, pay := bd[i].pay + pay)];
    }
  }

  /** The `for unc_start, unc_end in uncovered` loop: each piece is paid to rule `k` and marked covered. */
  method CreditPieces(s: seq<OnCallRule>, k: nat, pieces: seq<Interval>, salary: int,
                      covered: seq<Interval>, bd: seq<Entry>, segs: seq<Segment>, ghost cl: seq<Claim>)
    returns (covered': seq<Interval>, bd': seq<Entry>, segs': seq<Segment>, ghost cl': seq<Claim>)
    requires Follows(cl, s, salary, covered, bd, segs) && k < |s| && NonEmpty(pieces)
    ensures cl' == cl + Tag(k, pieces)
    ensures Follows(cl', s, salary, covered', bd', segs')
  {
    covered', bd', segs', cl' := covered, bd, segs, cl;
    for m := 0 to |pieces|
      invariant cl' == cl + Tag(k, pieces[..m])
      invariant Follows(cl', s, salary, covered', bd', segs')
    {
      TagPrefixSnoc(cl, k, pieces, m);
      covered', bd', segs', cl' := CreditPiece(s, k, pieces[m], salary, covered', bd', segs', cl');
    }
    assert pieces[..|pieces|] == pieces;
  }

  /** One uncovered piece: its seconds and pay are credited to rule `k`, a segment is recorded, and it is marked covered. */
  method CreditPiece(s: seq<OnCallRule>, k: nat, unc: Interval, salary: int,
                     covered: seq<Interval>, bd: seq<Entry>, segs: seq<Segment>, ghost cl: seq<Claim>)
    returns (covered': seq<Interval>, bd': seq<Entry>, segs': seq<Segment>, ghost cl': seq<Claim>)
    requires Follows(cl, s, salary, covered, bd, segs) && k < |s| && unc.lo < unc.hi
    ensures cl' == cl + [Claim(k, unc)]
    ensures Follows(cl', s, salary, covered', bd', segs')
  {
    covered', bd', segs', cl' := covered, bd, segs, cl + [Claim(k, unc)];
    var rule := s[k];
    var secs := unc.hi - unc.lo;
    if secs > 0 {
      var segmentPay := PiecePay(salary, rule.rate, secs);
      ghost var c := Claim(k, unc);
      assert segmentPay == ClaimPay(c, s, salary);
      assert Segment(unc.lo, unc.hi, secs, rule.code, rule.rate, segmentPay) == SegmentOf(c, s, salary);
      FollowsStep(cl, s, salary, covered, bd, segs, c);
      bd' := CreditEntry(bd, rule, secs, segmentPay);
      segs' := segs + [Segment(unc.lo, unc.hi, secs, rule.code, rule.rate, segmentPay)];
      covered' := covered + [unc];
    } else {
      assert false;
    }
  }

  /** One pass of `for rule in sorted_rules`: the rule's intervals, each minus what is covered, are paid to it. */
  method ClaimRule(s: seq<OnCallRule>, k: nat, lo: int, hi: int, salary: int,
                   covered: seq<Interval>, bd: seq<Entry>, segs: seq<Segment>, ghost cl: seq<Claim>)
    returns (covered': seq<Interval>, bd': seq<Entry>, segs': seq<Segment>, ghost cl': seq<Claim>)
    requires AllOcWellFormed(s) && k < |s|
    requires Follows(cl, s, salary, covered, bd, segs)
    requires cl == Overlay(ByStart, Flatten(Windows(s, lo, hi)[..k]))
    ensures Follows(cl', s, salary, covered', bd', segs')
    ensures cl' == Overlay(ByStart, Flatten(Windows(s, lo, hi)[..k + 1]))
  {
    assert s[k] in s;
    var intervals := GetRuleIntervalsForShift(s[k], lo, hi);
    RuleIntervalsSpec(s[k], lo, hi);
    ghost var before := Flatten(Windows(s, lo, hi)[..k]);
    assert before + Items(k, intervals[..0]) == before;
    covered', bd', segs', cl' := covered, bd, segs, cl;
    for j := 0 to |intervals|
      invariant cl' == Overlay(ByStart, before + Items(k, intervals[..j]))
      invariant Follows(cl', s, salary, covered', bd', segs')
    {
      var iv := intervals[j];
      var uncovered := SubtractCoveredOncall(iv.lo, iv.hi, covered');
      SubtractSpec(ByStart, iv.lo, iv.hi, covered');
      ItemsSnoc(before, k, intervals, j);
      OverlaySnoc(ByStart, before + Items(k, intervals[..j]), Item(k, iv));
      covered', bd', segs', cl' := CreditPieces(s, k, uncovered, salary, covered', bd', segs', cl');
    }
    assert intervals[..|intervals|] == intervals;
    FlattenSnoc(Windows(s, lo, hi), k);
  }

  lemma ItemsSnoc(before: seq<Item>, k: nat, ivs: seq<Interval>, j: int)
    requires 0 <= j < |ivs|
    ensures before + Items(k, ivs[..j + 1]) == (before + Items(k, ivs[..j])) + [Item(k, ivs[j])]
  {
    assert Items(k, ivs[..j + 1]) == Items(k, ivs[..j]) + [Item(k, ivs[j])];
  }

  /**
   * `calculate_oncall_pay`: the shift from 00:00 on `date` to 00:00 the next
   * day, with the given rules or, when none are given, the rules built for
   * the date's year from `base`.
   */
  method CalculateOncallPay(date: Date, salary: int, rules: Option<seq<OnCallRule>>, base: seq<OnCallRule>)
    returns (d: DayPay)
    requires AllOcWellFormed(base) && RatesSet(base)
    requires rules.Some? ==> AllOcWellFormed(rules.value) && RatesSet(rules.value)
    ensures d == OncallDayDefault(date, salary, rules, base)
  {
    var shiftStart := At(date, 0);
    var shiftEnd := At(date + 1, 0);
    var oncallRules: seq<OnCallRule>;
    if rules.None? {
      oncallRules := BuildOncallRulesForYear(base, YearOf(date));
      GeneratedRulesOk(base, YearOf(date));
    } else {
      oncallRules := rules.value;
    }
    var sorted := SortByPriority(oncallRules);
    SortedRulesOk(oncallRules);
    var covered: seq<Interval> := [];
    var breakdown: seq<Entry> := [];
    var segments: seq<Segment> := [];
    ghost var cl: seq<Claim> := [];
    for k := 0 to |sorted|
      invariant Follows(cl, sorted, salary, covered, breakdown, segments)
      invariant cl == Overlay(ByStart, Flatten(Windows(sorted, shiftStart, shiftEnd)[..k]))
    {
      covered, breakdown, segments, cl := ClaimRule(sorted, k, shiftStart, shiftEnd, salary, covered, breakdown, segments, cl);
    }
    assert Windows(sorted, shiftStart, shiftEnd)[..|sorted|] == Windows(sorted, shiftStart, shiftEnd);
    d := DayPay(date, SumReal(breakdown, Pay), SumInt(breakdown, Seconds), EffectiveRate(breakdown), breakdown, SortSegments(segments));
    OncallDayIsTally(date, salary, oncallRules);
  }

  // ---------------------------------------------------------------------
  // Properties of a day's pay
  // ---------------------------------------------------------------------

  /** `t` lies in the intervals of some rule. */
  ghost predicate CoveredBySome(rules: seq<OnCallRule>, lo: int, hi: int, t: int)
    requires AllOcWellFormed(rules)
  {
    exists r :: r in rules && Covers(RuleIntervals(r, lo, hi), t)
  }

  /** A day's pay is the tally of the claims of its rules in priority order. */
  lemma OncallDayIsTally(date: Date, salary: int, rules: seq<OnCallRule>)
    requires AllOcWellFormed(rules) && RatesSet(rules)
    ensures var s := SortByPriority(rules);
      && AllOcWellFormed(s) && RatesSet(s) && Ranked(Claims(s, DayStart(date), DayEnd(date)), s)
      && OncallDay(date, salary, rules) == Tally(date, Claims(s, DayStart(date), DayEnd(date)), s, salary)
  {
    SortedRulesOk(rules);
    ClaimsInOwnRule(SortByPriority(rules), DayStart(date), DayEnd(date));
  }

  /**
   * The totals of a shift: at most 24 hours are paid, one breakdown entry per
   * code, each with the code, rate and label of one of the rules, and the
   * breakdown's seconds and pay are those of the segments.
   */
  lemma OncallDayTotals(date: Date, salary: int, rules: seq<OnCallRule>)
    requires AllOcWellFormed(rules) && RatesSet(rules)
    ensures var d := OncallDay(date, salary, rules);
      && d.date == date
      && 0 <= d.totalSeconds <= SecondsPerDay
      && d.totalSeconds == SegmentSecondsSum(d.segments)
      && d.totalPay == SegmentPaySum(d.segments)
      && DistinctCodes(d.breakdown)
      && (forall i :: 0 <= i < |d.breakdown| ==> FromRule(d.breakdown[i], rules))
  {
    var s := SortByPriority(rules);
    var lo, hi := DayStart(date), DayEnd(date);
    OncallDayIsTally(date, salary, rules);
    TallyTotals(date, s, lo, hi, salary);
    var bd := Breakdown(Claims(s, lo, hi), s, salary);
    forall i | 0 <= i < |bd| ensures FromRule(bd[i], rules) {
      var r :| r in s && r.code == bd[i].code && r.rate == bd[i].rate && r.name == bd[i].name;
      assert r in rules;
    }
  }

  lemma TallyTotals(date: Date, s: seq<OnCallRule>, lo: int, hi: int, salary: int)
    requires AllOcWellFormed(s) && RatesSet(s) && lo <= hi
    ensures Ranked(Claims(s, lo, hi), s)
    ensures var d := Tally(date, Claims(s, lo, hi), s, salary);
      && 0 <= d.totalSeconds <= hi - lo
      && d.totalSeconds == SegmentSecondsSum(d.segments)
      && d.totalPay == SegmentPaySum(d.segments)
      && DistinctCodes(d.breakdown)
      && (forall i :: 0 <= i < |d.breakdown| ==> FromRule(d.breakdown[i], s))
  {
    ClaimsInOwnRule(s, lo, hi);
    var cl := Claims(s, lo, hi);
    var raw := RawSegments(cl, s, salary);
    BreakdownCodes(cl, s, salary);
    BreakdownSeconds(cl, s, salary);
    BreakdownMatchesSegments(cl, s, salary);
    BreakdownFromRules(cl, s, salary);
    DisjointLengthBound(Spans(cl), lo, hi);
    SegmentSumsPermutation(raw, SortSegments(raw));
  }

  /** When the rules hold every instant of the day, the whole 24 hours are paid. */
  lemma OncallDayFullCover(date: Date, salary: int, rules: seq<OnCallRule>)
    requires AllOcWellFormed(rules) && RatesSet(rules)
    requires forall t :: DayStart(date) <= t < DayEnd(date) ==> CoveredBySome(rules, DayStart(date), DayEnd(date), t)
    ensures OncallDay(date, salary, rules).totalSeconds == SecondsPerDay
  {
    var s := SortByPriority(rules);
    var lo, hi := DayStart(date), DayEnd(date);
    OncallDayIsTally(date, salary, rules);
    FullClaims(rules, lo, hi);
    BreakdownSeconds(Claims(s, lo, hi), s, salary);
  }

  /** When the rules hold every instant of [lo, hi), the claims' lengths add up to `hi - lo`. */
  lemma FullClaims(rules: seq<OnCallRule>, lo: int, hi: int)
    requires AllOcWellFormed(rules) && lo <= hi
    requires forall t :: lo <= t < hi ==> CoveredBySome(rules, lo, hi, t)
    ensures SumLengths(Spans(Claims(SortByPriority(rules), lo, hi))) == hi - lo
  {
    var s := SortByPriority(rules);
    SortedRulesOk(rules);
    ClaimsInOwnRule(s, lo, hi);
    ClaimedInstants(rules, lo, hi);
    FullCoverLength(Spans(Claims(s, lo, hi)), lo, hi);
  }

  /** Rule `r` of `rules` pays segment `g`: its code and rate, its window holds all of `g`, and no rule of higher priority holds any of it. */
  ghost predicate PaidBy(g: Segment, r: OnCallRule, rules: seq<OnCallRule>, lo: int, hi: int)
    requires AllOcWellFormed(rules) && r in rules
  {
    && r.code == g.code && r.rate == g.rate
    && (forall t :: g.start <= t < g.end ==> Covers(RuleIntervals(r, lo, hi), t))
    && (forall q, t :: q in rules && q.priority > r.priority && g.start <= t < g.end ==> !Covers(RuleIntervals(q, lo, hi), t))
  }

  ghost predicate PaidByWinner(g: Segment, rules: seq<OnCallRule>, lo: int, hi: int)
    requires AllOcWellFormed(rules)
  {
    exists r :: r in rules && PaidBy(g, r, rules, lo, hi)
  }

  /** A non-empty piece of [lo, hi), paid `(salary / rate) * hours` by the rule of highest priority that holds it. */
  ghost predicate GoodSegment(g: Segment, salary: int, rules: seq<OnCallRule>, lo: int, hi: int)
    requires AllOcWellFormed(rules)
  {
    && lo <= g.start < g.end <= hi
    && g.seconds == g.end - g.start
    && g.rate != 0 && g.pay == PiecePay(salary, g.rate, g.seconds)
    && PaidByWinner(g, rules, lo, hi)
  }

  predicate SegmentsOrdered(segs: seq<Segment>)
  {
    forall i, j :: 0 <= i < j < |segs| ==> segs[i].end <= segs[j].start
  }

  /** `t` is in one of the segments. */
  ghost predicate InSegment(segs: seq<Segment>, t: int)
  {
    exists i :: 0 <= i < |segs| && segs[i].start <= t < segs[i].end
  }

  /** In a list sorted by descending priority, a higher priority comes earlier. */
  lemma HigherPriorityEarlier(s: seq<OnCallRule>, a: int, b: int)
    requires SortedDesc(s, OcPriority) && 0 <= a < |s| && 0 <= b < |s| && s[a].priority > s[b].priority
    ensures a < b
  {
    assert b <= a ==> OcPriority(s[b]) >= OcPriority(s[a]);
  }

  /** The segment of claim `i` of a day is a good segment. */
  lemma ClaimSegmentGood(rules: seq<OnCallRule>, lo: int, hi: int, salary: int, i: int)
    requires AllOcWellFormed(rules) && RatesSet(rules)
    requires 0 <= i < |Claims(SortByPriority(rules), lo, hi)|
    ensures var s := SortByPriority(rules);
      RatesSet(s) && Ranked(Claims(s, lo, hi), s) &&
      GoodSegment(SegmentOf(Claims(s, lo, hi)[i], s, salary), salary, rules, lo, hi)
  {
    var s := SortByPriority(rules);
    SortedRulesOk(rules);
    SortByPriorityOrder(rules);
    ClaimsInOwnRule(s, lo, hi);
    ClaimsYieldToEarlier(s, lo, hi);
    var cl := Claims(s, lo, hi);
    var c := cl[i];
    var r := s[c.rank];
    assert r in rules;
    var g := SegmentOf(c, s, salary);
    assert Spans(cl)[i] == c.span;
    forall t | g.start <= t < g.end ensures Covers(RuleIntervals(r, lo, hi), t) {
      assert Contains(c.span, t);
    }
    forall q, t | q in rules && q.priority > r.priority && g.start <= t < g.end
      ensures !Covers(RuleIntervals(q, lo, hi), t)
    {
      assert q in s;
      var j :| 0 <= j < |s| && s[j] == q;
      HigherPriorityEarlier(s, j, c.rank);
      assert Contains(c.span, t);
    }
    assert PaidBy(g, r, rules, lo, hi);
  }

  /** Two segments share no instant. */
  predicate Apart(g: Segment, h: Segment)
  {
    g.end <= h.start || h.end <= g.start
  }

  /** The segments of the claims, in claim order, are good and pairwise apart. */
  lemma RawSegmentsGood(rules: seq<OnCallRule>, lo: int, hi: int, salary: int)
    requires AllOcWellFormed(rules) && RatesSet(rules)
    ensures var s := SortByPriority(rules);
      && RatesSet(s) && Ranked(Claims(s, lo, hi), s)
      && var raw := RawSegments(Claims(s, lo, hi), s, salary);
      && (forall i :: 0 <= i < |raw| ==> GoodSegment(raw[i], salary, rules, lo, hi))
      && (forall i, j :: 0 <= i < j < |raw| ==> Apart(raw[i], raw[j]))
  {
    var s := SortByPriority(rules);
    SortedRulesOk(rules);
    ClaimsInOwnRule(s, lo, hi);
    var cl := Claims(s, lo, hi);
    var raw := RawSegments(cl, s, salary);
    forall i | 0 <= i < |raw| ensures GoodSegment(raw[i], salary, rules, lo, hi) {
      ClaimSegmentGood(rules, lo, hi, salary, i);
    }
    forall i, j | 0 <= i < j < |raw| ensures Apart(raw[i], raw[j]) {
      var t := Max(raw[i].start, raw[j].start);
      assert Spans(cl)[i] == cl[i].span && Spans(cl)[j] == cl[j].span;
      assert !(Contains(cl[i].span, t) && Contains(cl[j].span, t));
    }
  }

  /**
   * The segments of a shift are sorted by start and do not overlap; each
   * is a good segment: inside the day and paid by the rule of highest
   * priority that holds it.
   */
  lemma OncallDaySegments(date: Date, salary: int, rules: seq<OnCallRule>)
    requires AllOcWellFormed(rules) && RatesSet(rules)
    ensures var d := OncallDay(date, salary, rules);
      && SegmentsOrdered(d.segments)
      && forall i :: 0 <= i < |d.segments| ==> GoodSegment(d.segments[i], salary, rules, DayStart(date), DayEnd(date))
  {
    var s := SortByPriority(rules);
    var lo, hi := DayStart(date), DayEnd(date);
    OncallDayIsTally(date, salary, rules);
    RawSegmentsGood(rules, lo, hi, salary);
    GoodAfterSort(RawSegments(Claims(s, lo, hi), s, salary), salary, rules, lo, hi);
  }

  /** Sorting keeps good, pairwise apart segments good, and puts them in time order. */
  lemma GoodAfterSort(raw: seq<Segment>, salary: int, rules: seq<OnCallRule>, lo: int, hi: int)
    requires AllOcWellFormed(rules)
    requires forall i :: 0 <= i < |raw| ==> GoodSegment(raw[i], salary, rules, lo, hi)
    requires forall i, j :: 0 <= i < j < |raw| ==> Apart(raw[i], raw[j])
    ensures SegmentsOrdered(SortSegments(raw))
    ensures forall k :: 0 <= k < |SortSegments(raw)| ==> GoodSegment(SortSegments(raw)[k], salary, rules, lo, hi)
  {
    SortedSegments(raw);
    var segs := SortSegments(raw);
    forall k | 0 <= k < |segs| ensures GoodSegment(segs[k], salary, rules, lo, hi) {
      assert segs[k] in multiset(raw);
      var i :| 0 <= i < |raw| && raw[i] == segs[k];
    }
  }

  /** Every instant that some rule holds lies in a segment: nothing a rule holds goes unpaid. */
  lemma OncallDayComplete(date: Date, salary: int, rules: seq<OnCallRule>)
    requires AllOcWellFormed(rules) && RatesSet(rules)
    ensures forall t :: CoveredBySome(rules, DayStart(date), DayEnd(date), t) ==> InSegment(OncallDay(date, salary, rules).segments, t)
  {
    var s := SortByPriority(rules);
    var lo, hi := DayStart(date), DayEnd(date);
    OncallDayIsTally(date, salary, rules);
    ClaimedInstants(rules, lo, hi);
    var cl := Claims(s, lo, hi);
    var raw := RawSegments(cl, s, salary);
    var segs := SortSegments(raw);
    forall t | CoveredBySome(rules, lo, hi, t) ensures InSegment(segs, t) {
      var i :| 0 <= i < |Spans(cl)| && Contains(Spans(cl)[i], t);
      assert raw[i] in multiset(segs);
      var k :| 0 <= k < |segs| && segs[k] == raw[i];
    }
  }

  lemma ClaimedInstants(rules: seq<OnCallRule>, lo: int, hi: int)
    requires AllOcWellFormed(rules)
    ensures forall t :: CoveredBySome(rules, lo, hi, t) ==> Covers(Spans(Claims(SortByPriority(rules), lo, hi)), t)
  {
    var s := SortByPriority(rules);
    SortedRulesOk(rules);
    forall t | CoveredBySome(rules, lo, hi, t) ensures Covers(Spans(Claims(s, lo, hi)), t) {
      var r :| r in rules && Covers(RuleIntervals(r, lo, hi), t);
      ClaimedInstant(s, lo, hi, r, t);
    }
  }

  /** An instant in the intervals of one of the rules is claimed. */
  lemma ClaimedInstant(s: seq<OnCallRule>, lo: int, hi: int, r: OnCallRule, t: int)
    requires AllOcWellFormed(s) && r in s && Covers(RuleIntervals(r, lo, hi), t)
    ensures Covers(Spans(Claims(s, lo, hi)), t)
  {
    var j :| 0 <= j < |s| && s[j] == r;
    ClaimsComplete(s, lo, hi);
  }

  // ---------------------------------------------------------------------
  // Sorting the segments
  // ---------------------------------------------------------------------

  predicate Distinct<T(==)>(s: seq<T>)
  {
    forall i, j :: 0 <= i < j < |s| ==> s[i] != s[j]
  }

  lemma {:induction false} CountAtMostOne<T>(a: seq<T>, x: T)
    requires Distinct(a)
    ensures multiset(a)[x] <= 1
    decreases |a|
  {
    if a != [] {
      var n := |a| - 1;
      assert a == a[..n] + [a[n]];
      CountAtMostOne(a[..n], x);
      assert a[n] !in a[..n];
    }
  }

  lemma CountTwo<T>(b: seq<T>, i: int, j: int)
    requires 0 <= i < j < |b|
    ensures b[i] == b[j] ==> multiset(b)[b[i]] >= 2
  {
    assert b == b[..j] + [b[j]] + b[j + 1..];
    assert b[i] in b[..j];
  }

  lemma DistinctPermutation<T>(a: seq<T>, b: seq<T>)
    requires multiset(a) == multiset(b) && Distinct(a)
    ensures Distinct(b)
  {
    forall i, j | 0 <= i < j < |b| ensures b[i] != b[j] {
      CountTwo(b, i, j);
      CountAtMostOne(a, b[i]);
    }
  }

  /** Sorting non-empty segments that pairwise share no instant lists them in time order. */
  lemma SortedSegments(raw: seq<Segment>)
    requires forall i :: 0 <= i < |raw| ==> raw[i].start < raw[i].end
    requires forall i, j :: 0 <= i < j < |raw| ==> Apart(raw[i], raw[j])
    ensures SegmentsOrdered(SortSegments(raw))
  {
    var segs := SortSegments(raw);
    DistinctPermutation(raw, segs);
    SortDescSorted(raw, NegStart);
    forall i, j | 0 <= i < j < |segs| ensures segs[i].end <= segs[j].start {
      assert segs[i] in multiset(raw) && segs[j] in multiset(raw);
      var a :| 0 <= a < |raw| && raw[a] == segs[i];
      var b :| 0 <= b < |raw| && raw[b] == segs[j];
      assert a != b;
      assert Apart(raw[a], raw[b]) by {
        if a < b { } else { assert Apart(raw[b], raw[a]); }
      }
      assert NegStart(segs[i]) >= NegStart(segs[j]);
    }
  }

  lemma RemoveAt<T>(b: seq<T>, k: int)
    requires 0 <= k < |b|
    ensures multiset(b[..k] + b[k + 1..]) == multiset(b) - multiset{b[k]}
  {
    assert b == b[..k] + [b[k]] + b[k + 1..];
  }

  /** Taking element `k` out of `b` takes its pay and seconds out of the sums. */
  lemma {:induction false} SegmentSumsRemove(b: seq<Segment>, k: int)
    requires 0 <= k < |b|
    ensures SegmentPaySum(b) == SegmentPaySum(b[..k] + b[k + 1..]) + b[k].pay
    ensures SegmentSecondsSum(b) == SegmentSecondsSum(b[..k] + b[k + 1..]) + b[k].seconds
    decreases |b|
  {
    var m := |b| - 1;
    var rest := b[..k] + b[k + 1..];
    if k == m {
      assert rest == b[..m];
    } else {
      var prev := b[..m];
      SegmentSumsRemove(prev, k);
      var prevRest := prev[..k] + prev[k + 1..];
      assert rest[..|rest| - 1] == prevRest;
      assert rest[|rest| - 1] == b[m];
    }
  }

  /** The last element of `a` occurs in `b`; with it taken out of both, the rest are still permutations. */
  lemma RemoveMatching(a: seq<Segment>, b: seq<Segment>) returns (k: int)
    requires multiset(a) == multiset(b) && a != []
    ensures 0 <= k < |b| && b[k] == a[|a| - 1]
    ensures multiset(a[..|a| - 1]) == multiset(b[..k] + b[k + 1..])
  {
    var n := |a| - 1;
    var x := a[n];
    assert a == a[..n] + [x];
    assert x in multiset(b);
    k :| 0 <= k < |b| && b[k] == x;
    RemoveAt(b, k);
    assert multiset(a) == multiset(a[..n]) + multiset{x};
  }

  /** Reordering the segments keeps their total seconds and pay. */
  lemma {:induction false} SegmentSumsPermutation(a: seq<Segment>, b: seq<Segment>)
    requires multiset(a) == multiset(b)
    ensures SegmentPaySum(a) == SegmentPaySum(b) && SegmentSecondsSum(a) == SegmentSecondsSum(b)
    decreases |a|
  {
    if a == [] {
      assert |b| == |multiset(b)| == 0;
    } else {
      var k := RemoveMatching(a, b);
      SegmentSumsPermutation(a[..|a| - 1], b[..k] + b[k + 1..]);
      SegmentSumsRemove(b, k);
    }
  }

  // ---------------------------------------------------------------------
  // `calculate_oncall_pay_for_period`
  // ---------------------------------------------------------------------

  /** The result of `calculate_oncall_pay_for_period`; hours are kept as seconds. */
  datatype PeriodPay = PeriodPay(totalPay: real, breakdown: seq<Entry>, totalSeconds: int, effectiveRate: real)

  /** The rules selected for each date from `first` up to `next`, date by date. */
  function ApplicableRules(rules: seq<OnCallRule>, first: Date, next: Date): (r: seq<OnCallRule>)
    ensures forall x :: x in r ==> x in rules
    decreases next - first
  {
    if next <= first then []
    else ApplicableRules(rules, first, next - 1) + RulesForDate(next - 1, rules)
  }

  function CodesOf(rs: seq<OnCallRule>): set<string>
  {
    set r | r in rs :: r.code
  }

  /** The first rule of each code, in order. */
  function UniqueByCode(rs: seq<OnCallRule>): (u: seq<OnCallRule>)
    ensures forall x :: x in u ==> x in rs
    decreases |rs|
  {
    if rs == [] then []
    else
      var n := |rs| - 1;
      var u := UniqueByCode(rs[..n]);
      assert forall x :: x in u ==> x in rs;
      if rs[n].code in CodesOf(u) then u else u + [rs[n]]
  }

  /** `rs[i]` is the first rule of its code in `rs`. */
  predicate FirstOfCode(rs: seq<OnCallRule>, i: int)
    requires 0 <= i < |rs|
  {
    forall j :: 0 <= j < i ==> rs[j].code != rs[i].code
  }

  ghost predicate IsFirstOfCode(rs: seq<OnCallRule>, x: OnCallRule)
  {
    exists i :: 0 <= i < |rs| && rs[i] == x && FirstOfCode(rs, i)
  }

  /**
   * Deduplication keeps exactly the first rule of each code: the kept rules
   * have distinct codes, each is the first of its code, every first of a
   * code is kept, and no code is lost.
   */
  lemma UniqueByCodeSpec(rs: seq<OnCallRule>)
    ensures var u := UniqueByCode(rs);
      && DistinctRuleCodes(u)
      && (forall x :: x in u ==> IsFirstOfCode(rs, x))
      && (forall i :: 0 <= i < |rs| && FirstOfCode(rs, i) ==> rs[i] in u)
      && CodesOf(u) == CodesOf(rs)
  {
    UniqueCodesDistinct(rs);
    UniqueKeepsFirsts(rs);
    UniqueHasFirsts(rs);
    UniqueCodes(rs);
  }

  predicate DistinctRuleCodes(u: seq<OnCallRule>)
  {
    forall i, j :: 0 <= i < j < |u| ==> u[i].code != u[j].code
  }

  lemma {:induction false} UniqueCodesDistinct(rs: seq<OnCallRule>)
    ensures DistinctRuleCodes(UniqueByCode(rs))
    decreases |rs|
  {
    if rs != [] {
      var n := |rs| - 1;
      var u0 := UniqueByCode(rs[..n]);
      UniqueCodesDistinct(rs[..n]);
      if rs[n].code !in CodesOf(u0) {
        var u := u0 + [rs[n]];
        assert UniqueByCode(rs) == u;
        forall i, j | 0 <= i < j < |u| ensures u[i].code != u[j].code {
          assert u[i] == u0[i];
          if j < |u0| {
            assert u[j] == u0[j];
          } else {
            assert u0[i] in u0 && u0[i].code in CodesOf(u0);
          }
        }
      } else {
        assert UniqueByCode(rs) == u0;
      }
    }
  }

  lemma UniqueKeepsFirsts(rs: seq<OnCallRule>)
    ensures forall x :: x in UniqueByCode(rs) ==> IsFirstOfCode(rs, x)
  {
    forall x | x in UniqueByCode(rs) ensures IsFirstOfCode(rs, x) {
      UniqueKeptIsFirst(rs, x);
    }
  }

  lemma {:induction false} UniqueKeptIsFirst(rs: seq<OnCallRule>, x: OnCallRule)
    requires x in UniqueByCode(rs)
    ensures IsFirstOfCode(rs, x)
    decreases |rs|
  {
    var n := |rs| - 1;
    var p := rs[..n];
    var u0 := UniqueByCode(p);
    if x in u0 {
      UniqueKeptIsFirst(p, x);
      var i :| 0 <= i < |p| && p[i] == x && FirstOfCode(p, i);
      assert rs[i] == x;
      assert FirstOfCode(rs, i) by {
        forall j | 0 <= j < i ensures rs[j].code != rs[i].code {
          assert rs[j] == p[j];
        }
      }
    } else {
      assert x == rs[n];
      UniqueCodes(p);
      assert rs[n].code !in CodesOf(p);
      assert FirstOfCode(rs, n) by {
        forall j | 0 <= j < n ensures rs[j].code != rs[n].code {
          assert p[j] in p;
        }
      }
    }
  }

  lemma {:induction false} UniqueHasFirsts(rs: seq<OnCallRule>)
    ensures forall i :: 0 <= i < |rs| && FirstOfCode(rs, i) ==> rs[i] in UniqueByCode(rs)
    decreases |rs|
  {
    if rs != [] {
      var n := |rs| - 1;
      var p := rs[..n];
      var u0 := UniqueByCode(p);
      UniqueHasFirsts(p);
      UniqueCodes(p);
      forall i | 0 <= i < |rs| && FirstOfCode(rs, i) ensures rs[i] in UniqueByCode(rs) {
        if i < n {
          assert p[i] == rs[i] && FirstOfCode(p, i);
        } else {
          forall y | y in p ensures y.code != rs[n].code {
            var k :| 0 <= k < n && p[k] == y;
          }
          assert rs[n].code !in CodesOf(p);
        }
      }
    }
  }

  /** Deduplication loses no code. */
  lemma {:induction false} UniqueCodes(rs: seq<OnCallRule>)
    ensures CodesOf(UniqueByCode(rs)) == CodesOf(rs)
    decreases |rs|
  {
    if rs != [] {
      var n := |rs| - 1;
      var p := rs[..n];
      UniqueCodes(p);
      assert rs == p + [rs[n]];
      assert CodesOf(rs) == CodesOf(p) + {rs[n].code};
      var u0 := UniqueByCode(p);
      assert CodesOf(u0 + [rs[n]]) == CodesOf(u0) + {rs[n].code};
    }
  }

  lemma ApplicableOk(rules: seq<OnCallRule>, first: Date, next: Date)
    requires AllOcWellFormed(rules) && RatesSet(rules)
    ensures AllOcWellFormed(UniqueByCode(ApplicableRules(rules, first, next)))
    ensures RatesSet(UniqueByCode(ApplicableRules(rules, first, next)))
  {
  }

  /** The rules of a period: the first rule of each code among those selected for its dates, by priority. */
  function PeriodRules(s: int, e: int, rules: seq<OnCallRule>): seq<OnCallRule>
  {
    SortByPriority(UniqueByCode(ApplicableRules(rules, s / SecondsPerDay, e / SecondsPerDay + 1)))
  }

  /** The totals of a period with breakdown `bd`: the pay, the full length, and salary times hours over pay. */
  function PeriodOf(bd: seq<Entry>, s: int, e: int, salary: int): PeriodPay
  {
    PeriodPay(SumReal(bd, Pay), bd, e - s, PeriodRate(salary, e - s, SumReal(bd, Pay)))
  }

  /** `monthly_salary * period_hours / total_pay`, or 0 when nothing is paid. */
  function PeriodRate(salary: int, secs: int, totalPay: real): real
  {
    if totalPay > 0.0 then salary as real * (secs as real / 3600.0) / totalPay else 0.0
  }

  lemma PeriodRulesOk(s: int, e: int, rules: seq<OnCallRule>)
    requires AllOcWellFormed(rules) && RatesSet(rules)
    ensures AllOcWellFormed(PeriodRules(s, e, rules)) && RatesSet(PeriodRules(s, e, rules))
    ensures Ranked(Claims(PeriodRules(s, e, rules), s, e), PeriodRules(s, e, rules))
  {
    ApplicableOk(rules, s / SecondsPerDay, e / SecondsPerDay + 1);
    SortedRulesOk(UniqueByCode(ApplicableRules(rules, s / SecondsPerDay, e / SecondsPerDay + 1)));
    ClaimsInOwnRule(PeriodRules(s, e, rules), s, e);
  }

  function OncallPeriod(s: int, e: int, salary: int, rules: seq<OnCallRule>): PeriodPay
    requires AllOcWellFormed(rules) && RatesSet(rules)
  {
    if e <= s then PeriodPay(0.0, [], 0, 0.0)
    else
      PeriodRulesOk(s, e, rules);
      var sorted := PeriodRules(s, e, rules);
      PeriodOf(Breakdown(Claims(sorted, s, e), sorted, salary), s, e, salary)
  }

  /** A breakdown entry taking its code, rate and label from the first rule of that code in `rs`. */
  ghost predicate FromFirstRule(e: Entry, rs: seq<OnCallRule>)
  {
    exists i :: 0 <= i < |rs| && FirstOfCode(rs, i) && rs[i].code == e.code && rs[i].rate == e.rate && rs[i].name == e.name
  }

  /**
   * An empty or reversed period pays nothing. Otherwise the reported
   * length is the whole period, at most that much is paid, each code has
   * one entry, and an entry's rate and label are those of the first
   * applicable rule of its code.
   */
  lemma OncallPeriodSpec(s: int, e: int, salary: int, rules: seq<OnCallRule>)
    requires AllOcWellFormed(rules) && RatesSet(rules)
    ensures var p := OncallPeriod(s, e, salary, rules);
      && (e <= s ==> p.totalPay == 0.0 && p.breakdown == [] && p.totalSeconds == 0 && p.effectiveRate == 0.0)
      && (s < e ==>
            && p.totalSeconds == e - s
            && 0 <= SumInt(p.breakdown, Seconds) <= e - s
            && p.totalPay == SumReal(p.breakdown, Pay)
            && DistinctCodes(p.breakdown)
            && forall i :: 0 <= i < |p.breakdown| ==>
                 FromFirstRule(p.breakdown[i], ApplicableRules(rules, s / SecondsPerDay, e / SecondsPerDay + 1)))
  {
    if s < e {
      var app := ApplicableRules(rules, s / SecondsPerDay, e / SecondsPerDay + 1);
      var u := UniqueByCode(app);
      var sorted := PeriodRules(s, e, rules);
      ApplicableOk(rules, s / SecondsPerDay, e / SecondsPerDay + 1);
      SortedRulesOk(u);
      TallyTotals(0, sorted, s, e, salary);
      UniqueByCodeSpec(app);
      var bd := Breakdown(Claims(sorted, s, e), sorted, salary);
      forall i | 0 <= i < |bd| ensures FromFirstRule(bd[i], app) {
        var r :| r in sorted && r.code == bd[i].code && r.rate == bd[i].rate && r.name == bd[i].name;
        assert r in u;
        var k :| 0 <= k < |app| && app[k] == r && FirstOfCode(app, k);
      }
    }
  }

  /** The loop state of the period: what is covered, the breakdown and the running total follow the claims `cl`. */
  ghost predicate PeriodFollows(cl: seq<Claim>, s: seq<OnCallRule>, salary: int, covered: seq<Interval>, bd: seq<Entry>, total: real)
  {
    && RatesSet(s) && Ranked(cl, s)
    && covered == Spans(cl) && WellFormed(covered)
    && bd == Breakdown(cl, s, salary)
    && total == SumReal(bd, Pay)
  }

  lemma PeriodFollowsStep(cl: seq<Claim>, s: seq<OnCallRule>, salary: int, covered: seq<Interval>, bd: seq<Entry>, total: real, c: Claim)
    requires PeriodFollows(cl, s, salary, covered, bd, total) && c.rank < |s| && c.span.lo <= c.span.hi
    ensures PeriodFollows(cl + [c], s, salary, covered + [c.span],
      Credit(bd, s[c.rank], Length(c.span), ClaimPay(c, s, salary)), total + ClaimPay(c, s, salary))
  {
    var cl' := cl + [c];
    assert cl'[..|cl|] == cl;
    assert Ranked(cl', s);
    SpansSnoc(cl');
    BreakdownSnoc(cl', s, salary);
    CreditTotals(bd, s[c.rank], Length(c.span), ClaimPay(c, s, salary));
  }

  /** The `for uncov_start, uncov_end in uncovered` loop of the period. */
  method PeriodPieces(s: seq<OnCallRule>, k: nat, pieces: seq<Interval>, salary: int,
                      covered: seq<Interval>, bd: seq<Entry>, total: real, ghost cl: seq<Claim>)
    returns (covered': seq<Interval>, bd': seq<Entry>, total': real, ghost cl': seq<Claim>)
    requires PeriodFollows(cl, s, salary, covered, bd, total) && k < |s| && NonEmpty(pieces)
    ensures cl' == cl + Tag(k, pieces)
    ensures PeriodFollows(cl', s, salary, covered', bd', total')
  {
    covered', bd', total', cl' := covered, bd, total, cl;
    for m := 0 to |pieces|
      invariant cl' == cl + Tag(k, pieces[..m])
      invariant PeriodFollows(cl', s, salary, covered', bd', total')
    {
      TagPrefixSnoc(cl, k, pieces, m);
      assert pieces[m] in pieces;
      PeriodFollowsStep(cl', s, salary, covered', bd', total', Claim(k, pieces[m]));
      covered', bd', total' := PeriodPiece(s, k, pieces[m], salary, covered', bd', total');
      cl' := cl' + [Claim(k, pieces[m])];
    }
    assert pieces[..|pieces|] == pieces;
  }

  /** One uncovered piece of the period: credited to rule `k`, added to the total, and marked covered. */
  method PeriodPiece(s: seq<OnCallRule>, k: nat, unc: Interval, salary: int,
                     covered: seq<Interval>, bd: seq<Entry>, total: real)
    returns (covered': seq<Interval>, bd': seq<Entry>, total': real)
    requires RatesSet(s) && k < |s|
    ensures covered' == covered + [unc]
    ensures bd' == Credit(bd, s[k], Length(unc), ClaimPay(Claim(k, unc), s, salary))
    ensures total' == total + ClaimPay(Claim(k, unc), s, salary)
  {
    var rule := s[k];
    var secs := unc.hi - unc.lo;
    var segmentPay := PiecePay(salary, rule.rate, secs);
    bd' := CreditEntry(bd, rule, secs, segmentPay);
    total' := total + segmentPay;
    covered' := covered + [unc];
  }

  /** One pass of the period's `for rule in sorted_rules`, with the intervals clamped to the period. */
  method PeriodClaimRule(s: seq<OnCallRule>, k: nat, lo: int, hi: int, salary: int,
                         covered: seq<Interval>, bd: seq<Entry>, total: real, ghost cl: seq<Claim>)
    returns (covered': seq<Interval>, bd': seq<Entry>, total': real, ghost cl': seq<Claim>)
    requires AllOcWellFormed(s) && k < |s|
    requires PeriodFollows(cl, s, salary, covered, bd, total)
    requires cl == Overlay(ByStart, Flatten(Windows(s, lo, hi)[..k]))
    ensures PeriodFollows(cl', s, salary, covered', bd', total')
    ensures cl' == Overlay(ByStart, Flatten(Windows(s, lo, hi)[..k + 1]))
  {
    assert s[k] in s;
    var intervals := GetRuleIntervalsForShift(s[k], lo, hi);
    RuleIntervalsSpec(s[k], lo, hi);
    ghost var before := Flatten(Windows(s, lo, hi)[..k]);
    assert before + Items(k, intervals[..0]) == before;
    covered', bd', total', cl' := covered, bd, total, cl;
    for j := 0 to |intervals|
      invariant cl' == Overlay(ByStart, before + Items(k, intervals[..j]))
      invariant PeriodFollows(cl', s, salary, covered', bd', total')
    {
      var iv := intervals[j];
      var intervalStart := Max(iv.lo, lo);
      var intervalEnd := Min(iv.hi, hi);
      if intervalStart >= intervalEnd {
        assert false;
      }
      assert intervalStart == iv.lo && intervalEnd == iv.hi;
      var uncovered := SubtractCoveredOncall(intervalStart, intervalEnd, covered');
      SubtractSpec(ByStart, iv.lo, iv.hi, covered');
      ItemsSnoc(before, k, intervals, j);
      OverlaySnoc(ByStart, before + Items(k, intervals[..j]), Item(k, iv));
      covered', bd', total', cl' := PeriodPieces(s, k, uncovered, salary, covered', bd', total', cl');
    }
    assert intervals[..|intervals|] == intervals;
    FlattenSnoc(Windows(s, lo, hi), k);
  }

  /** The `while current_date <= end_date` loop: the rules selected for each date from `first` to `endDate`. */
  method CollectApplicable(rules: seq<OnCallRule>, first: Date, endDate: Date) returns (applicable: seq<OnCallRule>)
    requires first <= endDate
    ensures applicable == ApplicableRules(rules, first, endDate + 1)
  {
    applicable := [];
    var currentDate := first;
    while currentDate <= endDate
      invariant first <= currentDate <= endDate + 1
      invariant applicable == ApplicableRules(rules, first, currentDate)
      decreases endDate - currentDate
    {
      var todays := SelectOncallRulesForDate(currentDate, rules);
      applicable := applicable + todays;
      currentDate := currentDate + 1;
    }
  }

  /** The `seen_codes` loop: keeps the first rule of each code. */
  method RemoveDuplicateCodes(applicable: seq<OnCallRule>) returns (unique: seq<OnCallRule>)
    ensures unique == UniqueByCode(applicable)
  {
    unique := [];
    var seenCodes: set<string> := {};
    for i := 0 to |applicable|
      invariant unique == UniqueByCode(applicable[..i])
      invariant seenCodes == CodesOf(unique)
    {
      assert applicable[..i + 1][..i] == applicable[..i];
      var rule := applicable[i];
      if rule.code !in seenCodes {
        assert CodesOf(unique + [rule]) == CodesOf(unique) + {rule.code};
        unique := unique + [rule];
        seenCodes := seenCodes + {rule.code};
      }
    }
    assert applicable[..|applicable|] == applicable;
  }

  /** The period's `for rule in sorted_rules` loop: the breakdown and the running total of the claims. */
  method PayPeriodRules(sorted: seq<OnCallRule>, start: int, end: int, salary: int) returns (breakdown: seq<Entry>, totalPay: real)
    requires AllOcWellFormed(sorted) && RatesSet(sorted)
    ensures Ranked(Claims(sorted, start, end), sorted)
    ensures breakdown == Breakdown(Claims(sorted, start, end), sorted, salary)
    ensures totalPay == SumReal(breakdown, Pay)
  {
    var covered: seq<Interval> := [];
    breakdown := [];
    totalPay := 0.0;
    ghost var cl: seq<Claim> := [];
    for k := 0 to |sorted|
      invariant PeriodFollows(cl, sorted, salary, covered, breakdown, totalPay)
      invariant cl == Overlay(ByStart, Flatten(Windows(sorted, start, end)[..k]))
    {
      covered, breakdown, totalPay, cl := PeriodClaimRule(sorted, k, start, end, salary, covered, breakdown, totalPay, cl);
    }
    assert Windows(sorted, start, end)[..|sorted|] == Windows(sorted, start, end);
  }

  /** `calculate_oncall_pay_for_period`: the pay of the period [start, end). */
  method CalculateOncallPayForPeriod(start: int, end: int, salary: int, rules: seq<OnCallRule>) returns (p: PeriodPay)
    requires AllOcWellFormed(rules) && RatesSet(rules)
    ensures p == OncallPeriod(start, end, salary, rules)
  {
    if end - start <= 0 {
      return PeriodPay(0.0, [], 0, 0.0);
    }
    var first := start / SecondsPerDay;
    var endDate := end / SecondsPerDay;
    var applicable := CollectApplicable(rules, first, endDate);
    var unique := RemoveDuplicateCodes(applicable);
    ApplicableOk(rules, first, endDate + 1);
    var sorted := SortByPriority(unique);
    SortedRulesOk(unique);
    var breakdown, totalPay := PayPeriodRules(sorted, start, end, salary);
    p := PeriodPay(totalPay, breakdown, end - start, PeriodRate(salary, end - start, totalPay));
    assert sorted == PeriodRules(start, end, rules);
    PeriodRulesOk(start, end, rules);
  }

  // ---------------------------------------------------------------------
  // `calculate_oncall_pay_for_month`
  // ---------------------------------------------------------------------

  /** The result of `calculate_oncall_pay_for_month`. */
  datatype MonthPay = MonthPay(year: int, month: int, totalPay: real, numShifts: int, shifts: seq<DayPay>)

  predicate DateInMonth(d: Date, year: int, month: int)
  {
    ToYmd(d).year == year && ToYmd(d).month == month
  }

  /** The dates of `dates` in the given year and month, in order. */
  function MonthDates(dates: seq<Date>, year: int, month: int): (r: seq<Date>)
    ensures forall d :: d in r <==> d in dates && DateInMonth(d, year, month)
    decreases |dates|
  {
    if dates == [] then []
    else
      var n := |dates| - 1;
      assert dates == dates[..n] + [dates[n]];
      MonthDates(dates[..n], year, month) + (if DateInMonth(dates[n], year, month) then [dates[n]] else [])
  }

  /** The shift of each date of `dates` in the month, in order. */
  function MonthShifts(dates: seq<Date>, year: int, month: int, salary: int, rules: seq<OnCallRule>): seq<DayPay>
    requires AllOcWellFormed(rules) && RatesSet(rules)
    decreases |dates|
  {
    if dates == [] then []
    else
      var n := |dates| - 1;
      MonthShifts(dates[..n], year, month, salary, rules)
      + (if DateInMonth(dates[n], year, month) then [OncallDay(dates[n], salary, rules)] else [])
  }

  function ShiftsTotal(shifts: seq<DayPay>): real
    decreases |shifts|
  {
    if shifts == [] then 0.0 else ShiftsTotal(shifts[..|shifts| - 1]) + shifts[|shifts| - 1].totalPay
  }

  function OncallMonth(year: int, month: int, dates: seq<Date>, salary: int, base: seq<OnCallRule>): MonthPay
    requires AllOcWellFormed(base) && RatesSet(base)
  {
    GeneratedRulesOk(base, year);
    var shifts := MonthShifts(dates, year, month, salary, OncallRulesForYear(base, year));
    MonthPay(year, month, ShiftsTotal(shifts), |shifts|, shifts)
  }

  /**
   * Only the dates in the given year and month are paid: there is one
   * shift per such date, in order, each the pay of that date under the
   * year's rules, and the number of shifts is the number of such dates.
   */
  lemma {:induction false} MonthShiftsLength(dates: seq<Date>, year: int, month: int, salary: int, rules: seq<OnCallRule>)
    requires AllOcWellFormed(rules) && RatesSet(rules)
    ensures |MonthShifts(dates, year, month, salary, rules)| == |MonthDates(dates, year, month)|
    decreases |dates|
  {
    if dates != [] {
      MonthShiftsLength(dates[..|dates| - 1], year, month, salary, rules);
    }
  }

  /** Shift `i` of the month is the on-call day of the month's date `i`. */
  lemma {:induction false} MonthShiftAt(dates: seq<Date>, year: int, month: int, salary: int, rules: seq<OnCallRule>, i: int)
    requires AllOcWellFormed(rules) && RatesSet(rules)
    requires 0 <= i < |MonthDates(dates, year, month)|
    ensures |MonthShifts(dates, year, month, salary, rules)| == |MonthDates(dates, year, month)|
    ensures MonthShifts(dates, year, month, salary, rules)[i] == OncallDay(MonthDates(dates, year, month)[i], salary, rules)
    decreases |dates|
  {
    MonthShiftsLength(dates, year, month, salary, rules);
    var n := |dates| - 1;
    var prev := MonthDates(dates[..n], year, month);
    MonthShiftsLength(dates[..n], year, month, salary, rules);
    if i < |prev| {
      MonthShiftAt(dates[..n], year, month, salary, rules, i);
    }
  }

  lemma MonthShiftsSpec(dates: seq<Date>, year: int, month: int, salary: int, rules: seq<OnCallRule>)
    requires AllOcWellFormed(rules) && RatesSet(rules)
    ensures |MonthShifts(dates, year, month, salary, rules)| == |MonthDates(dates, year, month)|
    ensures forall i :: 0 <= i < |MonthDates(dates, year, month)| ==>
      MonthShifts(dates, year, month, salary, rules)[i] == OncallDay(MonthDates(dates, year, month)[i], salary, rules)
  {
    MonthShiftsLength(dates, year, month, salary, rules);
    forall i | 0 <= i < |MonthDates(dates, year, month)|
      ensures MonthShifts(dates, year, month, salary, rules)[i] == OncallDay(MonthDates(dates, year, month)[i], salary, rules)
    {
      MonthShiftAt(dates, year, month, salary, rules, i);
    }
  }

  lemma OncallMonthSpec(year: int, month: int, dates: seq<Date>, salary: int, base: seq<OnCallRule>)
    requires AllOcWellFormed(base) && RatesSet(base)
    ensures var p := OncallMonth(year, month, dates, salary, base);
      var ds := MonthDates(dates, year, month);
      && AllOcWellFormed(OncallRulesForYear(base, year)) && RatesSet(OncallRulesForYear(base, year))
      && p.year == year && p.month == month
      && p.numShifts == |ds| == |p.shifts|
      && (forall i :: 0 <= i < |ds| ==> p.shifts[i] == OncallDay(ds[i], salary, OncallRulesForYear(base, year)))
      && p.totalPay == ShiftsTotal(p.shifts)
  {
    GeneratedRulesOk(base, year);
    MonthShiftsSpec(dates, year, month, salary, OncallRulesForYear(base, year));
  }

  /** `calculate_oncall_pay_for_month`: the shifts of the dates in the month, under the rules of the year. */
  method CalculateOncallPayForMonth(year: int, month: int, dates: seq<Date>, salary: int, base: seq<OnCallRule>)
    returns (p: MonthPay)
    requires AllOcWellFormed(base) && RatesSet(base)
    ensures p == OncallMonth(year, month, dates, salary, base)
  {
    var rules := BuildOncallRulesForYear(base, year);
    GeneratedRulesOk(base, year);
    var results, totalPay := PayMonthDates(year, month, dates, salary, rules, base);
    p := MonthPay(year, month, totalPay, |results|, results);
  }

  lemma MonthShiftsSnoc(dates: seq<Date>, i: int, year: int, month: int, salary: int, rules: seq<OnCallRule>)
    requires AllOcWellFormed(rules) && RatesSet(rules) && 0 <= i < |dates|
    ensures MonthShifts(dates[..i + 1], year, month, salary, rules) == MonthShifts(dates[..i], year, month, salary, rules)
      + (if DateInMonth(dates[i], year, month) then [OncallDay(dates[i], salary, rules)] else [])
  {
    assert dates[..i + 1][..i] == dates[..i];
  }

  lemma ShiftsTotalSnoc(shifts: seq<DayPay>, d: DayPay)
    ensures ShiftsTotal(shifts + [d]) == ShiftsTotal(shifts) + d.totalPay
  {
    assert (shifts + [d])[..|shifts|] == shifts;
  }

  /** The `for date in oncall_dates` loop of the month. */
  method PayMonthDates(year: int, month: int, dates: seq<Date>, salary: int, rules: seq<OnCallRule>, base: seq<OnCallRule>)
    returns (results: seq<DayPay>, totalPay: real)
    requires AllOcWellFormed(rules) && RatesSet(rules) && AllOcWellFormed(base) && RatesSet(base)
    ensures results == MonthShifts(dates, year, month, salary, rules)
    ensures totalPay == ShiftsTotal(results)
  {
    results := [];
    totalPay := 0.0;
    for i := 0 to |dates|
      invariant results == MonthShifts(dates[..i], year, month, salary, rules)
      invariant totalPay == ShiftsTotal(results)
    {
      MonthShiftsSnoc(dates, i, year, month, salary, rules);
      var date := dates[i];
      if DateInMonth(date, year, month) {
        var result := CalculateOncallPay(date, salary, Some(rules), base);
        assert result == OncallDay(date, salary, rules);
        ShiftsTotalSnoc(results, result);
        results := results + [result];
        totalPay := totalPay + result.totalPay;
      }
    }
    assert dates[..|dates|] == dates;
  }
}
