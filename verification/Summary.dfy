/**
 * The month summary of app/core/schedule/summary.py: each generated day of
 * the requested month adds its hours, its shift, its OB hours and pay per
 * code, its on-call pay and its overtime pay to a running set of totals;
 * the month's gross pay is the base salary plus those additions minus the
 * absence deduction, and net pay is gross pay minus tax.
 *
 * The generated days, the base salary, the absence figures and the tax
 * table are inputs (they come from the database). OB hours are seconds,
 * as in the `Ob` module.
 */
module Summary {
  import opened Wrappers
  import opened Calendar
  import opened Models
  import Ob
  import Storage
  import Intervals

  /** A generated day as the summaries read it: the keys of the day dict. */
  datatype DayRecord = DayRecord(
    date: Date,
    shift: Option<ShiftType>,
    rotationWeek: Option<int>,
    hours: real,
    start: Option<int>,
    end: Option<int>,
    oncallPay: real,
    oncallHours: real,
    otPay: real,
    otHours: real)

  /** The day's hours count unless it is an on-call day (or has no shift). */
  predicate CountsHours(day: DayRecord)
  {
    day.shift.Some? && day.shift.value.code != "OC"
  }

  /** A day is a shift unless it is OFF or on-call (or has no shift). */
  predicate CountsShift(day: DayRecord)
  {
    day.shift.Some? && day.shift.value.code != "OFF" && day.shift.value.code != "OC"
  }

  /** OB is computed for a worked shift, not OFF, OC or OT, with a start and an end. */
  predicate EarnsOb(day: DayRecord)
  {
    && day.shift.Some?
    && day.shift.value.code != "OFF" && day.shift.value.code != "OC" && day.shift.value.code != "OT"
    && day.start.Some? && day.end.Some?
  }

  // ---------------------------------------------------------------------
  // Maps of money per code
  // ---------------------------------------------------------------------

  type Pays = map<string, real>

  function GetR(m: Pays, c: string): real
  {
    if c in m then m[c] else 0.0
  }

  /** `pays[code] = pays.get(code, 0.0) + x`. */
  function AddR(m: Pays, c: string, x: real): (r: Pays)
    ensures r.Keys == m.Keys + {c}
    ensures GetR(r, c) == GetR(m, c) + x
    ensures forall d :: d != c ==> GetR(r, d) == GetR(m, d)
  {
    m[c := GetR(m, c) + x]
  }

  /** `{r.code: 0.0 for r in rules}`. */
  function ZeroPay(rules: seq<ObRule>): (r: Pays)
    ensures r.Keys == Ob.CodeSet(rules)
  {
    map c | c in Ob.CodeSet(rules) :: 0.0
  }

  /** The sum of the entries of `cs`, in order. */
  function SumPay(m: Pays, cs: seq<string>): real
    decreases |cs|
  {
    if cs == [] then 0.0 else SumPay(m, cs[..|cs| - 1]) + GetR(m, cs[|cs| - 1])
  }

  /** The per-code merge loop for hours: each code of `cs` gets `add`'s value added. */
  function MergeHours(acc: Ob.Totals, add: Ob.Totals, cs: seq<string>): Ob.Totals
    decreases |cs|
  {
    if cs == [] then acc
    else Ob.Add(MergeHours(acc, add, cs[..|cs| - 1]), cs[|cs| - 1], Ob.Get(add, cs[|cs| - 1]))
  }

  /** The per-code merge loop for pay. */
  function MergePay(acc: Pays, add: Pays, cs: seq<string>): Pays
    decreases |cs|
  {
    if cs == [] then acc
    else AddR(MergePay(acc, add, cs[..|cs| - 1]), cs[|cs| - 1], GetR(add, cs[|cs| - 1]))
  }

  // ---------------------------------------------------------------------
  // One day: `_process_day_for_summary`
  // ---------------------------------------------------------------------

  /** The day's OB seconds per code: `calculate_ob_hours` for an OB day, zeros otherwise. */
  function DayObHours(day: DayRecord, rules: seq<ObRule>): Ob.Totals
    requires Ob.AllWellFormed(rules)
  {
    if EarnsOb(day) then Ob.ObHours(day.start, day.end, rules) else Ob.ZeroTotals(rules)
  }

  /** The day's OB pay per code: `calculate_ob_pay` for an OB day, zeros otherwise. */
  function DayObPay(day: DayRecord, rules: seq<ObRule>, salary: real): Pays
    requires Ob.AllWellFormed(rules)
  {
    if EarnsOb(day) then Ob.ObPay(Ob.ObHours(day.start, day.end, rules), rules, salary) else ZeroPay(rules)
  }

  /**
   * Both per-code maps of a day have exactly the rules' codes as keys; a
   * day that earns no OB has every entry 0; no entry of the hours is
   * negative, and they add up to at most the length of the shift.
   */
  lemma DayObSpec(day: DayRecord, rules: seq<ObRule>, salary: real)
    requires Ob.AllWellFormed(rules)
    ensures DayObHours(day, rules).Keys == Ob.CodeSet(rules)
    ensures DayObPay(day, rules, salary).Keys == Ob.CodeSet(rules)
    ensures forall c :: Ob.Get(DayObHours(day, rules), c) >= 0
    ensures !EarnsOb(day) ==> forall c :: Ob.Get(DayObHours(day, rules), c) == 0 && GetR(DayObPay(day, rules, salary), c) == 0.0
    ensures Ob.SumOver(DayObHours(day, rules), Ob.Codes(rules)) <= ObSpan(day)
  {
    Ob.ObHoursSpec(day.start, day.end, rules);
    var zero := Ob.ZeroTotals(rules);
    assert forall c :: Ob.Get(zero, c) == 0;
    Ob.SumOverZero(zero, Ob.Codes(rules));
  }

  /** The length of an OB day's shift (0 when negative), and 0 for any other day. */
  function ObSpan(day: DayRecord): int
  {
    if EarnsOb(day) then Intervals.Max(0, day.end.value - day.start.value) else 0
  }

  /** What `_process_day_for_summary` returns for a day. */
  datatype DayOut = DayOut(
    date: Date,
    shift: Option<ShiftType>,
    rotationWeek: Option<int>,
    hours: real,
    obHours: Ob.Totals,
    obPay: Pays,
    oncallPay: real,
    oncallHours: real,
    otPay: real,
    otHours: real,
    start: Option<int>,
    end: Option<int>)

  function DayOutOf(day: DayRecord, rules: seq<ObRule>, salary: real): DayOut
    requires Ob.AllWellFormed(rules)
  {
    DayOut(day.date, day.shift, day.rotationWeek, day.hours, DayObHours(day, rules), DayObPay(day, rules, salary),
           day.oncallPay, day.oncallHours, day.otPay, day.otHours, day.start, day.end)
  }

  /** The month's running totals. */
  datatype Tally = Tally(
    totalHours: real,
    numShifts: int,
    obHours: Ob.Totals,
    obPay: Pays,
    brutto: real,
    oncallPay: real,
    oncallHours: real,
    otPay: real)

  /** The totals before the first day: gross pay starts at the base salary. */
  function Opening(baseSalary: real): Tally
  {
    Tally(0.0, 0, map[], map[], baseSalary, 0.0, 0.0, 0.0)
  }

  /** The totals after one more day, the codes visited in the rules' order. */
  function AddDay(t: Tally, day: DayRecord, rules: seq<ObRule>, salary: real): Tally
    requires Ob.AllWellFormed(rules)
  {
    var cs := Ob.Codes(rules);
    var pays := DayObPay(day, rules, salary);
    Tally(
      if CountsHours(day) then t.totalHours + day.hours else t.totalHours,
      if CountsShift(day) then t.numShifts + 1 else t.numShifts,
      MergeHours(t.obHours, DayObHours(day, rules), cs),
      MergePay(t.obPay, pays, cs),
      t.brutto + SumPay(pays, cs) + (day.oncallPay + day.otPay),
      t.oncallPay + day.oncallPay,
      t.oncallHours + day.oncallHours,
      t.otPay + day.otPay)
  }

  /** The totals object that `summarize_month_for_person` creates and `_process_day_for_summary` updates. */
  class MonthTotals {
    var totalHours: real
    var numShifts: int
    var obHours: Ob.Totals
    var obPay: Pays
    var brutto: real
    var oncallPay: real
    var oncallHours: real
    var otPay: real

    function State(): Tally
      reads this
    {
      Tally(totalHours, numShifts, obHours, obPay, brutto, oncallPay, oncallHours, otPay)
    }

    constructor (baseSalary: real)
      ensures State() == Opening(baseSalary)
    {
      totalHours, numShifts, obHours, obPay := 0.0, 0, map[], map[];
      brutto, oncallPay, oncallHours, otPay := baseSalary, 0.0, 0.0, 0.0;
    }

    /** `_process_day_for_summary`: the day's figures, and the totals updated in place. */
    method ProcessDay(day: DayRecord, rules: seq<ObRule>, salary: real) returns (out: DayOut)
      requires Ob.AllWellFormed(rules)
      modifies this
      ensures State() == AddDay(old(State()), day, rules, salary)
      ensures out == DayOutOf(day, rules, salary)
    {
      var next;
      next, out := DayStep(State(), day, rules, salary);
      totalHours, numShifts, obHours, obPay := next.totalHours, next.numShifts, next.obHours, next.obPay;
      brutto, oncallPay, oncallHours, otPay := next.brutto, next.oncallPay, next.oncallHours, next.otPay;
    }
  }

  /** The work of `_process_day_for_summary` on the totals' values. */
  method DayStep(t: Tally, day: DayRecord, rules: seq<ObRule>, salary: real) returns (next: Tally, out: DayOut)
    requires Ob.AllWellFormed(rules)
    ensures next == AddDay(t, day, rules, salary)
    ensures out == DayOutOf(day, rules, salary)
  {
    var dayHours, dayPay := DayFigures(day, rules, salary);
    var cs := Ob.Codes(rules);
    var mergedHours := MergedHours(t.obHours, dayHours, cs);
    var mergedPay, grossed := MergedPay(t.obPay, dayPay, cs, t.brutto);
    next := Tally(
      if CountsHours(day) then t.totalHours + day.hours else t.totalHours,
      if CountsShift(day) then t.numShifts + 1 else t.numShifts,
      mergedHours, mergedPay,
      grossed + (day.oncallPay + day.otPay),
      t.oncallPay + day.oncallPay,
      t.oncallHours + day.oncallHours,
      t.otPay + day.otPay);
    out := DayOut(day.date, day.shift, day.rotationWeek, day.hours, dayHours, dayPay,
                  day.oncallPay, day.oncallHours, day.otPay, day.otHours, day.start, day.end);
  }

  /** The day's OB hours and pay: computed for an OB day, zeros for every code otherwise. */
  method DayFigures(day: DayRecord, rules: seq<ObRule>, salary: real) returns (hours: Ob.Totals, pays: Pays)
    requires Ob.AllWellFormed(rules)
    ensures hours == DayObHours(day, rules) && pays == DayObPay(day, rules, salary)
  {
    if EarnsOb(day) {
      hours := Ob.CalculateObHours(day.start, day.end, rules);
      pays := Ob.CalculateObPay(day.start, day.end, rules, salary);
    } else {
      hours := Ob.ZeroTotals(rules);
      pays := ZeroPay(rules);
    }
  }

  /** `for code, h in ob_hours.items()`: each code's seconds added to the totals. */
  method MergedHours(acc: Ob.Totals, add: Ob.Totals, cs: seq<string>) returns (r: Ob.Totals)
    ensures r == MergeHours(acc, add, cs)
  {
    r := acc;
    for i := 0 to |cs|
      invariant r == MergeHours(acc, add, cs[..i])
    {
      assert cs[..i + 1][..i] == cs[..i];
      r := Ob.Add(r, cs[i], Ob.Get(add, cs[i]));
    }
    assert cs[..|cs|] == cs;
  }

  /** `for code, p in ob_pay.items()`: each code's pay added to the totals and to gross pay. */
  method MergedPay(acc: Pays, add: Pays, cs: seq<string>, brutto: real) returns (r: Pays, b: real)
    ensures r == MergePay(acc, add, cs) && b == brutto + SumPay(add, cs)
  {
    r, b := acc, brutto;
    for i := 0 to |cs|
      invariant r == MergePay(acc, add, cs[..i])
      invariant b == brutto + SumPay(add, cs[..i])
    {
      assert cs[..i + 1][..i] == cs[..i];
      var p := GetR(add, cs[i]);
      r := AddR(r, cs[i], p);
      b := b + p;
    }
    assert cs[..|cs|] == cs;
  }

  // ---------------------------------------------------------------------
  // Sums over the codes
  // ---------------------------------------------------------------------

  lemma {:induction false} SumPayEmpty(cs: seq<string>)
    ensures SumPay(map[], cs) == 0.0
    decreases |cs|
  {
    if cs != [] {
      SumPayEmpty(cs[..|cs| - 1]);
    }
  }

  lemma {:induction false} SumPayOther(m: Pays, cs: seq<string>, c: string, x: real)
    requires c !in cs
    ensures SumPay(AddR(m, c, x), cs) == SumPay(m, cs)
    decreases |cs|
  {
    if cs != [] {
      SumPayOther(m, cs[..|cs| - 1], c, x);
    }
  }

  lemma {:induction false} MergePayOther(acc: Pays, add: Pays, cs: seq<string>, c: string)
    requires c !in cs
    ensures GetR(MergePay(acc, add, cs), c) == GetR(acc, c)
    decreases |cs|
  {
    if cs != [] {
      MergePayOther(acc, add, cs[..|cs| - 1], c);
    }
  }

  lemma {:induction false} MergeHoursOther(acc: Ob.Totals, add: Ob.Totals, cs: seq<string>, c: string)
    requires c !in cs
    ensures Ob.Get(MergeHours(acc, add, cs), c) == Ob.Get(acc, c)
    decreases |cs|
  {
    if cs != [] {
      MergeHoursOther(acc, add, cs[..|cs| - 1], c);
    }
  }

  /** Merging adds each listed code's value and leaves every other code alone. */
  lemma {:induction false} MergeHoursGet(acc: Ob.Totals, add: Ob.Totals, cs: seq<string>, c: string)
    requires Ob.Distinct(cs)
    ensures Ob.Get(MergeHours(acc, add, cs), c) == Ob.Get(acc, c) + (if c in cs then Ob.Get(add, c) else 0)
    decreases |cs|
  {
    if cs != [] {
      var n := |cs| - 1;
      assert forall i, j :: 0 <= i < j < n ==> cs[..n][i] != cs[..n][j];
      assert cs == cs[..n] + [cs[n]];
      if c == cs[n] {
        assert c !in cs[..n];
        MergeHoursOther(acc, add, cs[..n], c);
      } else {
        MergeHoursGet(acc, add, cs[..n], c);
      }
    }
  }

  /** Merged pay sums to the sum of the old pay and of the added pay. */
  lemma {:induction false} MergePaySum(acc: Pays, add: Pays, cs: seq<string>)
    requires Ob.Distinct(cs)
    ensures SumPay(MergePay(acc, add, cs), cs) == SumPay(acc, cs) + SumPay(add, cs)
    decreases |cs|
  {
    if cs != [] {
      var n := |cs| - 1;
      var prefix := cs[..n];
      assert forall i, j :: 0 <= i < j < n ==> prefix[i] != prefix[j];
      assert cs[n] !in prefix;
      var before := MergePay(acc, add, prefix);
      MergePaySum(acc, add, prefix);
      MergePayOther(acc, add, prefix, cs[n]);
      SumPayOther(before, prefix, cs[n], GetR(add, cs[n]));
    }
  }

  // ---------------------------------------------------------------------
  // The month
  // ---------------------------------------------------------------------

  /** The days whose date is in the requested month, in order (the year is not compared). */
  function MonthDays(days: seq<DayRecord>, month: int): (r: seq<DayRecord>)
    ensures |r| <= |days|
    ensures forall x :: x in r <==> x in days && MonthOf(x.date) == month
    decreases |days|
  {
    if days == [] then []
    else
      var n := |days| - 1;
      assert days == days[..n] + [days[n]];
      var prev := MonthDays(days[..n], month);
      if MonthOf(days[n].date) == month then prev + [days[n]] else prev
  }

  /** The totals after a sequence of days. */
  function Tallied(t: Tally, days: seq<DayRecord>, rules: seq<ObRule>, salary: real): Tally
    requires Ob.AllWellFormed(rules)
    decreases |days|
  {
    if days == [] then t else AddDay(Tallied(t, days[..|days| - 1], rules, salary), days[|days| - 1], rules, salary)
  }

  /** The days returned, one per day of the month. */
  function Outs(days: seq<DayRecord>, rules: seq<ObRule>, salary: real): (r: seq<DayOut>)
    requires Ob.AllWellFormed(rules)
    ensures |r| == |days|
    decreases |days|
  {
    if days == [] then [] else Outs(days[..|days| - 1], rules, salary) + [DayOutOf(days[|days| - 1], rules, salary)]
  }

  /** The month's totals, before the absence deduction. */
  function MonthTally(days: seq<DayRecord>, month: int, rules: seq<ObRule>, baseSalary: real): Tally
    requires Ob.AllWellFormed(rules)
  {
    Tallied(Opening(baseSalary), MonthDays(days, month), rules, baseSalary)
  }

  /** Gross pay is the base salary plus the OB pay, on-call pay and overtime pay accumulated so far. */
  predicate BruttoBalanced(t: Tally, baseSalary: real, cs: seq<string>)
  {
    t.brutto == baseSalary + SumPay(t.obPay, cs) + t.oncallPay + t.otPay
  }

  lemma {:induction false} TalliedBalanced(days: seq<DayRecord>, rules: seq<ObRule>, baseSalary: real)
    requires Ob.AllWellFormed(rules)
    ensures BruttoBalanced(Tallied(Opening(baseSalary), days, rules, baseSalary), baseSalary, Ob.Codes(rules))
    decreases |days|
  {
    var cs := Ob.Codes(rules);
    if days == [] {
      SumPayEmpty(cs);
    } else {
      var n := |days| - 1;
      TalliedBalanced(days[..n], rules, baseSalary);
      var t := Tallied(Opening(baseSalary), days[..n], rules, baseSalary);
      MergePaySum(t.obPay, DayObPay(days[n], rules, baseSalary), cs);
    }
  }

  /**
   * The month's gross pay before the absence deduction is exactly the base
   * salary plus the month's OB pay over all codes, its on-call pay and its
   * overtime pay.
   */
  lemma MonthBrutto(days: seq<DayRecord>, month: int, rules: seq<ObRule>, baseSalary: real)
    requires Ob.AllWellFormed(rules)
    ensures var t := MonthTally(days, month, rules, baseSalary);
      t.brutto == baseSalary + SumPay(t.obPay, Ob.Codes(rules)) + t.oncallPay + t.otPay
  {
    TalliedBalanced(MonthDays(days, month), rules, baseSalary);
  }

  /**
   * The counts of a run of days: at most one shift per day, and OB seconds
   * per code never negative and, per code, the sum of the days' seconds.
   */
  lemma {:induction false} TalliedCounts(t: Tally, days: seq<DayRecord>, rules: seq<ObRule>, salary: real, c: string)
    requires Ob.AllWellFormed(rules) && 0 <= t.numShifts && Ob.Get(t.obHours, c) >= 0
    ensures var r := Tallied(t, days, rules, salary);
      t.numShifts <= r.numShifts <= t.numShifts + |days| && Ob.Get(r.obHours, c) >= Ob.Get(t.obHours, c)
    decreases |days|
  {
    if days != [] {
      var n := |days| - 1;
      TalliedCounts(t, days[..n], rules, salary, c);
      var prev := Tallied(t, days[..n], rules, salary);
      DayObSpec(days[n], rules, salary);
      MergeHoursGet(prev.obHours, DayObHours(days[n], rules), Ob.Codes(rules), c);
    }
  }

  /**
   * `num_shifts` counts at most one shift per day of the month, and every
   * code's OB seconds for the month are non-negative.
   */
  lemma MonthCounts(days: seq<DayRecord>, month: int, rules: seq<ObRule>, baseSalary: real, c: string)
    requires Ob.AllWellFormed(rules)
    ensures var t := MonthTally(days, month, rules, baseSalary);
      0 <= t.numShifts <= |MonthDays(days, month)| && Ob.Get(t.obHours, c) >= 0
  {
    TalliedCounts(Opening(baseSalary), MonthDays(days, month), rules, baseSalary, c);
  }

  lemma {:induction false} MonthDaysAppend(a: seq<DayRecord>, b: seq<DayRecord>, month: int)
    ensures MonthDays(a + b, month) == MonthDays(a, month) + MonthDays(b, month)
    decreases |b|
  {
    if b == [] {
      assert a + b == a;
    } else {
      var n := |b| - 1;
      assert (a + b)[..|a + b| - 1] == a + b[..n];
      MonthDaysAppend(a, b[..n], month);
    }
  }

  lemma {:induction false} MonthDaysNone(b: seq<DayRecord>, month: int)
    requires forall x :: x in b ==> MonthOf(x.date) != month
    ensures MonthDays(b, month) == []
  {
    if MonthDays(b, month) != [] {
      assert MonthDays(b, month)[0] in MonthDays(b, month);
    }
  }

  /** Days of other months, before or after the month's days, change nothing. */
  lemma MonthIgnoresOtherMonths(before: seq<DayRecord>, days: seq<DayRecord>, after: seq<DayRecord>, month: int,
                                rules: seq<ObRule>, baseSalary: real)
    requires Ob.AllWellFormed(rules)
    requires forall x :: x in before ==> MonthOf(x.date) != month
    requires forall x :: x in after ==> MonthOf(x.date) != month
    ensures MonthTally(before + days + after, month, rules, baseSalary) == MonthTally(days, month, rules, baseSalary)
    ensures MonthDays(before + days + after, month) == MonthDays(days, month)
  {
    MonthDaysAppend(before + days, after, month);
    MonthDaysAppend(before, days, month);
    MonthDaysNone(before, month);
    MonthDaysNone(after, month);
    assert [] + MonthDays(days, month) + [] == MonthDays(days, month);
  }

  // ---------------------------------------------------------------------
  // `summarize_month_for_person`
  // ---------------------------------------------------------------------

  /** The figures of `get_absence_deductions_for_month`; there are none without a database session. */
  datatype AbsenceInfo = AbsenceInfo(
    totalDeduction: real, totalHours: real,
    sickDays: int, sickHours: real, vabDays: int, vabHours: real,
    leaveDays: int, leaveHours: real, offDays: int, offHours: real,
    details: seq<AbsenceDetail>)

  datatype AbsenceDetail = AbsenceDetail(kind: string, deduction: real)

  const NoAbsence: AbsenceInfo := AbsenceInfo(0.0, 0.0, 0, 0.0, 0, 0.0, 0, 0.0, 0, 0.0, [])

  /**
   * Where tax comes from: the person's tax table, a lookup that may fail
   * (`None`), when one is set; the tax brackets otherwise.
   */
  datatype TaxSource = TaxSource(table: Option<real -> Option<real>>, brackets: seq<TaxBracket>)

  /** `_calculate_tax`: the table's tax, falling back to the bracket lookup when there is no table or it fails. */
  function Tax(brutto: real, src: TaxSource): (r: real)
    ensures src.table.None? ==> r == Storage.TaxBracketFor(brutto, src.brackets)
    ensures src.table.Some? && src.table.value(brutto).Some? ==> r == src.table.value(brutto).value
  {
    match src.table
    case Some(lookup) =>
      (match lookup(brutto)
       case Some(tax) => tax
       case None => Storage.TaxBracketFor(brutto, src.brackets))
    case None => Storage.TaxBracketFor(brutto, src.brackets)
  }

  datatype MonthSummary = MonthSummary(
    year: int,
    month: int,
    personId: int,
    totals: Tally,
    absence: AbsenceInfo,
    brutto: real,
    netto: real,
    days: seq<DayOut>,
    totalOb: Option<real>)

  /**
   * The month summary: the totals of the month's days under the year's
   * combined OB rules, the absence figures when there is a session (gross
   * pay then drops by the deduction), and net pay after tax.
   */
  function MonthSummaryOf(year: int, month: int, personId: int, days: seq<DayRecord>, rules: seq<ObRule>,
                          baseSalary: real, absence: Option<AbsenceInfo>, tax: TaxSource): MonthSummary
    requires Ob.AllWellFormed(rules)
  {
    Finish(year, month, personId, MonthTally(days, month, rules, baseSalary), Outs(MonthDays(days, month), rules, baseSalary),
           absence, tax)
  }

  /** After the day loop: the absence figures when there is a session (gross pay then drops by the deduction), and net pay after tax. */
  function Finish(year: int, month: int, personId: int, t: Tally, out: seq<DayOut>, absence: Option<AbsenceInfo>, tax: TaxSource): MonthSummary
  {
    var info := absence.GetOr(NoAbsence);
    var brutto := if absence.Some? then t.brutto - info.totalDeduction else t.brutto;
    MonthSummary(year, month, personId, t, info, brutto, brutto - Tax(brutto, tax), out, None)
  }

  /**
   * Gross pay is the base salary plus the month's OB pay, on-call pay and
   * overtime pay, minus the absence deduction when there is one; net pay
   * is gross pay minus its tax; one day is returned per day of the month.
   */
  lemma MonthPay(year: int, month: int, personId: int, days: seq<DayRecord>, rules: seq<ObRule>,
                 baseSalary: real, absence: Option<AbsenceInfo>, tax: TaxSource)
    requires Ob.AllWellFormed(rules)
    ensures var s := MonthSummaryOf(year, month, personId, days, rules, baseSalary, absence, tax);
      && s.brutto == baseSalary + SumPay(s.totals.obPay, Ob.Codes(rules)) + s.totals.oncallPay + s.totals.otPay
                     - (if absence.Some? then absence.value.totalDeduction else 0.0)
      && s.netto == s.brutto - Tax(s.brutto, tax)
      && |s.days| == |MonthDays(days, month)|
  {
    MonthBrutto(days, month, rules, baseSalary);
  }

  /** `summarize_month_for_person`: the loop over the days, skipping those of other months. */
  method SummarizeMonth(year: int, month: int, personId: int, days: seq<DayRecord>, baseOb: seq<ObRule>,
                        baseSalary: real, absence: Option<AbsenceInfo>, tax: TaxSource) returns (s: MonthSummary)
    requires Ob.AllWellFormed(baseOb)
    ensures Ob.AllWellFormed(Ob.CombinedRules(baseOb, year))
    ensures s == MonthSummaryOf(year, month, personId, days, Ob.CombinedRules(baseOb, year), baseSalary, absence, tax)
  {
    Ob.CombinedRulesWellFormed(baseOb, year);
    var rules := Ob.CombinedRules(baseOb, year);
    var totals := new MonthTotals(baseSalary);
    var out := TallyMonth(totals, days, month, rules, baseSalary);
    s := Finish(year, month, personId, totals.State(), out, absence, tax);
  }

  /** The loop over the days: each day of the month is processed into the totals, the others are skipped. */
  method TallyMonth(totals: MonthTotals, days: seq<DayRecord>, month: int, rules: seq<ObRule>, salary: real)
    returns (out: seq<DayOut>)
    requires Ob.AllWellFormed(rules)
    modifies totals
    ensures totals.State() == Tallied(old(totals.State()), MonthDays(days, month), rules, salary)
    ensures out == Outs(MonthDays(days, month), rules, salary)
  {
    out := [];
    ghost var t0 := totals.State();
    for i := 0 to |days|
      invariant totals.State() == Tallied(t0, MonthDays(days[..i], month), rules, salary)
      invariant out == Outs(MonthDays(days[..i], month), rules, salary)
    {
      MonthDaysStep(days, i, month);
      if MonthOf(days[i].date) == month {
        TallySnoc(t0, MonthDays(days[..i], month), days[i], rules, salary);
        var d := totals.ProcessDay(days[i], rules, salary);
        out := out + [d];
      }
    }
    assert days[..|days|] == days;
  }

  lemma MonthDaysStep(days: seq<DayRecord>, i: int, month: int)
    requires 0 <= i < |days|
    ensures MonthDays(days[..i + 1], month) ==
      if MonthOf(days[i].date) == month then MonthDays(days[..i], month) + [days[i]] else MonthDays(days[..i], month)
  {
    assert days[..i + 1][..i] == days[..i];
  }

  lemma TallySnoc(t: Tally, ds: seq<DayRecord>, d: DayRecord, rules: seq<ObRule>, salary: real)
    requires Ob.AllWellFormed(rules)
    ensures Tallied(t, ds + [d], rules, salary) == AddDay(Tallied(t, ds, rules, salary), d, rules, salary)
    ensures Outs(ds + [d], rules, salary) == Outs(ds, rules, salary) + [DayOutOf(d, rules, salary)]
  {
    assert (ds + [d])[..|ds|] == ds;
  }
}
