/**
 * The year views of app/core/schedule/summary.py: the rough per-month
 * overview of the generated year, the twelve month summaries of a person,
 * and the year summary built from them (totals, per-kind absence
 * deductions, OB hours and pay per code, averages per month).
 *
 * The month summaries' inputs that come from the database (the wage in
 * force on the 1st of each month, the month's absence figures, the tax
 * table) are parameters.
 */
module SummaryYear {
  import opened Wrappers
  import opened Calendar
  import opened Models
  import Ob
  import opened Summary

  // ---------------------------------------------------------------------
  // `summarize_year_by_month`
  // ---------------------------------------------------------------------

  /** One month of the rough overview. */
  datatype MonthCount = MonthCount(totalHours: real, numShifts: int)

  /** The overview counts every day with a shift other than OFF (on-call days included). */
  predicate IsShiftDay(day: DayRecord)
  {
    day.shift.Some? && day.shift.value.code != "OFF"
  }

  /** One more day: its month's entry is created at zero if missing, then gets the day's hours and, for a shift day, one shift. */
  function CountDay(m: map<int, MonthCount>, k: int, day: DayRecord): map<int, MonthCount>
  {
    var cur := if k in m then m[k] else MonthCount(0.0, 0);
    m[k := MonthCount(cur.totalHours + day.hours, cur.numShifts + (if IsShiftDay(day) then 1 else 0))]
  }

  /** The overview of a sequence of days, day by day in order. */
  function ByMonth(days: seq<DayRecord>): map<int, MonthCount>
    decreases |days|
  {
    if days == [] then map[] else CountDay(ByMonth(days[..|days| - 1]), MonthOf(days[|days| - 1].date), days[|days| - 1])
  }

  /** `summarize_year_by_month`: the loop over the generated days of the year. */
  method SummarizeYearByMonth(days: seq<DayRecord>) returns (summary: map<int, MonthCount>)
    ensures summary == ByMonth(days)
  {
    summary := map[];
    for i := 0 to |days|
      invariant summary == ByMonth(days[..i])
    {
      ByMonthSnoc(days, i);
      summary := CountInto(summary, MonthOf(days[i].date), days[i]);
    }
    assert days[..|days|] == days;
  }

  lemma ByMonthSnoc(days: seq<DayRecord>, i: int)
    requires 0 <= i < |days|
    ensures ByMonth(days[..i + 1]) == CountDay(ByMonth(days[..i]), MonthOf(days[i].date), days[i])
  {
    assert days[..i + 1][..i] == days[..i];
  }

  /** The loop body: the day's month entry is created at zero if missing, then receives the day. */
  method CountInto(summary: map<int, MonthCount>, month: int, day: DayRecord) returns (after: map<int, MonthCount>)
    ensures after == CountDay(summary, month, day)
  {
    after := summary;
    if month !in after {
      after := after[month := MonthCount(0.0, 0)];
    }
    after := after[month := after[month].(totalHours := after[month].totalHours + day.hours)];
    if IsShiftDay(day) {
      after := after[month := after[month].(numShifts := after[month].numShifts + 1)];
    }
  }

  /** The hours of a sequence of days. */
  function HoursOf(days: seq<DayRecord>): real
    decreases |days|
  {
    if days == [] then 0.0 else HoursOf(days[..|days| - 1]) + days[|days| - 1].hours
  }

  /** The number of shift days in a sequence of days. */
  function ShiftsOf(days: seq<DayRecord>): (r: int)
    ensures 0 <= r <= |days|
    decreases |days|
  {
    if days == [] then 0 else ShiftsOf(days[..|days| - 1]) + (if IsShiftDay(days[|days| - 1]) then 1 else 0)
  }

  /**
   * The overview has an entry exactly for the months some day falls in,
   * and that entry holds the hours of all that month's days and the
   * number of its shift days (never more than its days).
   */
  lemma {:induction false} ByMonthIsMonthDays(days: seq<DayRecord>, k: int)
    ensures k in ByMonth(days) <==> MonthDays(days, k) != []
    ensures k in ByMonth(days) ==>
      ByMonth(days)[k] == MonthCount(HoursOf(MonthDays(days, k)), ShiftsOf(MonthDays(days, k)))
    decreases |days|
  {
    if days != [] {
      var n := |days| - 1;
      ByMonthIsMonthDays(days[..n], k);
      MonthDaysStep(days, n, k);
      ByMonthSnoc(days, n);
      assert days[..n + 1] == days;
      ByMonthStep(ByMonth(days[..n]), MonthDays(days[..n], k), days[n], MonthOf(days[n].date), k,
                  ByMonth(days), MonthDays(days, k));
    }
  }

  /** One step of the induction above, for a day of month `mk`. */
  lemma ByMonthStep(before: map<int, MonthCount>, prev: seq<DayRecord>, d: DayRecord, mk: int, k: int,
                    after: map<int, MonthCount>, next: seq<DayRecord>)
    requires after == CountDay(before, mk, d)
    requires next == if mk == k then prev + [d] else prev
    requires k in before <==> prev != []
    requires k in before ==> before[k] == MonthCount(HoursOf(prev), ShiftsOf(prev))
    ensures k in after <==> next != []
    ensures k in after ==> after[k] == MonthCount(HoursOf(next), ShiftsOf(next))
  {
    if mk == k {
      assert (prev + [d])[..|prev|] == prev;
      if prev == [] {
        assert HoursOf(prev + [d]) == 0.0 + d.hours;
      }
    }
  }

  // ---------------------------------------------------------------------
  // `_build_year_summary`: the totals
  // ---------------------------------------------------------------------

  /** The figures the year summary adds up over the month summaries. */
  datatype Figures = Figures(
    netto: real, brutto: real, shifts: int, hours: real, ob: real,
    oncall: real, oncallHours: real, ot: real,
    absenceDeduction: real, absenceHours: real,
    sickDays: int, sickHours: real, vabDays: int, vabHours: real,
    leaveDays: int, leaveHours: real, offDays: int, offHours: real)

  const NoFigures: Figures := Figures(0.0, 0.0, 0, 0.0, 0.0, 0.0, 0.0, 0.0, 0.0, 0.0, 0, 0.0, 0, 0.0, 0, 0.0, 0, 0.0)

  function Plus(a: Figures, b: Figures): Figures
  {
    Figures(
      a.netto + b.netto, a.brutto + b.brutto, a.shifts + b.shifts, a.hours + b.hours, a.ob + b.ob,
      a.oncall + b.oncall, a.oncallHours + b.oncallHours, a.ot + b.ot,
      a.absenceDeduction + b.absenceDeduction, a.absenceHours + b.absenceHours,
      a.sickDays + b.sickDays, a.sickHours + b.sickHours, a.vabDays + b.vabDays, a.vabHours + b.vabHours,
      a.leaveDays + b.leaveDays, a.leaveHours + b.leaveHours, a.offDays + b.offDays, a.offHours + b.offHours)
  }

  /**
   * One month's figures, read from the month summary: `total_ob` counts 0.0
   * when the month has none; the off days and hours are the month's
   * absence figures.
   */
  function MonthFigures(m: MonthSummary): Figures
  {
    Figures(
      m.netto, m.brutto, m.totals.numShifts, m.totals.totalHours, m.totalOb.GetOr(0.0),
      m.totals.oncallPay, m.totals.oncallHours, m.totals.otPay,
      m.absence.totalDeduction, m.absence.totalHours,
      m.absence.sickDays, m.absence.sickHours, m.absence.vabDays, m.absence.vabHours,
      m.absence.leaveDays, m.absence.leaveHours, m.absence.offDays, m.absence.offHours)
  }

  /**
   * One month's figures as the year summary reads them from the month dict,
   * which has no `off_days` or `off_hours` keys: those read as 0.
   */
  function MonthFiguresAsWritten(m: MonthSummary): Figures
  {
    MonthFigures(m).(offDays := 0, offHours := 0.0)
  }

  /** The sum of `f` over the months, in order. */
  function TotalOf(months: seq<MonthSummary>, f: MonthSummary -> Figures): Figures
    decreases |months|
  {
    if months == [] then NoFigures else Plus(TotalOf(months[..|months| - 1], f), f(months[|months| - 1]))
  }

  /** The year's totals of two stretches of months are the sums of their totals. */
  lemma {:induction false} TotalAppend(a: seq<MonthSummary>, b: seq<MonthSummary>, f: MonthSummary -> Figures)
    ensures TotalOf(a + b, f) == Plus(TotalOf(a, f), TotalOf(b, f))
    decreases |b|
  {
    if b == [] {
      assert a + b == a;
    } else {
      var n := |b| - 1;
      assert (a + b)[..|a + b| - 1] == a + b[..n];
      TotalAppend(a, b[..n], f);
      PlusAssoc(TotalOf(a, f), TotalOf(b[..n], f), f(b[n]));
    }
  }

  lemma PlusAssoc(x: Figures, y: Figures, z: Figures)
    ensures Plus(Plus(x, y), z) == Plus(x, Plus(y, z))
  {
  }

  /** As written, the year's off days and off hours are 0 whatever the months hold. */
  lemma {:induction false} OffDaysLost(months: seq<MonthSummary>)
    ensures TotalOf(months, MonthFiguresAsWritten).offDays == 0
    ensures TotalOf(months, MonthFiguresAsWritten).offHours == 0.0
    decreases |months|
  {
    if months != [] {
      OffDaysLost(months[..|months| - 1]);
    }
  }

  /** A single month with an off day shows the difference: the year reports none. */
  lemma OffDaysLostExample(m: MonthSummary)
    requires m.absence.offDays > 0
    ensures TotalOf([m], MonthFiguresAsWritten).offDays == 0 < TotalOf([m], MonthFigures).offDays
  {
    OffDaysLost([m]);
    assert [m][..0] == [];
  }

  /** Every figure of the year is the sum of that figure over the months: here the off days and hours. */
  lemma {:induction false} OffDaysKept(months: seq<MonthSummary>, m: MonthSummary)
    ensures TotalOf(months + [m], MonthFigures).offDays == TotalOf(months, MonthFigures).offDays + m.absence.offDays
    ensures TotalOf(months + [m], MonthFigures).offHours == TotalOf(months, MonthFigures).offHours + m.absence.offHours
  {
    assert (months + [m])[..|months|] == months;
  }

  /** `len(months) or 1`. */
  function Divisor(months: seq<MonthSummary>): (r: real)
    ensures r >= 1.0
  {
    if |months| == 0 then 1.0 else |months| as real
  }

  /** The averages per month. */
  datatype Averages = Averages(
    netto: real, brutto: real, shifts: real, hours: real, ob: real,
    oncall: real, oncallHours: real, ot: real, absenceDeduction: real)

  function AveragesOf(t: Figures, n: real): Averages
    requires n > 0.0
  {
    Averages(t.netto / n, t.brutto / n, t.shifts as real / n, t.hours / n, t.ob / n,
             t.oncall / n, t.oncallHours / n, t.ot / n, t.absenceDeduction / n)
  }

  /** Each average times the divisor (the number of months, or 1 for none) gives back the total. */
  lemma AveragesScale(t: Figures, n: real)
    requires n > 0.0
    ensures var a := AveragesOf(t, n);
      && a.netto * n == t.netto && a.brutto * n == t.brutto && a.shifts * n == t.shifts as real
      && a.hours * n == t.hours && a.ob * n == t.ob && a.oncall * n == t.oncall
      && a.oncallHours * n == t.oncallHours && a.ot * n == t.ot && a.absenceDeduction * n == t.absenceDeduction
  {
    DivTimes(t.netto, n); DivTimes(t.brutto, n); DivTimes(t.shifts as real, n);
    DivTimes(t.hours, n); DivTimes(t.ob, n); DivTimes(t.oncall, n);
    DivTimes(t.oncallHours, n); DivTimes(t.ot, n); DivTimes(t.absenceDeduction, n);
  }

  lemma DivTimes(x: real, n: real)
    requires n > 0.0
    ensures (x / n) * n == x
  {
  }

  // ---------------------------------------------------------------------
  // `_build_year_summary`: deductions per absence kind
  // ---------------------------------------------------------------------

  /** The absence kinds the year summary breaks the deductions down by. */
  predicate KnownKind(kind: string)
  {
    kind == "SICK" || kind == "VAB" || kind == "LEAVE" || kind == "OFF"
  }

  /** The deductions of the details of one kind. */
  function KindOf(details: seq<AbsenceDetail>, kind: string): real
    decreases |details|
  {
    if details == [] then 0.0
    else
      var d := details[|details| - 1];
      KindOf(details[..|details| - 1], kind) + (if d.kind == kind then d.deduction else 0.0)
  }

  /** The deductions of the details of no known kind, which the breakdown skips. */
  function UnknownOf(details: seq<AbsenceDetail>): real
    decreases |details|
  {
    if details == [] then 0.0
    else
      var d := details[|details| - 1];
      UnknownOf(details[..|details| - 1]) + (if KnownKind(d.kind) then 0.0 else d.deduction)
  }

  /** All the deductions of the details. */
  function AllOf(details: seq<AbsenceDetail>): real
    decreases |details|
  {
    if details == [] then 0.0 else AllOf(details[..|details| - 1]) + details[|details| - 1].deduction
  }

  /** The deductions of one kind over the months' details. */
  function KindDeduction(months: seq<MonthSummary>, kind: string): real
    decreases |months|
  {
    if months == [] then 0.0
    else KindDeduction(months[..|months| - 1], kind) + KindOf(months[|months| - 1].absence.details, kind)
  }

  function UnknownDeduction(months: seq<MonthSummary>): real
    decreases |months|
  {
    if months == [] then 0.0
    else UnknownDeduction(months[..|months| - 1]) + UnknownOf(months[|months| - 1].absence.details)
  }

  function AllDeduction(months: seq<MonthSummary>): real
    decreases |months|
  {
    if months == [] then 0.0
    else AllDeduction(months[..|months| - 1]) + AllOf(months[|months| - 1].absence.details)
  }

  /** The four kinds and the unknown ones together make up all of the details' deductions. */
  lemma {:induction false} KindsPartitionDetails(details: seq<AbsenceDetail>)
    ensures KindOf(details, "SICK") + KindOf(details, "VAB") + KindOf(details, "LEAVE") + KindOf(details, "OFF")
            + UnknownOf(details) == AllOf(details)
    decreases |details|
  {
    if details != [] {
      KindsPartitionDetails(details[..|details| - 1]);
    }
  }

  /**
   * Over the year, too, the four per-kind deductions and the skipped ones
   * add up to all the deductions of the months' details; when every detail
   * has a known kind, the four add up to all of them.
   */
  lemma {:induction false} KindsPartitionMonths(months: seq<MonthSummary>)
    ensures KindDeduction(months, "SICK") + KindDeduction(months, "VAB") + KindDeduction(months, "LEAVE")
            + KindDeduction(months, "OFF") + UnknownDeduction(months) == AllDeduction(months)
    decreases |months|
  {
    if months != [] {
      KindsPartitionMonths(months[..|months| - 1]);
      KindsPartitionDetails(months[|months| - 1].absence.details);
    }
  }

  /** With no detail of an unknown kind, nothing is skipped. */
  lemma {:induction false} NoUnknownDetails(details: seq<AbsenceDetail>)
    requires forall i :: 0 <= i < |details| ==> KnownKind(details[i].kind)
    ensures UnknownOf(details) == 0.0
    decreases |details|
  {
    if details != [] {
      NoUnknownDetails(details[..|details| - 1]);
    }
  }

  /** The four per-kind deductions. */
  datatype Deductions = Deductions(sick: real, vab: real, leave: real, off: real)

  function DeductionsOf(months: seq<MonthSummary>): Deductions
  {
    Deductions(KindDeduction(months, "SICK"), KindDeduction(months, "VAB"),
               KindDeduction(months, "LEAVE"), KindDeduction(months, "OFF"))
  }

  /** The loop over the months and their details. */
  method DeductionsByKind(months: seq<MonthSummary>) returns (r: Deductions)
    ensures r == DeductionsOf(months)
  {
    r := Deductions(0.0, 0.0, 0.0, 0.0);
    for i := 0 to |months|
      invariant r == DeductionsOf(months[..i])
    {
      assert months[..i + 1][..i] == months[..i];
      r := AddDetails(r, months[i].absence.details);
    }
    assert months[..|months|] == months;
  }

  /** The inner loop: each detail's deduction goes to its kind; an unknown kind goes nowhere. */
  method AddDetails(acc: Deductions, details: seq<AbsenceDetail>) returns (r: Deductions)
    ensures r == Deductions(acc.sick + KindOf(details, "SICK"), acc.vab + KindOf(details, "VAB"),
                            acc.leave + KindOf(details, "LEAVE"), acc.off + KindOf(details, "OFF"))
  {
    r := acc;
    for j := 0 to |details|
      invariant r == Deductions(acc.sick + KindOf(details[..j], "SICK"), acc.vab + KindOf(details[..j], "VAB"),
                                acc.leave + KindOf(details[..j], "LEAVE"), acc.off + KindOf(details[..j], "OFF"))
    {
      assert details[..j + 1][..j] == details[..j];
      var detail := details[j];
      if detail.kind == "SICK" {
        r := r.(sick := r.sick + detail.deduction);
      } else if detail.kind == "VAB" {
        r := r.(vab := r.vab + detail.deduction);
      } else if detail.kind == "LEAVE" {
        r := r.(leave := r.leave + detail.deduction);
      } else if detail.kind == "OFF" {
        r := r.(off := r.off + detail.deduction);
      }
    }
    assert details[..|details|] == details;
  }

  // ---------------------------------------------------------------------
  // `_build_year_summary`: OB per code
  // ---------------------------------------------------------------------

  /** The codes the year summary lists OB by, in order. */
  const ObCodes: seq<string> := ["OB1", "OB2", "OB3", "OB4", "OB5"]

  const ObCodeSet: set<string> := {"OB1", "OB2", "OB3", "OB4", "OB5"}

  /** The OB seconds of one code over the months. */
  function CodeHours(months: seq<MonthSummary>, c: string): int
    decreases |months|
  {
    if months == [] then 0 else CodeHours(months[..|months| - 1], c) + Ob.Get(months[|months| - 1].totals.obHours, c)
  }

  /** The OB pay of one code over the months. */
  function CodePay(months: seq<MonthSummary>, c: string): real
    decreases |months|
  {
    if months == [] then 0.0 else CodePay(months[..|months| - 1], c) + GetR(months[|months| - 1].totals.obPay, c)
  }

  /** `ob_hours_by_code`: from zero for every listed code, each month's OB seconds merged in, code by code. */
  function HoursByCode(months: seq<MonthSummary>): Ob.Totals
    decreases |months|
  {
    if months == [] then map c | c in ObCodeSet :: 0
    else MergeHours(HoursByCode(months[..|months| - 1]), months[|months| - 1].totals.obHours, ObCodes)
  }

  /** `ob_pay_by_code`: likewise for OB pay. */
  function PayByCode(months: seq<MonthSummary>): Pays
    decreases |months|
  {
    if months == [] then map c | c in ObCodeSet :: 0.0
    else MergePay(PayByCode(months[..|months| - 1]), months[|months| - 1].totals.obPay, ObCodes)
  }

  /** The loop over the months, adding each month's OB of every listed code. */
  method ObByCode(months: seq<MonthSummary>) returns (hours: Ob.Totals, pays: Pays)
    ensures hours == HoursByCode(months) && pays == PayByCode(months)
  {
    hours := map c | c in ObCodeSet :: 0;
    pays := map c | c in ObCodeSet :: 0.0;
    for i := 0 to |months|
      invariant hours == HoursByCode(months[..i]) && pays == PayByCode(months[..i])
    {
      assert months[..i + 1][..i] == months[..i];
      hours, pays := AddMonthOb(hours, pays, months[i]);
    }
    assert months[..|months|] == months;
  }

  /** The inner loop over the listed codes for one month. */
  method AddMonthOb(hours: Ob.Totals, pays: Pays, m: MonthSummary) returns (h: Ob.Totals, p: Pays)
    ensures h == MergeHours(hours, m.totals.obHours, ObCodes)
    ensures p == MergePay(pays, m.totals.obPay, ObCodes)
  {
    h, p := hours, pays;
    for j := 0 to |ObCodes|
      invariant h == MergeHours(hours, m.totals.obHours, ObCodes[..j])
      invariant p == MergePay(pays, m.totals.obPay, ObCodes[..j])
    {
      MergeStep(hours, pays, m.totals.obHours, m.totals.obPay, ObCodes, j);
      var code := ObCodes[j];
      h := Ob.Add(h, code, Ob.Get(m.totals.obHours, code));
      p := AddR(p, code, GetR(m.totals.obPay, code));
    }
    assert ObCodes[..|ObCodes|] == ObCodes;
  }

  /** One more code of the merge loop. */
  lemma MergeStep(hours: Ob.Totals, pays: Pays, addH: Ob.Totals, addP: Pays, cs: seq<string>, j: nat)
    requires j < |cs|
    ensures MergeHours(hours, addH, cs[..j + 1]) == Ob.Add(MergeHours(hours, addH, cs[..j]), cs[j], Ob.Get(addH, cs[j]))
    ensures MergePay(pays, addP, cs[..j + 1]) == AddR(MergePay(pays, addP, cs[..j]), cs[j], GetR(addP, cs[j]))
  {
    assert cs[..j + 1][..j] == cs[..j];
  }

  lemma CodesDistinct()
    ensures Ob.Distinct(ObCodes)
    ensures forall c :: c in ObCodes <==> c in ObCodeSet
  {
  }

  /** Merging the listed codes keeps a map's keys when it has them all. */
  lemma {:induction false} MergeKeys(hours: Ob.Totals, pays: Pays, addH: Ob.Totals, addP: Pays, cs: seq<string>)
    requires forall c :: c in cs ==> c in hours && c in pays
    ensures MergeHours(hours, addH, cs).Keys == hours.Keys
    ensures MergePay(pays, addP, cs).Keys == pays.Keys
    decreases |cs|
  {
    if cs != [] {
      MergeKeys(hours, pays, addH, addP, cs[..|cs| - 1]);
    }
  }

  /** The by-code maps have exactly the five listed codes. */
  lemma {:induction false} ByCodeKeys(months: seq<MonthSummary>)
    ensures HoursByCode(months).Keys == ObCodeSet && PayByCode(months).Keys == ObCodeSet
    decreases |months|
  {
    if months != [] {
      var n := |months| - 1;
      ByCodeKeys(months[..n]);
      CodesDistinct();
      MergeKeys(HoursByCode(months[..n]), PayByCode(months[..n]), months[n].totals.obHours, months[n].totals.obPay, ObCodes);
    }
  }

  /** Each entry of `ob_hours_by_code` is that code's OB seconds summed over the months. */
  lemma {:induction false} HoursPerCode(months: seq<MonthSummary>, c: string)
    requires c in ObCodeSet
    ensures Ob.Get(HoursByCode(months), c) == CodeHours(months, c)
    decreases |months|
  {
    if months != [] {
      var n := |months| - 1;
      HoursPerCode(months[..n], c);
      CodesDistinct();
      MergeHoursGet(HoursByCode(months[..n]), months[n].totals.obHours, ObCodes, c);
    }
  }

  /** Each entry of `ob_pay_by_code` is that code's OB pay summed over the months. */
  lemma {:induction false} PayPerCode(months: seq<MonthSummary>, c: string)
    requires c in ObCodeSet
    ensures GetR(PayByCode(months), c) == CodePay(months, c)
    decreases |months|
  {
    if months != [] {
      var n := |months| - 1;
      PayPerCode(months[..n], c);
      CodesDistinct();
      MergePayGet(PayByCode(months[..n]), months[n].totals.obPay, ObCodes, c);
    }
  }

  /** Pay merging adds each listed code's value and leaves every other code alone. */
  lemma {:induction false} MergePayGet(acc: Pays, add: Pays, cs: seq<string>, c: string)
    requires Ob.Distinct(cs)
    ensures GetR(MergePay(acc, add, cs), c) == GetR(acc, c) + (if c in cs then GetR(add, c) else 0.0)
    decreases |cs|
  {
    if cs != [] {
      var n := |cs| - 1;
      assert forall i, j :: 0 <= i < j < n ==> cs[..n][i] != cs[..n][j];
      assert cs == cs[..n] + [cs[n]];
      if c == cs[n] {
        assert c !in cs[..n];
        MergePayOther(acc, add, cs[..n], c);
      } else {
        MergePayGet(acc, add, cs[..n], c);
      }
    }
  }

  /** The OB seconds of the listed codes, month by month, added up. */
  function MonthsObHours(months: seq<MonthSummary>): int
    decreases |months|
  {
    if months == [] then 0 else MonthsObHours(months[..|months| - 1]) + Ob.SumOver(months[|months| - 1].totals.obHours, ObCodes)
  }

  /** The OB pay of the listed codes, month by month, added up. */
  function MonthsObPay(months: seq<MonthSummary>): real
    decreases |months|
  {
    if months == [] then 0.0 else MonthsObPay(months[..|months| - 1]) + SumPay(months[|months| - 1].totals.obPay, ObCodes)
  }

  /** Sums over codes add up pointwise. */
  lemma {:induction false} SumOverPointwise(x: Ob.Totals, y: Ob.Totals, z: Ob.Totals, cs: seq<string>)
    requires forall c :: c in cs ==> Ob.Get(z, c) == Ob.Get(x, c) + Ob.Get(y, c)
    ensures Ob.SumOver(z, cs) == Ob.SumOver(x, cs) + Ob.SumOver(y, cs)
    decreases |cs|
  {
    if cs != [] {
      SumOverPointwise(x, y, z, cs[1..]);
    }
  }

  /**
   * `total_ob_hours`, the sum of the by-code hours, is the months' OB
   * seconds of the listed codes added up.
   */
  lemma {:induction false} TotalObHoursIsMonths(months: seq<MonthSummary>)
    ensures Ob.SumOver(HoursByCode(months), ObCodes) == MonthsObHours(months)
    decreases |months|
  {
    if months == [] {
      Ob.SumOverZero(HoursByCode(months), ObCodes);
    } else {
      var n := |months| - 1;
      TotalObHoursIsMonths(months[..n]);
      CodesDistinct();
      var before := HoursByCode(months[..n]);
      forall c | c in ObCodes
        ensures Ob.Get(HoursByCode(months), c) == Ob.Get(before, c) + Ob.Get(months[n].totals.obHours, c)
      {
        MergeHoursGet(before, months[n].totals.obHours, ObCodes, c);
      }
      SumOverPointwise(before, months[n].totals.obHours, HoursByCode(months), ObCodes);
    }
  }

  lemma {:induction false} SumPayZeros(m: Pays, cs: seq<string>)
    requires forall c :: c in cs ==> GetR(m, c) == 0.0
    ensures SumPay(m, cs) == 0.0
    decreases |cs|
  {
    if cs != [] {
      SumPayZeros(m, cs[..|cs| - 1]);
    }
  }

  /** The sum of the by-code pay is the months' OB pay of the listed codes added up. */
  lemma {:induction false} ObPayByCodeIsMonths(months: seq<MonthSummary>)
    ensures SumPay(PayByCode(months), ObCodes) == MonthsObPay(months)
    decreases |months|
  {
    if months == [] {
      SumPayZeros(PayByCode(months), ObCodes);
    } else {
      var n := |months| - 1;
      ObPayByCodeIsMonths(months[..n]);
      CodesDistinct();
      MergePaySum(PayByCode(months[..n]), months[n].totals.obPay, ObCodes);
    }
  }

  /**
   * When every month's `total_ob` is its OB pay of the listed codes (as the
   * year view sets it), the year's `total_ob` equals the sum of
   * `ob_pay_by_code`.
   */
  lemma {:induction false} YearTotalObAgrees(months: seq<MonthSummary>)
    requires forall i :: 0 <= i < |months| ==> months[i].totalOb == Some(SumPay(months[i].totals.obPay, ObCodes))
    ensures TotalOf(months, MonthFigures).ob == SumPay(PayByCode(months), ObCodes)
  {
    TotalObIsMonthsObPay(months);
    ObPayByCodeIsMonths(months);
  }

  lemma {:induction false} TotalObIsMonthsObPay(months: seq<MonthSummary>)
    requires forall i :: 0 <= i < |months| ==> months[i].totalOb == Some(SumPay(months[i].totals.obPay, ObCodes))
    ensures TotalOf(months, MonthFigures).ob == MonthsObPay(months)
    decreases |months|
  {
    if months != [] {
      TotalObIsMonthsObPay(months[..|months| - 1]);
    }
  }

  // ---------------------------------------------------------------------
  // The year summary
  // ---------------------------------------------------------------------

  datatype YearSummary = YearSummary(
    totals: Figures,
    deductions: Deductions,
    averages: Averages,
    obHoursByCode: Ob.Totals,
    obPayByCode: Pays,
    totalObHours: int)

  /** `_build_year_summary`. */
  function YearSummaryOf(months: seq<MonthSummary>): YearSummary
  {
    var t := TotalOf(months, MonthFigures);
    var hours := HoursByCode(months);
    YearSummary(t, DeductionsOf(months), AveragesOf(t, Divisor(months)), hours, PayByCode(months), Ob.SumOver(hours, ObCodes))
  }

  /** `_build_year_summary`, with its two loops. */
  method BuildYearSummary(months: seq<MonthSummary>) returns (y: YearSummary)
    ensures y == YearSummaryOf(months)
  {
    var t := TotalOf(months, MonthFigures);
    var deductions := DeductionsByKind(months);
    var hours, pays := ObByCode(months);
    y := YearSummary(t, deductions, AveragesOf(t, Divisor(months)), hours, pays, Ob.SumOver(hours, ObCodes));
  }

  // ---------------------------------------------------------------------
  // `summarize_year_for_person`
  // ---------------------------------------------------------------------

  /** A month summary with its `total_ob` set to its OB pay of the listed codes. */
  function WithTotalOb(m: MonthSummary): (r: MonthSummary)
    ensures r.totalOb == Some(SumPay(r.totals.obPay, ObCodes))
    ensures r == m.(totalOb := r.totalOb)
  {
    m.(totalOb := Some(SumPay(m.totals.obPay, ObCodes)))
  }

  /** The year view's months 1 to `k`, in order. */
  function YearMonths(year: int, personId: int, days: seq<DayRecord>, rules: seq<ObRule>,
                      wageOn: int -> real, absenceIn: int -> Option<AbsenceInfo>, tax: TaxSource, k: nat): (r: seq<MonthSummary>)
    requires Ob.AllWellFormed(rules)
    ensures |r| == k
    ensures forall i :: 0 <= i < k ==> r[i].totalOb == Some(SumPay(r[i].totals.obPay, ObCodes))
  {
    if k == 0 then []
    else YearMonths(year, personId, days, rules, wageOn, absenceIn, tax, k - 1)
         + [WithTotalOb(MonthSummaryOf(year, k, personId, days, rules, wageOn(k), absenceIn(k), tax))]
  }

  /** `summarize_year_for_person`: months 1 to 12 in order, then the year summary built from them. */
  method SummarizeYear(year: int, personId: int, days: seq<DayRecord>, baseOb: seq<ObRule>,
                       wageOn: int -> real, absenceIn: int -> Option<AbsenceInfo>, tax: TaxSource)
    returns (months: seq<MonthSummary>, summary: YearSummary)
    requires Ob.AllWellFormed(baseOb)
    ensures Ob.AllWellFormed(Ob.CombinedRules(baseOb, year))
    ensures months == YearMonths(year, personId, days, Ob.CombinedRules(baseOb, year), wageOn, absenceIn, tax, 12)
    ensures summary == YearSummaryOf(months)
  {
    Ob.CombinedRulesWellFormed(baseOb, year);
    months := [];
    for month := 1 to 13
      invariant months == YearMonths(year, personId, days, Ob.CombinedRules(baseOb, year), wageOn, absenceIn, tax, month - 1)
    {
      var m := SummarizeYearMonth(year, month, personId, days, baseOb, wageOn, absenceIn, tax);
      months := months + [m];
    }
    summary := BuildYearSummary(months);
  }

  /** One turn of the loop: the month summary, then its `total_ob`. */
  method SummarizeYearMonth(year: int, month: int, personId: int, days: seq<DayRecord>, baseOb: seq<ObRule>,
                            wageOn: int -> real, absenceIn: int -> Option<AbsenceInfo>, tax: TaxSource)
    returns (m: MonthSummary)
    requires Ob.AllWellFormed(baseOb)
    ensures Ob.AllWellFormed(Ob.CombinedRules(baseOb, year))
    ensures m == WithTotalOb(MonthSummaryOf(year, month, personId, days, Ob.CombinedRules(baseOb, year), wageOn(month), absenceIn(month), tax))
  {
    m := SummarizeMonth(year, month, personId, days, baseOb, wageOn(month), absenceIn(month), tax);
    var totalOb := SumPay(m.totals.obPay, ObCodes);
    m := m.(totalOb := Some(totalOb));
  }

  /**
   * In the year view, the year's `total_ob` (the sum of the months'
   * `total_ob`) equals the sum of `ob_pay_by_code`, and `total_ob_hours`
   * is the months' OB seconds added up.
   */
  lemma YearObConsistent(year: int, personId: int, days: seq<DayRecord>, rules: seq<ObRule>,
                         wageOn: int -> real, absenceIn: int -> Option<AbsenceInfo>, tax: TaxSource, months: seq<MonthSummary>)
    requires Ob.AllWellFormed(rules)
    requires months == YearMonths(year, personId, days, rules, wageOn, absenceIn, tax, 12)
    ensures YearSummaryOf(months).totals.ob == SumPay(YearSummaryOf(months).obPayByCode, ObCodes)
    ensures YearSummaryOf(months).totalObHours == MonthsObHours(months)
  {
    YearTotalObAgrees(months);
    TotalObHoursIsMonths(months);
  }
}
