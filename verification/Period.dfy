/*
 * The schedule for a period: which shift each position shows on each date
 * and, for a single person, the day's OB hours, on-call pay and overtime
 * pay. A day is decided by a fixed precedence: before employment, absence,
 * vacation, swap, rotation; an on-call override and same-day overtime then
 * change what is shown. On-call pay on a day with overtime is split around
 * the overtime span.
 *
 * The database rows the batch queries fetch are the maps of `Records`.
 */
module Period {
  import opened Wrappers
  import opened Calendar
  import opened Models
  import opened TimeText
  import opened ScheduleCore
  import Ob
  import OnCall
  import OnCallRules
  import OnCallPay
  import Arith

  const VacationCode: string := "SEM"
  const MaxPersons: int := 10

  // ---------------------------------------------------------------------
  // Inputs
  // ---------------------------------------------------------------------

  datatype AbsenceType = VacationAbsence | OtherAbsence(code: string)

  datatype OverrideType = AddOncall | RemoveOncall

  /** An overtime row: the date it is registered on, its clock times as stored, its hours. */
  datatype OtShift = OtShift(date: Date, startTime: TimeValue, endTime: TimeValue, hours: real, isExtension: bool)

  /**
   * The fetched rows, keyed by (position, date): the current holder's
   * employment start per position, absences, vacation dates, swapped shift
   * codes, on-call overrides and overtime shifts.
   */
  datatype Records = Records(
    employedFrom: map<int, Date>,
    absences: map<(int, Date), AbsenceType>,
    vacationDates: map<int, set<Date>>,
    swaps: map<(int, Date), string>,
    overrides: map<(int, Date), OverrideType>,
    otShifts: map<(int, Date), OtShift>)

  function Lookup<K, V>(m: map<K, V>, k: K): (r: Option<V>)
    ensures r.Some? <==> k in m
    ensures r.Some? ==> r.value == m[k]
  {
    if k in m then Some(m[k]) else None
  }

  /**
   * Every configured shift type but "OFF" has "%H:%M" times, so
   * `calculate_shift_hours` does not raise for a shift the schedule shows.
   */
  predicate ShiftTimesOk(types: seq<ShiftType>)
  {
    forall i :: 0 <= i < |types| && types[i].code != "OFF" ==>
      StrptimeHM(types[i].startTime).Some? && StrptimeHM(types[i].endTime).Some?
  }

  /** `calculate_shift_hours(date, code)` on a configuration whose times parse. */
  function SpanOf(types: seq<ShiftType>, date: Date, code: string): (r: ShiftSpan)
    requires ShiftTimesOk(types)
    ensures r.start.Some? ==>
      && r.end.Some?
      && r.seconds == r.end.value - r.start.value
      && 0 < r.seconds <= SecondsPerDay
      && At(date, 0) <= r.start.value < At(date + 1, 0)
    ensures r.start.None? ==> r == NoSpan
  {
    var found := FindShiftType(types, code);
    assert found.Some? && code != "OFF" ==> StrptimeHM(found.value.startTime).Some? && StrptimeHM(found.value.endTime).Some?;
    ShiftHours(types, date, ShiftCode(code)).value
  }

  // ---------------------------------------------------------------------
  // The shown shift
  // ---------------------------------------------------------------------

  /** The shift a day shows, with its hours and its start and end instants. */
  datatype Shown = Shown(shift: Option<ShiftType>, hours: real, start: Option<int>, end: Option<int>)

  /** A shift shown without working hours. */
  function Idle(shift: Option<ShiftType>): Shown
  {
    Shown(shift, 0.0, None, None)
  }

  /** A worked shift: its hours and instants from the shift type's times. */
  function Worked(types: seq<ShiftType>, date: Date, shift: ShiftType): (r: Shown)
    requires ShiftTimesOk(types)
    ensures r.shift == Some(shift)
    ensures r.start.Some? ==> r.end.Some? && r.start.value < r.end.value && r.hours > 0.0
  {
    var span := SpanOf(types, date, shift.code);
    Shown(Some(shift), span.seconds as real / 3600.0, span.start, span.end)
  }

  /** The resolver's shift and week, `(None, None)` before the rotation starts. */
  function SlotShift(slot: RotationSlot): Option<ShiftType>
  {
    if slot.InRotation? then slot.shift else None
  }

  function SlotWeek(slot: RotationSlot): Option<int>
  {
    if slot.InRotation? then Some(slot.week) else None
  }

  predicate BeforeEmployment(rec: Records, pid: int, date: Date)
  {
    pid in rec.employedFrom && date < rec.employedFrom[pid]
  }

  /** The shift of an absence: "SEM" for vacation, the type's own code otherwise; None when not configured. */
  function AbsenceShift(types: seq<ShiftType>, rec: Records, pid: int, date: Date): Option<ShiftType>
  {
    if (pid, date) !in rec.absences then None
    else
      match rec.absences[(pid, date)]
      case VacationAbsence => FindShiftType(types, VacationCode)
      case OtherAbsence(code) => FindShiftType(types, code)
  }

  predicate OnVacation(types: seq<ShiftType>, rec: Records, pid: int, date: Date)
  {
    FindShiftType(types, VacationCode).Some? && pid in rec.vacationDates && date in rec.vacationDates[pid]
  }

  /** The shift a swap gives, for the week view: a non-empty code naming a configured type. */
  function SwapShift(types: seq<ShiftType>, rec: Records, pid: int, date: Date): Option<ShiftType>
  {
    match Lookup(rec.swaps, (pid, date))
    case None => None
    case Some(code) => if code != "" then FindShiftType(types, code) else None
  }

  /** Whether an on-call override changes the shift: ADD when "OC" is configured, REMOVE on an OC day when "OFF" is. */
  predicate OverrideApplies(types: seq<ShiftType>, ov: OverrideType, shift: Option<ShiftType>)
  {
    match ov
    case AddOncall => FindShiftType(types, "OC").Some?
    case RemoveOncall => shift.Some? && shift.value.code == "OC" && FindShiftType(types, "OFF").Some?
  }

  function OverrideTarget(types: seq<ShiftType>, ov: OverrideType): Option<ShiftType>
  {
    match ov
    case AddOncall => FindShiftType(types, "OC")
    case RemoveOncall => FindShiftType(types, "OFF")
  }

  /**
   * The on-call override applied to the shown shift: ADD shows "OC" with
   * no hours whenever that type is configured; REMOVE turns an OC day into
   * OFF and leaves every other shift as it was.
   */
  function ApplyOverride(types: seq<ShiftType>, ov: Option<OverrideType>, s: Shown): (r: Shown)
    ensures ov == Some(AddOncall) && FindShiftType(types, "OC").Some? ==>
      r.shift.Some? && r.shift.value.code == "OC" && r.hours == 0.0 && r.start.None? && r.end.None?
    ensures ov == Some(RemoveOncall) && s.shift.Some? && s.shift.value.code == "OC" && FindShiftType(types, "OFF").Some? ==>
      r.shift.Some? && r.shift.value.code == "OFF" && r.hours == 0.0 && r.start.None? && r.end.None?
    ensures ov == Some(RemoveOncall) && (s.shift.None? || s.shift.value.code != "OC") ==> r == s
    ensures ov.None? ==> r == s
  {
    if ov.Some? && OverrideApplies(types, ov.value, s.shift) then Idle(OverrideTarget(types, ov.value)) else s
  }

  /**
   * The overtime that affects on-call: the day's own, otherwise the
   * previous day's when its times parse and its end falls after midnight.
   */
  function OtForOncall(rec: Records, pid: int, date: Date): Option<OtShift>
  {
    match Lookup(rec.otShifts, (pid, date))
    case Some(ot) => Some(ot)
    case None =>
      match Lookup(rec.otShifts, (pid, date - 1))
      case None => None
      case Some(prev) =>
        match ParseOtTimes(prev.startTime, prev.endTime, date - 1)
        case Err(_) => None
        case Ok(times) => if times.1 / SecondsPerDay > date - 1 then Some(prev) else None
  }

  /**
   * Overtime on the day itself, unless it extends the shift, is shown as
   * the "OT" shift with the overtime's hours and parsed times; an
   * extension, or no overtime on the day, leaves the shift shown.
   */
  function ShowOt(types: seq<ShiftType>, ot: Option<OtShift>, date: Date, s: Shown): (r: Shown)
    ensures ot.Some? && !ot.value.isExtension && FindShiftType(types, "OT").Some? ==>
      && r.shift.Some? && r.shift.value.code == "OT" && r.hours == ot.value.hours
      && (r.start.Some? <==> ParseOtTimes(ot.value.startTime, ot.value.endTime, date).Ok?)
      && (r.start.Some? ==> r.end.Some? && At(date, 0) <= r.start.value < r.end.value <= r.start.value + SecondsPerDay)
    ensures ot.None? || ot.value.isExtension ==> r == s
  {
    if ot.Some? && !ot.value.isExtension && FindShiftType(types, "OT").Some? then
      var times := ParseOtTimes(ot.value.startTime, ot.value.endTime, date);
      Shown(FindShiftType(types, "OT"), ot.value.hours,
            if times.Ok? then Some(times.value.0) else None,
            if times.Ok? then Some(times.value.1) else None)
    else s
  }

  // ---------------------------------------------------------------------
  // _build_person_day_basic
  // ---------------------------------------------------------------------

  /** One position's day in the all-positions view. */
  datatype BasicDay = BasicDay(
    personId: int,
    shown: Shown,
    originalShift: Option<ShiftType>,
    rotationWeek: Option<int>,
    beforeEmployment: bool,
    otForOncall: Option<OtShift>)

  function BasicDayFor(cfg: ScheduleConfig, rec: Records, pid: int, date: Date): (r: BasicDay)
    requires ValidPattern(cfg.rotation) && ShiftTimesOk(cfg.shiftTypes)
    ensures r.personId == pid
  {
    var types := cfg.shiftTypes;
    var slot := DetermineShift(cfg, date, pid);
    if BeforeEmployment(rec, pid, date) then
      BasicDay(pid, Idle(FindShiftType(types, "OFF")), SlotShift(slot), SlotWeek(slot), true, None)
    else if AbsenceShift(types, rec, pid, date).Some? then
      BasicDay(pid, Idle(AbsenceShift(types, rec, pid, date)), SlotShift(slot), SlotWeek(slot), false, None)
    else if OnVacation(types, rec, pid, date) then
      BasicDay(pid, Idle(FindShiftType(types, VacationCode)), SlotShift(slot), SlotWeek(slot), false, None)
    else if SwapShift(types, rec, pid, date).Some? then
      BasicDay(pid, Worked(types, date, SwapShift(types, rec, pid, date).value), SlotShift(slot), SlotWeek(slot), false, None)
    else
      var rotation := if slot.InRotation? && slot.shift.Some? then Worked(types, date, slot.shift.value) else Idle(None);
      var week := if slot.InRotation? && slot.shift.Some? then Some(slot.week) else None;
      var shown := ShowOt(types, Lookup(rec.otShifts, (pid, date)), date,
                          ApplyOverride(types, Lookup(rec.overrides, (pid, date)), rotation));
      BasicDay(pid, shown, rotation.shift, week, false, OtForOncall(rec, pid, date))
  }

  /** The day the rotation alone gives, before any override. */
  function RotationShown(cfg: ScheduleConfig, pid: int, date: Date): Shown
    requires ValidPattern(cfg.rotation) && ShiftTimesOk(cfg.shiftTypes)
  {
    var slot := DetermineShift(cfg, date, pid);
    if slot.InRotation? && slot.shift.Some? then Worked(cfg.shiftTypes, date, slot.shift.value) else Idle(None)
  }

  /**
   * The precedence of the week view: before employment the day shows OFF;
   * then an absence, a vacation date and a swap each decide the day
   * outright, with no hours except a swapped shift's own; only a plain
   * rotation day gets the on-call override and the overtime.
   */
  lemma BasicPrecedence(cfg: ScheduleConfig, rec: Records, pid: int, date: Date)
    requires ValidPattern(cfg.rotation) && ShiftTimesOk(cfg.shiftTypes)
    ensures var d := BasicDayFor(cfg, rec, pid, date);
      var types := cfg.shiftTypes;
      var slot := DetermineShift(cfg, date, pid);
      && d.personId == pid
      && (d.beforeEmployment <==> BeforeEmployment(rec, pid, date))
      && (BeforeEmployment(rec, pid, date) ==> d.shown == Idle(FindShiftType(types, "OFF")))
      && (!BeforeEmployment(rec, pid, date) && AbsenceShift(types, rec, pid, date).Some? ==>
            d.shown == Idle(AbsenceShift(types, rec, pid, date)))
      && (!BeforeEmployment(rec, pid, date) && AbsenceShift(types, rec, pid, date).None?
          && OnVacation(types, rec, pid, date) ==>
            d.shown == Idle(FindShiftType(types, VacationCode)))
      && (!BeforeEmployment(rec, pid, date) && AbsenceShift(types, rec, pid, date).None?
          && !OnVacation(types, rec, pid, date) && SwapShift(types, rec, pid, date).Some? ==>
            d.shown == Worked(types, date, SwapShift(types, rec, pid, date).value))
      && (!BeforeEmployment(rec, pid, date) && AbsenceShift(types, rec, pid, date).None?
          && !OnVacation(types, rec, pid, date) && SwapShift(types, rec, pid, date).None? ==>
            && d.originalShift == RotationShown(cfg, pid, date).shift
            && d.shown == ShowOt(types, Lookup(rec.otShifts, (pid, date)), date,
                                 ApplyOverride(types, Lookup(rec.overrides, (pid, date)), RotationShown(cfg, pid, date))))
      && (d.beforeEmployment || AbsenceShift(types, rec, pid, date).Some? || OnVacation(types, rec, pid, date)
          || SwapShift(types, rec, pid, date).Some? ==>
            d.originalShift == SlotShift(slot) && d.rotationWeek == SlotWeek(slot) && d.otForOncall.None?)
  {
  }

  /**
   * The shift the resolver settled on does not depend on the on-call
   * overrides or the overtime rows: they change only what is shown.
   */
  lemma BasicOriginalIgnoresOverrides(cfg: ScheduleConfig, rec: Records, pid: int, date: Date,
                                      overrides: map<(int, Date), OverrideType>, ots: map<(int, Date), OtShift>)
    requires ValidPattern(cfg.rotation) && ShiftTimesOk(cfg.shiftTypes)
    ensures var d := BasicDayFor(cfg, rec, pid, date);
      var d' := BasicDayFor(cfg, rec.(overrides := overrides, otShifts := ots), pid, date);
      d'.originalShift == d.originalShift && d'.rotationWeek == d.rotationWeek
  {
    var rec' := rec.(overrides := overrides, otShifts := ots);
    var types := cfg.shiftTypes;
    assert BeforeEmployment(rec', pid, date) == BeforeEmployment(rec, pid, date);
    assert AbsenceShift(types, rec', pid, date) == AbsenceShift(types, rec, pid, date);
    assert OnVacation(types, rec', pid, date) == OnVacation(types, rec, pid, date);
    assert SwapShift(types, rec', pid, date) == SwapShift(types, rec, pid, date);
  }

  /**
   * The overtime considered for on-call is the day's own whenever there is
   * one; a previous day's overtime counts only when its times parse and it
   * ends after midnight.
   */
  lemma OtForOncallSpec(rec: Records, pid: int, date: Date)
    ensures (pid, date) in rec.otShifts ==> OtForOncall(rec, pid, date) == Some(rec.otShifts[(pid, date)])
    ensures (pid, date) !in rec.otShifts ==>
      (OtForOncall(rec, pid, date).Some? <==>
        && (pid, date - 1) in rec.otShifts
        && var prev := rec.otShifts[(pid, date - 1)];
           var times := ParseOtTimes(prev.startTime, prev.endTime, date - 1);
           times.Ok? && times.value.1 >= At(date, 0))
  {
    if (pid, date) !in rec.otShifts && (pid, date - 1) in rec.otShifts {
      var prev := rec.otShifts[(pid, date - 1)];
      var times := ParseOtTimes(prev.startTime, prev.endTime, date - 1);
      if times.Ok? {
        Arith.DivBounds(times.value.1, SecondsPerDay, date);
      }
    }
  }

  // ---------------------------------------------------------------------
  // _recalculate_oncall_before_ot
  // ---------------------------------------------------------------------

  /** One paid on-call stretch: its bounds, its paid seconds and its pay. */
  datatype PeriodPart = PeriodPart(start: int, end: int, seconds: int, pay: real)

  /** On-call paid around overtime: the stretches before and after it and their merged breakdown. */
  datatype OncallSplit = OncallSplit(totalPay: real, totalSeconds: int, periods: seq<PeriodPart>, breakdown: seq<OnCallPay.Entry>)

  /** A day's on-call details: none, the whole day, the day split around overtime, or overtime that did not parse. */
  datatype OncallDetails = NoOncall | WholeDay(day: OnCallPay.DayPay) | AroundOt(split: OncallSplit) | OtUnparsed

  /** Merging one period's entry: a new code is appended, a known one adds its seconds and pay. */
  function MergeEntry(bd: seq<OnCallPay.Entry>, e: OnCallPay.Entry): seq<OnCallPay.Entry>
  {
    match OnCallPay.FindCode(bd, e.code)
    case None => bd + [e]
    case Some(i) => bd[i := bd[i].(seconds := bd[i].seconds + e.seconds, pay := bd[i].pay + e.pay)]
  }

  function MergeAll(bd: seq<OnCallPay.Entry>, es: seq<OnCallPay.Entry>): seq<OnCallPay.Entry>
    decreases |es|
  {
    if es == [] then bd else MergeEntry(MergeAll(bd, es[..|es| - 1]), es[|es| - 1])
  }

  lemma MergeEntryTotals(bd: seq<OnCallPay.Entry>, e: OnCallPay.Entry)
    ensures OnCallPay.SumReal(MergeEntry(bd, e), OnCallPay.Pay) == OnCallPay.SumReal(bd, OnCallPay.Pay) + e.pay
    ensures OnCallPay.SumInt(MergeEntry(bd, e), OnCallPay.Seconds) == OnCallPay.SumInt(bd, OnCallPay.Seconds) + e.seconds
    ensures OnCallPay.DistinctCodes(bd) ==> OnCallPay.DistinctCodes(MergeEntry(bd, e))
  {
    var found := OnCallPay.FindCode(bd, e.code);
    if found.Some? {
      var i := found.value;
      var e' := bd[i].(seconds := bd[i].seconds + e.seconds, pay := bd[i].pay + e.pay);
      assert MergeEntry(bd, e) == bd[i := e'];
      OnCallPay.SumIntUpdate(bd, i, e', OnCallPay.Seconds);
      OnCallPay.SumRealUpdate(bd, i, e', OnCallPay.Pay);
      assert forall j :: 0 <= j < |bd| ==> bd[i := e'][j].code == bd[j].code;
    } else {
      assert MergeEntry(bd, e) == bd + [e];
      OnCallPay.SumIntSnoc(bd, e, OnCallPay.Seconds);
      OnCallPay.SumRealSnoc(bd, e, OnCallPay.Pay);
      assert forall j :: 0 <= j < |bd| ==> (bd + [e])[j] == bd[j];
    }
  }

  /** Merging a breakdown adds its seconds and pay to the totals and keeps one entry per code. */
  lemma {:induction false} MergeAllTotals(bd: seq<OnCallPay.Entry>, es: seq<OnCallPay.Entry>)
    ensures OnCallPay.SumReal(MergeAll(bd, es), OnCallPay.Pay) == OnCallPay.SumReal(bd, OnCallPay.Pay) + OnCallPay.SumReal(es, OnCallPay.Pay)
    ensures OnCallPay.SumInt(MergeAll(bd, es), OnCallPay.Seconds) == OnCallPay.SumInt(bd, OnCallPay.Seconds) + OnCallPay.SumInt(es, OnCallPay.Seconds)
    ensures OnCallPay.DistinctCodes(bd) ==> OnCallPay.DistinctCodes(MergeAll(bd, es))
    decreases |es|
  {
    if es != [] {
      var n := |es| - 1;
      MergeAllTotals(bd, es[..n]);
      MergeEntryTotals(MergeAll(bd, es[..n]), es[n]);
    }
  }

  /** Adding one paid stretch: its pay and seconds, its period entry, its breakdown merged in. */
  function AddPart(acc: OncallSplit, start: int, end: int, p: OnCallPay.PeriodPay): OncallSplit
  {
    OncallSplit(acc.totalPay + p.totalPay, acc.totalSeconds + p.totalSeconds,
                acc.periods + [PeriodPart(start, end, p.totalSeconds, p.totalPay)],
                MergeAll(acc.breakdown, p.breakdown))
  }

  /** On-call for [00:00, overtime start) when the overtime starts after midnight, and for [overtime end, 24:00) when it ends before the next midnight. */
  function SplitAroundOt(date: Date, otStart: int, otEnd: int, salary: int, rules: seq<OnCallRule>): OncallSplit
    requires OnCall.AllOcWellFormed(rules) && OnCallPay.RatesSet(rules)
  {
    var dayStart := At(date, 0);
    var dayEnd := At(date + 1, 0);
    var none := OncallSplit(0.0, 0, [], []);
    var before := if otStart > dayStart then AddPart(none, dayStart, otStart, OnCallPay.OncallPeriod(dayStart, otStart, salary, rules)) else none;
    if otEnd < dayEnd then AddPart(before, otEnd, dayEnd, OnCallPay.OncallPeriod(otEnd, dayEnd, salary, rules)) else before
  }

  function Max0(x: int): int
  {
    if x > 0 then x else 0
  }

  /** A split whose pay is its breakdown's pay, whose breakdown has one entry per code and covers at most its seconds. */
  predicate SplitConsistent(r: OncallSplit)
  {
    && r.totalPay == OnCallPay.SumReal(r.breakdown, OnCallPay.Pay)
    && 0 <= OnCallPay.SumInt(r.breakdown, OnCallPay.Seconds) <= r.totalSeconds
    && OnCallPay.DistinctCodes(r.breakdown)
  }

  /** Adding a consistent stretch keeps a split consistent and adds its seconds. */
  lemma AddPartConsistent(acc: OncallSplit, start: int, end: int, p: OnCallPay.PeriodPay)
    requires SplitConsistent(acc)
    requires p.totalPay == OnCallPay.SumReal(p.breakdown, OnCallPay.Pay)
    requires 0 <= OnCallPay.SumInt(p.breakdown, OnCallPay.Seconds) <= p.totalSeconds
    ensures SplitConsistent(AddPart(acc, start, end, p))
    ensures AddPart(acc, start, end, p).totalSeconds == acc.totalSeconds + p.totalSeconds
    ensures |AddPart(acc, start, end, p).periods| == |acc.periods| + 1
  {
    MergeAllTotals(acc.breakdown, p.breakdown);
  }

  /**
   * On-call is paid only outside the overtime: the paid seconds are the
   * stretch before the overtime plus the stretch after it, the total pay is
   * the sum of the merged breakdown, and the breakdown keeps one entry per
   * code and never covers more than the paid seconds.
   */
  lemma SplitAroundOtSpec(date: Date, otStart: int, otEnd: int, salary: int, rules: seq<OnCallRule>)
    requires OnCall.AllOcWellFormed(rules) && OnCallPay.RatesSet(rules)
    ensures var r := SplitAroundOt(date, otStart, otEnd, salary, rules);
      && r.totalSeconds == Max0(otStart - At(date, 0)) + Max0(At(date + 1, 0) - otEnd)
      && SplitConsistent(r)
      && |r.periods| == (if otStart > At(date, 0) then 1 else 0) + (if otEnd < At(date + 1, 0) then 1 else 0)
  {
    var dayStart := At(date, 0);
    var dayEnd := At(date + 1, 0);
    var none := OncallSplit(0.0, 0, [], []);
    var p1 := OnCallPay.OncallPeriod(dayStart, otStart, salary, rules);
    var p2 := OnCallPay.OncallPeriod(otEnd, dayEnd, salary, rules);
    OnCallPay.OncallPeriodSpec(dayStart, otStart, salary, rules);
    OnCallPay.OncallPeriodSpec(otEnd, dayEnd, salary, rules);
    assert SplitConsistent(none);
    AddPartConsistent(none, dayStart, otStart, p1);
    var before := if otStart > dayStart then AddPart(none, dayStart, otStart, p1) else none;
    AddPartConsistent(before, otEnd, dayEnd, p2);
  }

  /** Overtime inside the day leaves the rest of the 24 hours paid as on-call. */
  lemma SplitInsideDay(date: Date, otStart: int, otEnd: int, salary: int, rules: seq<OnCallRule>)
    requires OnCall.AllOcWellFormed(rules) && OnCallPay.RatesSet(rules)
    requires At(date, 0) <= otStart <= otEnd <= At(date + 1, 0)
    ensures SplitAroundOt(date, otStart, otEnd, salary, rules).totalSeconds == SecondsPerDay - (otEnd - otStart)
  {
    SplitAroundOtSpec(date, otStart, otEnd, salary, rules);
  }

  /**
   * `_recalculate_oncall_before_ot` with `rules` the on-call rules of the
   * date's year: nothing when the overtime's times do not parse on its own
   * date, otherwise on-call around the overtime.
   */
  function RecalcOncall(date: Date, ot: OtShift, salary: int, rules: seq<OnCallRule>): (r: (real, OncallDetails))
    requires OnCall.AllOcWellFormed(rules) && OnCallPay.RatesSet(rules)
    ensures ParseOtTimes(ot.startTime, ot.endTime, ot.date).Err? ==> r == (0.0, OtUnparsed)
    ensures ParseOtTimes(ot.startTime, ot.endTime, ot.date).Ok? ==> r.1.AroundOt? && r.0 == r.1.split.totalPay
  {
    match ParseOtTimes(ot.startTime, ot.endTime, ot.date)
    case Err(_) => (0.0, OtUnparsed)
    case Ok(times) =>
      var split := SplitAroundOt(date, times.0, times.1, salary, rules);
      (split.totalPay, AroundOt(split))
  }

  /** The breakdown merge loop, entry by entry. */
  method MergeBreakdown(bd: seq<OnCallPay.Entry>, es: seq<OnCallPay.Entry>) returns (r: seq<OnCallPay.Entry>)
    ensures r == MergeAll(bd, es)
  {
    r := bd;
    for k := 0 to |es|
      invariant r == MergeAll(bd, es[..k])
    {
      assert es[..k + 1][..k] == es[..k];
      match OnCallPay.FindCode(r, es[k].code)
      case None =>
        r := r + [es[k]];
      case Some(i) =>
        r := r[i := r[i].(seconds := r[i].seconds + es[k].seconds, pay := r[i].pay + es[k].pay)];
    }
    assert es[..|es|] == es;
  }

  /** One stretch priced, added to the totals and the period list, and merged into the breakdown. */
  method AddStretch(acc: OncallSplit, start: int, end: int, salary: int, rules: seq<OnCallRule>) returns (r: OncallSplit)
    requires OnCall.AllOcWellFormed(rules) && OnCallPay.RatesSet(rules)
    ensures r == AddPart(acc, start, end, OnCallPay.OncallPeriod(start, end, salary, rules))
  {
    var p := OnCallPay.CalculateOncallPayForPeriod(start, end, salary, rules);
    var breakdown := MergeBreakdown(acc.breakdown, p.breakdown);
    r := OncallSplit(acc.totalPay + p.totalPay, acc.totalSeconds + p.totalSeconds,
                     acc.periods + [PeriodPart(start, end, p.totalSeconds, p.totalPay)], breakdown);
  }

  /** The stretch before the overtime, then the stretch after it, each only when non-empty. */
  method PayAroundOt(date: Date, otStart: int, otEnd: int, salary: int, rules: seq<OnCallRule>) returns (split: OncallSplit)
    requires OnCall.AllOcWellFormed(rules) && OnCallPay.RatesSet(rules)
    ensures split == SplitAroundOt(date, otStart, otEnd, salary, rules)
  {
    var dayStart := At(date, 0);
    var dayEnd := At(date + 1, 0);
    split := OncallSplit(0.0, 0, [], []);
    if otStart > dayStart {
      split := AddStretch(split, dayStart, otStart, salary, rules);
    }
    if otEnd < dayEnd {
      split := AddStretch(split, otEnd, dayEnd, salary, rules);
    }
  }

  /** `_recalculate_oncall_before_ot`: parse the overtime on its own date, then pay around it with the year's rules. */
  method RecalculateOncallBeforeOt(date: Date, ot: OtShift, salary: int, rules: seq<OnCallRule>) returns (pay: real, details: OncallDetails)
    requires OnCall.AllOcWellFormed(rules) && OnCallPay.RatesSet(rules)
    ensures (pay, details) == RecalcOncall(date, ot, salary, rules)
  {
    match ParseOtTimes(ot.startTime, ot.endTime, ot.date)
    case Err(_) =>
      pay, details := 0.0, OtUnparsed;
    case Ok(times) =>
      var split := PayAroundOt(date, times.0, times.1, salary, rules);
      pay := split.totalPay;
      details := AroundOt(split);
  }

  // ---------------------------------------------------------------------
  // _populate_single_person_day
  // ---------------------------------------------------------------------

  /** The overtime part of a day: the overtime's times, hours, pay and hourly rate. */
  datatype OtDetails = OtDetails(startTime: TimeValue, endTime: TimeValue, hours: real, pay: real, hourlyRate: real, isExtension: bool)

  /**
   * What pay depends on for one person: the monthly salary on-call is
   * priced from, the wage in force on a date, the person's own overtime
   * rate if any, and the divisor turning a monthly wage into an hourly one.
   */
  datatype PayInputs = PayInputs(oncallSalary: int, wageOn: Date -> real, otCustomRate: Option<real>, otRateDivisor: real)

  /** One person's full day. */
  datatype FullDay = FullDay(
    personId: int,
    shown: Shown,
    originalShift: Option<ShiftType>,
    rotationWeek: Option<int>,
    ob: Ob.Totals,
    oncallPay: real,
    oncall: OncallDetails,
    otPay: real,
    otHours: real,
    ot: Option<OtDetails>,
    beforeEmployment: bool)

  /** OB hours are computed for a shift with a start that is not on-call. */
  function ObFor(s: Shown, obRules: seq<ObRule>): (r: Ob.Totals)
    requires Ob.AllWellFormed(obRules)
    ensures r != map[] ==> s.start.Some? && s.shift.Some? && s.shift.value.code != "OC"
  {
    if s.start.Some? && s.shift.Some? && s.shift.value.code != "OC" then Ob.ObHours(s.start, s.end, obRules) else map[]
  }

  /** The shift settled on before the overrides, with its week and OB hours. */
  datatype Resolved = Resolved(shown: Shown, week: Option<int>, ob: Ob.Totals)

  /** Vacation, then a swap (any stored code; an unknown one leaves no shift), then the rotation. */
  function ResolveFull(cfg: ScheduleConfig, rec: Records, pid: int, date: Date, obRules: seq<ObRule>): (r: Resolved)
    requires ValidPattern(cfg.rotation) && ShiftTimesOk(cfg.shiftTypes) && Ob.AllWellFormed(obRules)
    ensures r.ob != map[] ==> r.shown.start.Some? && r.shown.shift.Some? && r.shown.shift.value.code != "OC"
    ensures OnVacation(cfg.shiftTypes, rec, pid, date) ==> r.shown == Idle(FindShiftType(cfg.shiftTypes, VacationCode)) && r.week.None?
    ensures !OnVacation(cfg.shiftTypes, rec, pid, date) && (pid, date) in rec.swaps ==>
      if FindShiftType(cfg.shiftTypes, rec.swaps[(pid, date)]).Some?
      then r.shown == Worked(cfg.shiftTypes, date, FindShiftType(cfg.shiftTypes, rec.swaps[(pid, date)]).value)
      else r.shown == Idle(None) && r.week.None?
    ensures !OnVacation(cfg.shiftTypes, rec, pid, date) && (pid, date) !in rec.swaps ==> r.shown == RotationShown(cfg, pid, date)
  {
    var types := cfg.shiftTypes;
    var slot := DetermineShift(cfg, date, pid);
    if OnVacation(types, rec, pid, date) then
      Resolved(Idle(FindShiftType(types, VacationCode)), None, map[])
    else if (pid, date) in rec.swaps then
      match FindShiftType(types, rec.swaps[(pid, date)])
      case Some(swapped) =>
        var w := Worked(types, date, swapped);
        Resolved(w, SlotWeek(slot), ObFor(w, obRules))
      case None => Resolved(Idle(None), None, map[])
    else
      var w := RotationShown(cfg, pid, date);
      Resolved(w, if slot.InRotation? && slot.shift.Some? then Some(slot.week) else None, ObFor(w, obRules))
  }

  /** On-call pay for an OC day, with `rules` the year's on-call rules: the whole day, or split around the overtime that affects it. */
  function OncallFor(shift: Option<ShiftType>, date: Date, ot: Option<OtShift>, salary: int, rules: seq<OnCallRule>): (r: (real, OncallDetails))
    requires OnCall.AllOcWellFormed(rules) && OnCallPay.RatesSet(rules)
    ensures r.1 != NoOncall <==> shift.Some? && shift.value.code == "OC"
    ensures r.1 == NoOncall ==> r.0 == 0.0
    ensures r.1.WholeDay? ==> ot.None? && r.0 == r.1.day.totalPay
  {
    if shift.Some? && shift.value.code == "OC" then
      match ot
      case Some(o) => RecalcOncall(date, o, salary, rules)
      case None =>
        var day := OnCallPay.OncallDay(date, salary, rules);
        (day.totalPay, WholeDay(day))
    else (0.0, NoOncall)
  }

  /** The overtime hourly rate: the person's own rate, otherwise the date's wage over the divisor. */
  function OtHourly(pay: PayInputs, date: Date): real
    requires pay.otRateDivisor != 0.0
  {
    match pay.otCustomRate
    case Some(rate) => rate
    case None => pay.wageOn(date) / pay.otRateDivisor
  }

  function OtDetailsFor(ot: Option<OtShift>, pay: PayInputs, date: Date): (r: Option<OtDetails>)
    requires pay.otRateDivisor != 0.0
    ensures r.Some? <==> ot.Some?
    ensures r.Some? ==> r.value.hours == ot.value.hours && r.value.pay == OtHourly(pay, date) * ot.value.hours
  {
    match ot
    case None => None
    case Some(o) =>
      var hourly := OtHourly(pay, date);
      Some(OtDetails(o.startTime, o.endTime, o.hours, hourly * o.hours, hourly, o.isExtension))
  }

  /** A day the resolver settled: the override, the on-call pay and the same-day overtime applied to it. */
  function SettledDay(types: seq<ShiftType>, pid: int, date: Date, res: Resolved, ov: Option<OverrideType>,
                      otToday: Option<OtShift>, otForOncall: Option<OtShift>, rules: seq<OnCallRule>, pay: PayInputs): (d: FullDay)
    requires OnCall.AllOcWellFormed(rules) && OnCallPay.RatesSet(rules) && pay.otRateDivisor != 0.0
    ensures d.originalShift == res.shown.shift && d.rotationWeek == res.week && !d.beforeEmployment
    ensures d.ob != map[] ==> ApplyOverride(types, ov, res.shown) == res.shown && d.ob == res.ob
    ensures otToday.None? ==> d.otPay == 0.0 && d.otHours == 0.0 && d.ot.None?
    ensures d.shown == ShowOt(types, otToday, date, ApplyOverride(types, ov, res.shown))
  {
    var overridden := ov.Some? && OverrideApplies(types, ov.value, res.shown.shift);
    var shown := ApplyOverride(types, ov, res.shown);
    var oncall := OncallFor(shown.shift, date, otForOncall, pay.oncallSalary, rules);
    var details := OtDetailsFor(otToday, pay, date);
    FullDay(pid, ShowOt(types, otToday, date, shown), res.shown.shift, res.week,
            if overridden then map[] else res.ob,
            oncall.0, oncall.1,
            if details.Some? then details.value.pay else 0.0,
            if details.Some? then details.value.hours else 0.0,
            details, false)
  }

  function FullDayFor(cfg: ScheduleConfig, rec: Records, pid: int, date: Date, obRules: seq<ObRule>,
                      base: seq<OnCallRule>, pay: PayInputs): FullDay
    requires ValidPattern(cfg.rotation) && ShiftTimesOk(cfg.shiftTypes) && Ob.AllWellFormed(obRules)
    requires OnCall.AllOcWellFormed(base) && OnCallPay.RatesSet(base) && pay.otRateDivisor != 0.0
  {
    var types := cfg.shiftTypes;
    var slot := DetermineShift(cfg, date, pid);
    if BeforeEmployment(rec, pid, date) then
      FullDay(pid, Idle(FindShiftType(types, "OFF")), SlotShift(slot), SlotWeek(slot), map[], 0.0, NoOncall, 0.0, 0.0, None, true)
    else if AbsenceShift(types, rec, pid, date).Some? then
      FullDay(pid, Idle(AbsenceShift(types, rec, pid, date)), SlotShift(slot), SlotWeek(slot), map[], 0.0, NoOncall, 0.0, 0.0, None, false)
    else
      OnCallPay.GeneratedRulesOk(base, YearOf(date));
      SettledDay(types, pid, date, ResolveFull(cfg, rec, pid, date, obRules), Lookup(rec.overrides, (pid, date)),
                 Lookup(rec.otShifts, (pid, date)), OtForOncall(rec, pid, date), OnCallRules.OncallRulesForYear(base, YearOf(date)), pay)
  }

  /**
   * The single-person day: before employment it shows OFF and an absence
   * shows the absence shift, both with no OB, on-call or overtime pay
   * whatever overtime is registered; any other day is the settled day of
   * the resolved shift, the day's override and the day's overtime.
   */
  lemma FullDaySpec(cfg: ScheduleConfig, rec: Records, pid: int, date: Date, obRules: seq<ObRule>,
                    base: seq<OnCallRule>, pay: PayInputs)
    requires ValidPattern(cfg.rotation) && ShiftTimesOk(cfg.shiftTypes) && Ob.AllWellFormed(obRules)
    requires OnCall.AllOcWellFormed(base) && OnCallPay.RatesSet(base) && pay.otRateDivisor != 0.0
    ensures var d := FullDayFor(cfg, rec, pid, date, obRules, base, pay);
      var types := cfg.shiftTypes;
      var off := BeforeEmployment(rec, pid, date) || AbsenceShift(types, rec, pid, date).Some?;
      && (d.beforeEmployment <==> BeforeEmployment(rec, pid, date))
      && (BeforeEmployment(rec, pid, date) ==> d.shown == Idle(FindShiftType(types, "OFF")))
      && (!BeforeEmployment(rec, pid, date) && AbsenceShift(types, rec, pid, date).Some? ==>
            d.shown == Idle(AbsenceShift(types, rec, pid, date)))
      && (off ==> d.ob == map[] && d.oncallPay == 0.0 && d.oncall == NoOncall && d.otPay == 0.0 && d.otHours == 0.0 && d.ot.None?)
      && (!off ==> OnCall.AllOcWellFormed(OnCallRules.OncallRulesForYear(base, YearOf(date)))
                   && OnCallPay.RatesSet(OnCallRules.OncallRulesForYear(base, YearOf(date)))
                   && d == SettledDay(types, pid, date, ResolveFull(cfg, rec, pid, date, obRules), Lookup(rec.overrides, (pid, date)),
                                      Lookup(rec.otShifts, (pid, date)), OtForOncall(rec, pid, date),
                                      OnCallRules.OncallRulesForYear(base, YearOf(date)), pay))
  {
    OnCallPay.GeneratedRulesOk(base, YearOf(date));
  }

  /**
   * OB hours come only from a resolved shift with a start that is not OC,
   * and never from a day whose override replaced the shift; overtime rows
   * change neither the OB hours nor the resolved shift and week.
   */
  lemma SettledDayOb(types: seq<ShiftType>, pid: int, date: Date, res: Resolved, ov: Option<OverrideType>,
                     otToday: Option<OtShift>, otForOncall: Option<OtShift>, rules: seq<OnCallRule>, pay: PayInputs,
                     otToday': Option<OtShift>, otForOncall': Option<OtShift>)
    requires OnCall.AllOcWellFormed(rules) && OnCallPay.RatesSet(rules) && pay.otRateDivisor != 0.0
    requires res.ob != map[] ==> res.shown.start.Some? && res.shown.shift.Some? && res.shown.shift.value.code != "OC"
    ensures var d := SettledDay(types, pid, date, res, ov, otToday, otForOncall, rules, pay);
      && (d.ob != map[] ==> res.shown.start.Some? && res.shown.shift.Some? && res.shown.shift.value.code != "OC"
                            && ApplyOverride(types, ov, res.shown).shift == res.shown.shift)
      && SettledDay(types, pid, date, res, ov, otToday', otForOncall', rules, pay).ob == d.ob
  {
  }

  /**
   * On a settled day on-call is paid exactly when the shift is OC after
   * the override, and overtime pay is the hourly rate times the day's
   * overtime hours.
   */
  lemma SettledDayPay(types: seq<ShiftType>, pid: int, date: Date, res: Resolved, ov: Option<OverrideType>,
                      otToday: Option<OtShift>, otForOncall: Option<OtShift>, rules: seq<OnCallRule>, pay: PayInputs)
    requires OnCall.AllOcWellFormed(rules) && OnCallPay.RatesSet(rules) && pay.otRateDivisor != 0.0
    ensures var d := SettledDay(types, pid, date, res, ov, otToday, otForOncall, rules, pay);
      var shift := ApplyOverride(types, ov, res.shown).shift;
      && (d.oncall != NoOncall <==> shift.Some? && shift.value.code == "OC")
      && (d.oncall == NoOncall ==> d.oncallPay == 0.0)
      && (otToday.Some? ==> d.otHours == otToday.value.hours && d.otPay == OtHourly(pay, date) * otToday.value.hours)
  {
  }

  // ---------------------------------------------------------------------
  // _batch_fetch_swap_map
  // ---------------------------------------------------------------------

  /** An accepted swap: who asked, who accepted, the two dates and the shift codes stored with it. */
  datatype Swap = Swap(requesterId: int, targetId: int, requesterDate: Date, targetDate: Date,
                       requesterShiftCode: Option<string>, targetShiftCode: Option<string>)

  /** A stored code, "OFF" when it is missing or empty. */
  function OrOff(code: Option<string>): (r: string)
    ensures r != ""
    ensures code.Some? && code.value != "" ==> r == code.value
  {
    if code.Some? && code.value != "" then code.value else "OFF"
  }

  /** The code a rotation position has on a date, "OFF" when it has none. */
  function RotationCode(cfg: ScheduleConfig, date: Date, startWeek: int): string
    requires ValidPattern(cfg.rotation)
  {
    var slot := DetermineShift(cfg, date, startWeek);
    if slot.InRotation? && slot.shift.Some? then slot.shift.value.code else "OFF"
  }

  /** The rotation position a user follows, the user's own id when unknown. */
  function RotationOf(userRotation: map<int, int>, id: int): int
  {
    if id in userRotation then userRotation[id] else id
  }

  /** The four writes of one swap, in the source's order, each for a person in `pids`. */
  function ApplySwap(cfg: ScheduleConfig, pids: set<int>, rot: map<int, int>, m: map<(int, Date), string>, sw: Swap): map<(int, Date), string>
    requires ValidPattern(cfg.rotation)
  {
    var m1 := if sw.requesterId in pids then m[(sw.requesterId, sw.requesterDate) := RotationCode(cfg, sw.requesterDate, RotationOf(rot, sw.targetId))] else m;
    var m2 := if sw.targetId in pids then m1[(sw.targetId, sw.requesterDate) := OrOff(sw.requesterShiftCode)] else m1;
    var m3 := if sw.targetId in pids then m2[(sw.targetId, sw.targetDate) := RotationCode(cfg, sw.targetDate, RotationOf(rot, sw.requesterId))] else m2;
    if sw.requesterId in pids then m3[(sw.requesterId, sw.targetDate) := OrOff(sw.targetShiftCode)] else m3
  }

  function SwapMap(cfg: ScheduleConfig, pids: set<int>, rot: map<int, int>, swaps: seq<Swap>): map<(int, Date), string>
    requires ValidPattern(cfg.rotation)
    decreases |swaps|
  {
    if swaps == [] then map[]
    else ApplySwap(cfg, pids, rot, SwapMap(cfg, pids, rot, swaps[..|swaps| - 1]), swaps[|swaps| - 1])
  }

  /** The keys one swap writes: both of its dates, for each of its two people that is in `pids`. */
  function Written(pids: set<int>, sw: Swap): set<(int, Date)>
  {
    (if sw.requesterId in pids then {(sw.requesterId, sw.requesterDate), (sw.requesterId, sw.targetDate)} else {})
    + (if sw.targetId in pids then {(sw.targetId, sw.requesterDate), (sw.targetId, sw.targetDate)} else {})
  }

  /**
   * One swap: the requester takes the target's rotation shift on the
   * requester's date and the target's stored shift on the target's date;
   * the target takes the requester's stored shift on the requester's date
   * and the requester's rotation shift on the target's date. Nothing else
   * changes. When the dates coincide, the later writes win.
   */
  lemma ApplySwapSpec(cfg: ScheduleConfig, pids: set<int>, rot: map<int, int>, m: map<(int, Date), string>, sw: Swap)
    requires ValidPattern(cfg.rotation)
    ensures var r := ApplySwap(cfg, pids, rot, m, sw);
      && r.Keys == m.Keys + Written(pids, sw)
      && (forall k :: k in m && k !in Written(pids, sw) ==> r[k] == m[k])
      && (sw.requesterId in pids ==> r[(sw.requesterId, sw.targetDate)] == OrOff(sw.targetShiftCode))
      && (sw.targetId in pids && (sw.requesterId !in pids || sw.targetId != sw.requesterId) ==>
            r[(sw.targetId, sw.targetDate)] == RotationCode(cfg, sw.targetDate, RotationOf(rot, sw.requesterId)))
      && (sw.requesterDate != sw.targetDate && sw.requesterId in pids ==>
            && ((sw.targetId !in pids || sw.targetId != sw.requesterId) ==>
                  r[(sw.requesterId, sw.requesterDate)] == RotationCode(cfg, sw.requesterDate, RotationOf(rot, sw.targetId))))
      && (sw.requesterDate != sw.targetDate && sw.targetId in pids ==>
            r[(sw.targetId, sw.requesterDate)] == OrOff(sw.requesterShiftCode))
  {
  }

  /** The swap map holds exactly the keys some swap wrote. */
  lemma {:induction false} SwapMapKeys(cfg: ScheduleConfig, pids: set<int>, rot: map<int, int>, swaps: seq<Swap>)
    requires ValidPattern(cfg.rotation)
    ensures forall k :: k in SwapMap(cfg, pids, rot, swaps) <==> exists i :: 0 <= i < |swaps| && k in Written(pids, swaps[i])
    decreases |swaps|
  {
    if swaps != [] {
      var n := |swaps| - 1;
      SwapMapKeys(cfg, pids, rot, swaps[..n]);
      ApplySwapSpec(cfg, pids, rot, SwapMap(cfg, pids, rot, swaps[..n]), swaps[n]);
      forall k
        ensures k in SwapMap(cfg, pids, rot, swaps) <==> exists i :: 0 <= i < |swaps| && k in Written(pids, swaps[i])
      {
        if exists i :: 0 <= i < |swaps| && k in Written(pids, swaps[i]) {
          var i :| 0 <= i < |swaps| && k in Written(pids, swaps[i]);
          if i < n {
            assert swaps[..n][i] == swaps[i];
          }
        }
        if exists i :: 0 <= i < n && k in Written(pids, swaps[..n][i]) {
          var i :| 0 <= i < n && k in Written(pids, swaps[..n][i]);
          assert swaps[i] == swaps[..n][i];
        }
      }
    }
  }

  /** The loop over the fetched swaps. */
  method BuildSwapMap(cfg: ScheduleConfig, pids: set<int>, rot: map<int, int>, swaps: seq<Swap>) returns (m: map<(int, Date), string>)
    requires ValidPattern(cfg.rotation)
    ensures m == SwapMap(cfg, pids, rot, swaps)
  {
    m := map[];
    for i := 0 to |swaps|
      invariant m == SwapMap(cfg, pids, rot, swaps[..i])
    {
      var sw := swaps[i];
      assert swaps[..i + 1][..i] == swaps[..i];
      var reqRot := RotationOf(rot, sw.requesterId);
      var tgtRot := RotationOf(rot, sw.targetId);
      if sw.requesterId in pids {
        m := m[(sw.requesterId, sw.requesterDate) := RotationCode(cfg, sw.requesterDate, tgtRot)];
      }
      if sw.targetId in pids {
        m := m[(sw.targetId, sw.requesterDate) := OrOff(sw.requesterShiftCode)];
      }
      if sw.targetId in pids {
        m := m[(sw.targetId, sw.targetDate) := RotationCode(cfg, sw.targetDate, reqRot)];
      }
      if sw.requesterId in pids {
        m := m[(sw.requesterId, sw.targetDate) := OrOff(sw.targetShiftCode)];
      }
    }
    assert swaps[..|swaps|] == swaps;
  }

  // ---------------------------------------------------------------------
  // _get_years_in_range and generate_period_data
  // ---------------------------------------------------------------------

  /** Every year in `years` lies in [first, last], and every year from `first` up to `reached` is in it. */
  predicate Covered(years: set<int>, first: int, last: int, reached: int)
  {
    && (forall y :: y in years ==> first <= y <= last)
    && (forall y :: first <= y < reached ==> y in years)
  }

  /** Adding the year reached, when the next is at most one further on, keeps the cover. */
  lemma CoveredStep(years: set<int>, first: int, last: int, reached: int, next: int)
    requires Covered(years, first, last, reached) && first <= reached <= last && next <= reached + 1
    ensures Covered(years + {reached}, first, last, next)
  {
  }

  /** Once the years reached pass the last, adding the last completes the range. */
  lemma CoveredEnd(years: set<int>, first: int, last: int, reached: int)
    requires Covered(years, first, last, reached) && first <= last <= reached
    ensures forall y :: y in years + {last} <==> first <= y <= last
  {
  }

  /**
   * `_get_years_in_range`: the years met stepping 365 days from the start
   * while not past the end, plus the end's year. A year is never skipped.
   */
  method YearsInRange(start: Date, end: Date) returns (years: set<int>)
    ensures start <= end ==> forall y :: y in years <==> YearOf(start) <= y <= YearOf(end)
    ensures end < start ==> years == {YearOf(end)}
  {
    var temp;
    years, temp := StepYears(start, end);
    if start <= end {
      YearOfOrder(end, temp);
      YearOfOrder(start, end);
      CoveredEnd(years, YearOf(start), YearOf(end), YearOf(temp));
    }
    years := years + {YearOf(end)};
  }

  /** The stepping loop: the years of start, start + 365, ... while not past the end. */
  method StepYears(start: Date, end: Date) returns (years: set<int>, temp: Date)
    ensures end < temp && start <= temp
    ensures end < start ==> years == {}
    ensures Covered(years, YearOf(start), YearOf(end), YearOf(temp))
  {
    years := {};
    temp := start;
    while temp <= end
      invariant start <= temp
      invariant end < start ==> years == {}
      invariant Covered(years, YearOf(start), YearOf(end), YearOf(temp))
      decreases end - temp
    {
      years, temp := AddYear(years, start, end, temp);
    }
  }

  /** One step of the loop: the year of `temp` joins the set, and `temp` moves on 365 days. */
  method AddYear(years: set<int>, start: Date, end: Date, temp: Date) returns (years': set<int>, temp': Date)
    requires start <= temp <= end && Covered(years, YearOf(start), YearOf(end), YearOf(temp))
    ensures years' == years + {YearOf(temp)} && temp' == temp + 365
    ensures Covered(years', YearOf(start), YearOf(end), YearOf(temp'))
  {
    YearStep(start, temp, end);
    CoveredStep(years, YearOf(start), YearOf(end), YearOf(temp), YearOf(temp + 365));
    years' := years + {YearOf(temp)};
    temp' := temp + 365;
  }

  /** A date between two others has a year between theirs, and 365 days later is at most the next year. */
  lemma YearStep(start: Date, temp: Date, end: Date)
    requires start <= temp <= end
    ensures YearOf(start) <= YearOf(temp) <= YearOf(end)
    ensures YearOf(temp + 365) <= YearOf(temp) + 1
  {
    YearOfOrder(start, temp);
    YearOfOrder(temp, end);
    YearOfOrder(temp, temp + 365);
  }

  /** The OB rules of the years from `lo` to `hi`, year after year. */
  function ObRulesForYears(base: seq<ObRule>, lo: int, hi: int): seq<ObRule>
    decreases hi - lo
  {
    if hi < lo then [] else ObRulesForYears(base, lo, hi - 1) + Ob.CombinedRules(base, hi)
  }

  /** Holiday rules are well formed, so the rules of several years are when the base rules are. */
  lemma {:induction false} ObRulesForYearsWellFormed(base: seq<ObRule>, lo: int, hi: int)
    requires Ob.AllWellFormed(base)
    ensures Ob.AllWellFormed(ObRulesForYears(base, lo, hi))
    decreases hi - lo
  {
    if hi >= lo {
      ObRulesForYearsWellFormed(base, lo, hi - 1);
      Ob.CombinedRulesWellFormed(base, hi);
    }
  }

  /** The OB rules a period is priced with: those of every year from its first date's to its last date's. */
  function PeriodObRules(base: seq<ObRule>, first: Date, last: Date): (r: seq<ObRule>)
    requires Ob.AllWellFormed(base)
    ensures Ob.AllWellFormed(r)
  {
    ObRulesForYearsWellFormed(base, YearOf(first), YearOf(last));
    ObRulesForYears(base, YearOf(first), YearOf(last))
  }

  /** The loop extending the combined OB rules year by year. */
  method BuildObRules(base: seq<ObRule>, lo: int, hi: int) returns (rules: seq<ObRule>)
    ensures rules == ObRulesForYears(base, lo, hi)
  {
    rules := [];
    if hi < lo {
      return;
    }
    for y := lo to hi + 1
      invariant rules == ObRulesForYears(base, lo, y - 1)
    {
      var yearRules := Ob.CombinedRules(base, y);
      rules := rules + yearRules;
    }
  }

  /** Everything a period is generated from, besides the dates and the person. */
  datatype Inputs = Inputs(cfg: ScheduleConfig, rec: Records, baseOb: seq<ObRule>, baseOncall: seq<OnCallRule>, pay: PayInputs)

  predicate InputsOk(inp: Inputs)
  {
    && ValidPattern(inp.cfg.rotation) && ShiftTimesOk(inp.cfg.shiftTypes) && Ob.AllWellFormed(inp.baseOb)
    && OnCall.AllOcWellFormed(inp.baseOncall) && OnCallPay.RatesSet(inp.baseOncall) && inp.pay.otRateDivisor != 0.0
  }

  /** One generated date: every position's basic day, or one person's full day. */
  datatype PeriodDay =
    | AllPositions(date: Date, weekday: int, persons: seq<BasicDay>)
    | OnePosition(date: Date, weekday: int, day: FullDay)

  /** The entry for one date, positions 1 to 10 in order when no person is asked for. */
  function DayEntry(inp: Inputs, obRules: seq<ObRule>, person: Option<int>, date: Date): (r: PeriodDay)
    requires InputsOk(inp) && Ob.AllWellFormed(obRules)
    ensures r.date == date && r.weekday == Weekday(date)
    ensures r.AllPositions? <==> person.None?
    ensures r.AllPositions? ==> |r.persons| == MaxPersons && forall i :: 0 <= i < MaxPersons ==> r.persons[i].personId == i + 1
  {
    match person
    case None =>
      AllPositions(date, Weekday(date), EveryPosition(inp.cfg, inp.rec, date))
    case Some(pid) =>
      OnePosition(date, Weekday(date), FullDayFor(inp.cfg, inp.rec, pid, date, obRules, inp.baseOncall, inp.pay))
  }

  /** Every position's basic day for one date, positions 1 to 10 in order. */
  function EveryPosition(cfg: ScheduleConfig, rec: Records, date: Date): (r: seq<BasicDay>)
    requires ValidPattern(cfg.rotation) && ShiftTimesOk(cfg.shiftTypes)
    ensures |r| == MaxPersons
    ensures forall i :: 0 <= i < MaxPersons ==> r[i] == BasicDayFor(cfg, rec, i + 1, date) && r[i].personId == i + 1
  {
    seq(MaxPersons, i requires 0 <= i < MaxPersons => BasicDayFor(cfg, rec, i + 1, date))
  }

  function MaxDate(a: Date, b: Date): Date
  {
    if a >= b then a else b
  }

  /** The entry builder of one generation run: `DayEntry` with the run's inputs fixed. */
  function EntryOf(inp: Inputs, obRules: seq<ObRule>, person: Option<int>): (f: Date --> PeriodDay)
    requires InputsOk(inp) && Ob.AllWellFormed(obRules)
    ensures forall d :: f.requires(d)
    ensures forall d :: f(d) == DayEntry(inp, obRules, person, d)
  {
    d requires InputsOk(inp) && Ob.AllWellFormed(obRules) => DayEntry(inp, obRules, person, d)
  }

  /** The entries of `n` consecutive dates from `first`, in date order. */
  function DaysFrom(entry: Date --> PeriodDay, first: Date, n: nat): (r: seq<PeriodDay>)
    requires forall d :: entry.requires(d)
    ensures |r| == n
  {
    if n == 0 then [] else DaysFrom(entry, first, n - 1) + [entry(first + n - 1)]
  }

  /** Entry `i` of the collected dates is the entry of date `first + i`. */
  lemma {:induction false} DaysFromIndex(entry: Date --> PeriodDay, first: Date, n: nat, i: int)
    requires forall d :: entry.requires(d)
    requires 0 <= i < n
    ensures DaysFrom(entry, first, n)[i] == entry(first + i)
  {
    if i < n - 1 {
      DaysFromIndex(entry, first, n - 1, i);
    }
  }

  /**
   * What `generate_period_data` produces: nothing when the rotation starts
   * after the end; otherwise one entry per date from the later of the start
   * and the rotation start through the end, in date order, with the OB rules
   * of every year those dates touch.
   */
  function PeriodDays(inp: Inputs, start: Date, end: Date, person: Option<int>): seq<PeriodDay>
    requires InputsOk(inp)
  {
    if MaxDate(start, inp.cfg.rotationStart) > end then []
    else PeriodDaysFrom(inp, MaxDate(start, inp.cfg.rotationStart), end, person)
  }

  /** The entries of the dates from `first` through `end`, with the OB rules of every year they touch. */
  function PeriodDaysFrom(inp: Inputs, first: Date, end: Date, person: Option<int>): (r: seq<PeriodDay>)
    requires InputsOk(inp) && first <= end
    ensures |r| == end - first + 1
  {
    DaysFrom(EntryOf(inp, PeriodObRules(inp.baseOb, first, end), person), first, end - first + 1)
  }

  /** Entry `i` of the dates collected with `EntryOf` is the entry of date `first + i`. */
  lemma EntryDaysIndex(inp: Inputs, obRules: seq<ObRule>, person: Option<int>, first: Date, n: nat, i: int)
    requires InputsOk(inp) && Ob.AllWellFormed(obRules)
    requires 0 <= i < n
    ensures DaysFrom(EntryOf(inp, obRules, person), first, n)[i] == DayEntry(inp, obRules, person, first + i)
  {
    DaysFromIndex(EntryOf(inp, obRules, person), first, n, i);
  }

  /** `generate_period_data`: the dates are collected one by one. */
  method GeneratePeriod(inp: Inputs, start: Date, end: Date, person: Option<int>) returns (days: seq<PeriodDay>)
    requires InputsOk(inp)
    ensures days == PeriodDays(inp, start, end, person)
  {
    var first := MaxDate(start, inp.cfg.rotationStart);
    if first > end {
      days := [];
    } else {
      days := PeriodFrom(inp, first, end, person);
    }
  }

  /** The OB rules of the period's years, then each date's entry from `first` through `end`. */
  method PeriodFrom(inp: Inputs, first: Date, end: Date, person: Option<int>) returns (days: seq<PeriodDay>)
    requires InputsOk(inp) && first <= end
    ensures days == PeriodDaysFrom(inp, first, end, person)
  {
    var obRules := RulesForPeriod(inp.baseOb, first, end);
    days := CollectDays(EntryOf(inp, obRules, person), first, end);
  }

  /** The OB rules of every calendar year the dates from `first` through `end` touch. */
  method RulesForPeriod(baseOb: seq<ObRule>, first: Date, end: Date) returns (obRules: seq<ObRule>)
    requires Ob.AllWellFormed(baseOb) && first <= end
    ensures obRules == PeriodObRules(baseOb, first, end)
  {
    obRules := BuildObRules(baseOb, YearOf(first), YearOf(end));
  }

  /** The day loop: the entry of each date from `first` through `end`, in order. */
  method CollectDays(entry: Date --> PeriodDay, first: Date, end: Date) returns (days: seq<PeriodDay>)
    requires forall d :: entry.requires(d)
    requires first <= end
    ensures days == DaysFrom(entry, first, end - first + 1)
  {
    days := [];
    var current := first;
    while current <= end
      invariant first <= current <= end + 1
      invariant days == DaysFrom(entry, first, current - first)
    {
      days := days + [entry(current)];
      current := current + 1;
    }
  }
}
