/**
 * The rotation resolver and shift spans of app/core/schedule/core.py.
 *
 * The lazily loaded settings, rotation pattern and shift types are an
 * explicit `ScheduleConfig`; the `@cache` wrappers are pure functions of it.
 */
module ScheduleCore {
  import opened Wrappers
  import opened Calendar
  import opened Models
  import opened TimeText
  import opened Arith

  /** rotation.json: the cycle length and each week's seven shift codes, keyed by week number. */
  datatype RotationPattern = RotationPattern(rotationLength: int, weeks: map<int, seq<string>>)

  /**
   * A pattern the resolver can read: a positive length (the modulus) and a
   * row of seven codes for every week 1..L (the lookup raises otherwise).
   */
  predicate ValidPattern(p: RotationPattern)
  {
    p.rotationLength >= 1
    && forall w :: 1 <= w <= p.rotationLength ==> w in p.weeks && |p.weeks[w]| == 7
  }

  /** The loaded configuration: the rotation start date, the pattern and the shift types. */
  datatype ScheduleConfig = ScheduleConfig(rotationStart: Date, rotation: RotationPattern, shiftTypes: seq<ShiftType>)

  /** The position of the first shift type with the code. */
  function ShiftIndex(types: seq<ShiftType>, code: string): (r: Option<nat>)
    ensures r.Some? ==> r.value < |types| && types[r.value].code == code
    ensures r.Some? ==> forall j :: 0 <= j < r.value ==> types[j].code != code
    ensures r.None? ==> forall j :: 0 <= j < |types| ==> types[j].code != code
  {
    if types == [] then None
    else if types[0].code == code then Some(0)
    else
      match ShiftIndex(types[1..], code)
      case None => None
      case Some(i) => Some(i + 1)
  }

  /** `next((s for s in shift_types if s.code == code), None)`. */
  function FindShiftType(types: seq<ShiftType>, code: string): (r: Option<ShiftType>)
    ensures r.Some? ==> r.value in types && r.value.code == code
    ensures r.None? <==> forall j :: 0 <= j < |types| ==> types[j].code != code
  {
    match ShiftIndex(types, code)
    case None => None
    case Some(i) => Some(types[i])
  }

  // ---------------------------------------------------------------------
  // determine_shift_for_date
  // ---------------------------------------------------------------------

  /** Days from the rotation start to the first Monday, with the source's fallback branch. */
  function DaysToMonday(start: Date): int
  {
    var weekday := Weekday(start);
    var days := (7 - weekday) % 7;
    if days == 0 && weekday != 0 then 7 - weekday else days
  }

  function FirstMonday(start: Date): Date
  {
    start + DaysToMonday(start)
  }

  /** The fallback branch never runs, and the first Monday is the first Monday on or after the start. */
  lemma FirstMondaySpec(start: Date)
    ensures DaysToMonday(start) == (7 - Weekday(start)) % 7
    ensures start <= FirstMonday(start) <= start + 6
    ensures Weekday(FirstMonday(start)) == 0
    ensures forall d :: start <= d < FirstMonday(start) ==> Weekday(d) != 0
  {
    var k := DaysToMonday(start);
    WeekdayAddDays(start, k);
    forall d | start <= d < FirstMonday(start)
      ensures Weekday(d) != 0
    {
      WeekdayAddDays(start, d - start);
    }
  }

  /** Whole weeks since the start: 0 before the first Monday, then one more on every Monday. */
  function WeeksPassed(start: Date, date: Date): int
  {
    var monday := FirstMonday(start);
    if date < monday then 0 else 1 + (date - monday) / 7
  }

  /** `((weeks_passed + (start_week - 1)) % L) + 1`; Python's `%` with a positive modulus is Dafny's. */
  function RotationWeek(cfg: ScheduleConfig, date: Date, startWeek: int): (w: int)
    requires ValidPattern(cfg.rotation)
    ensures 1 <= w <= cfg.rotation.rotationLength
  {
    (WeeksPassed(cfg.rotationStart, date) + (startWeek - 1)) % cfg.rotation.rotationLength + 1
  }

  /** The resolver's answer: `(None, None)` before the start, otherwise the shift (None when the code is unknown) and the week. */
  datatype RotationSlot = BeforeStart | InRotation(shift: Option<ShiftType>, week: int)

  /** The code in the pattern cell for a date. */
  function PatternCode(cfg: ScheduleConfig, date: Date, startWeek: int): string
    requires ValidPattern(cfg.rotation)
  {
    cfg.rotation.weeks[RotationWeek(cfg, date, startWeek)][Weekday(date)]
  }

  /** `determine_shift_for_date`. */
  function DetermineShift(cfg: ScheduleConfig, date: Date, startWeek: int): (r: RotationSlot)
    requires ValidPattern(cfg.rotation)
    ensures r.BeforeStart? <==> date < cfg.rotationStart
    ensures r.InRotation? ==> 1 <= r.week <= cfg.rotation.rotationLength
    ensures r.InRotation? && r.shift.Some? ==>
      r.shift.value in cfg.shiftTypes && r.shift.value.code == cfg.rotation.weeks[r.week][Weekday(date)]
    ensures r.InRotation? && r.shift.None? ==>
      forall j :: 0 <= j < |cfg.shiftTypes| ==> cfg.shiftTypes[j].code != cfg.rotation.weeks[r.week][Weekday(date)]
  {
    if date < cfg.rotationStart then BeforeStart
    else
      var week := RotationWeek(cfg, date, startWeek);
      InRotation(FindShiftType(cfg.shiftTypes, PatternCode(cfg, date, startWeek)), week)
  }

  /** Weeks advance exactly on Mondays after the start. */
  lemma WeekAdvancesOnMonday(start: Date, date: Date)
    requires start <= date
    ensures Weekday(date + 1) == 0 ==> WeeksPassed(start, date + 1) == WeeksPassed(start, date) + 1
    ensures Weekday(date + 1) != 0 ==> WeeksPassed(start, date + 1) == WeeksPassed(start, date)
  {
    FirstMondaySpec(start);
    var monday := FirstMonday(start);
    WeekdayAddDays(monday, date + 1 - monday);
    SevenSplit(date + 1 - monday);
    SevenSplit(date - monday);
    if date + 1 < monday {
    } else if date + 1 == monday {
    } else {
      assert Weekday(date + 1) == (date + 1 - monday) % 7;
    }
  }

  /** A whole cycle later the weeks passed grow by the cycle length. */
  lemma WeeksPassedCycle(start: Date, date: Date, len: int)
    requires start <= date && len >= 1
    ensures WeeksPassed(start, date + 7 * len) == WeeksPassed(start, date) + len
  {
    FirstMondaySpec(start);
    var monday := FirstMonday(start);
    var later := date + 7 * len;
    if date < monday {
      assert later - monday == 7 * (len - 1) + (7 + date - monday);
      assert 0 < 7 + date - monday < 7;
      assert (later - monday) / 7 == len - 1;
    } else {
      assert later - monday == (date - monday) + 7 * len;
      assert (later - monday) / 7 == (date - monday) / 7 + len;
    }
  }

  /** A whole cycle of 7·L days later the week, and so the shift, is the same. */
  lemma RotationPeriodic(cfg: ScheduleConfig, date: Date, startWeek: int)
    requires ValidPattern(cfg.rotation)
    requires cfg.rotationStart <= date
    ensures DetermineShift(cfg, date + 7 * cfg.rotation.rotationLength, startWeek) == DetermineShift(cfg, date, startWeek)
  {
    var len := cfg.rotation.rotationLength;
    var later := date + 7 * len;
    WeeksPassedCycle(cfg.rotationStart, date, len);
    var base := WeeksPassed(cfg.rotationStart, date) + (startWeek - 1);
    ModAddModulus(base, len);
    assert RotationWeek(cfg, later, startWeek) == RotationWeek(cfg, date, startWeek);
    WeekdayAddWeeks(date, len);
    assert PatternCode(cfg, later, startWeek) == PatternCode(cfg, date, startWeek);
  }

  /** On any date in the rotation, start weeks 1..L give pairwise different rotation weeks. */
  lemma StartWeeksDistinct(cfg: ScheduleConfig, date: Date, sw1: int, sw2: int)
    requires ValidPattern(cfg.rotation)
    requires 1 <= sw1 <= cfg.rotation.rotationLength && 1 <= sw2 <= cfg.rotation.rotationLength
    ensures RotationWeek(cfg, date, sw1) == RotationWeek(cfg, date, sw2) <==> sw1 == sw2
  {
    var wp := WeeksPassed(cfg.rotationStart, date);
    ModInjective(wp + (sw1 - 1), wp + (sw2 - 1), cfg.rotation.rotationLength);
  }

  /** ... and every rotation week is some start week's: the start weeks are a permutation of the weeks. */
  lemma StartWeeksCover(cfg: ScheduleConfig, date: Date, week: int)
    requires ValidPattern(cfg.rotation)
    requires 1 <= week <= cfg.rotation.rotationLength
    ensures var sw := (week - 1 - WeeksPassed(cfg.rotationStart, date)) % cfg.rotation.rotationLength + 1;
      1 <= sw <= cfg.rotation.rotationLength && RotationWeek(cfg, date, sw) == week
  {
    ModInverse(WeeksPassed(cfg.rotationStart, date), week - 1, cfg.rotation.rotationLength);
  }

  /**
   * The start date's week: a start on a Monday is its own first Monday, so
   * the start date is already in week `start_week + 1`; any other start
   * day is in week `start_week`.
   */
  lemma StartDateWeek(cfg: ScheduleConfig, startWeek: int)
    requires ValidPattern(cfg.rotation)
    ensures Weekday(cfg.rotationStart) == 0 ==>
      RotationWeek(cfg, cfg.rotationStart, startWeek) == startWeek % cfg.rotation.rotationLength + 1
    ensures Weekday(cfg.rotationStart) != 0 ==>
      RotationWeek(cfg, cfg.rotationStart, startWeek) == (startWeek - 1) % cfg.rotation.rotationLength + 1
  {
    FirstMondaySpec(cfg.rotationStart);
  }

  // ---------------------------------------------------------------------
  // calculate_shift_hours
  // ---------------------------------------------------------------------

  /** The shift argument: None, a bare code, or a shift type (only its code is read). */
  datatype ShiftArg = NoShift | ShiftCode(code: string) | ShiftObject(shiftType: ShiftType)

  /** (hours, start, end), with the hours as seconds; an off day has no instants. */
  datatype ShiftSpan = ShiftSpan(seconds: int, start: Option<int>, end: Option<int>)

  const NoSpan: ShiftSpan := ShiftSpan(0, None, None)

  /**
   * `_calculate_shift_hours_cached`: the configured shift type's "%H:%M"
   * times placed on the date, an end not after the start rolling to the
   * next day. `None` is the ValueError of a malformed time.
   */
  function ShiftHoursForCode(types: seq<ShiftType>, date: Date, code: string): (r: Option<ShiftSpan>)
    ensures r.Some? && r.value.start.Some? ==>
      && r.value.end.Some?
      && r.value.seconds == r.value.end.value - r.value.start.value
      && 0 < r.value.seconds <= SecondsPerDay
      && At(date, 0) <= r.value.start.value < At(date + 1, 0)
    ensures r.Some? && r.value.start.None? ==> r.value == NoSpan
  {
    match FindShiftType(types, code)
    case None => Some(NoSpan)
    case Some(shift) =>
      if shift.code == "OFF" then Some(NoSpan)
      else
        match (StrptimeHM(shift.startTime), StrptimeHM(shift.endTime))
        case (Some(startSecond), Some(endSecond)) =>
          var startAt := At(date, startSecond);
          var endAt := if endSecond <= startSecond then At(date + 1, endSecond) else At(date, endSecond);
          Some(ShiftSpan(endAt - startAt, Some(startAt), Some(endAt)))
        case _ => None
  }

  /** `calculate_shift_hours`: nothing for None or "OFF", otherwise the lookup by code. */
  function ShiftHours(types: seq<ShiftType>, date: Date, shift: ShiftArg): (r: Option<ShiftSpan>)
    ensures shift.NoShift? ==> r == Some(NoSpan)
    ensures shift.ShiftCode? && shift.code == "OFF" ==> r == Some(NoSpan)
  {
    match shift
    case NoShift => Some(NoSpan)
    case ShiftCode(code) => if code == "OFF" then Some(NoSpan) else ShiftHoursForCode(types, date, code)
    case ShiftObject(s) => if s.code == "OFF" then Some(NoSpan) else ShiftHoursForCode(types, date, s.code)
  }

  /**
   * The span's placement: a configured, non-OFF shift whose "%H:%M" times
   * read as `startSecond` and `endSecond` starts on the date and ends the
   * same day when its end clock is later, the next day otherwise; an
   * unknown code has no span; a shift object is looked up by its code.
   */
  lemma ShiftHoursSpec(types: seq<ShiftType>, date: Date, shift: ShiftArg, startSecond: int, endSecond: int)
    ensures shift.ShiftObject? ==> ShiftHours(types, date, shift) == ShiftHours(types, date, ShiftCode(shift.shiftType.code))
    ensures shift.ShiftCode? && FindShiftType(types, shift.code).None? ==> ShiftHours(types, date, shift) == Some(NoSpan)
    ensures shift.ShiftCode? && shift.code != "OFF" && FindShiftType(types, shift.code).Some?
      && StrptimeHM(FindShiftType(types, shift.code).value.startTime) == Some(startSecond)
      && StrptimeHM(FindShiftType(types, shift.code).value.endTime) == Some(endSecond)
      ==> ShiftHours(types, date, shift) == Some(ShiftSpan(
            if endSecond <= startSecond then SecondsPerDay - startSecond + endSecond else endSecond - startSecond,
            Some(At(date, startSecond)),
            Some(if endSecond <= startSecond then At(date + 1, endSecond) else At(date, endSecond))))
  {
  }
}
