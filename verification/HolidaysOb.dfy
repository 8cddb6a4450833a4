/**
 * The holiday OB rules of app/core/schedule/holidays_ob.py. Every holiday
 * becomes a block of one-day rules: one rule per date from the holiday (or
 * its eve) up to, not including, the first weekday after it. The first rule
 * of a block starts at the block's start time, the others at midnight, and
 * all of them end at "24:00".
 */
module HolidaysOb {
  import opened Calendar
  import opened Models
  import opened Holidays

  const Ob4Name: string := "Helgdag (152)"
  const Ob5Name: string := "Storhelg (153)"

  /** The rule for one date of a block. */
  function DayRule(code: string, name: string, day: Date, st: Clock, rate: int): ObRule
  {
    ObRule(code, name, [], [day], st, EndOfDay, rate)
  }

  /** The rules for the `n` days from `start`. */
  function BlockRules(code: string, name: string, start: Date, st: Clock, n: nat, rate: int): (r: seq<ObRule>)
    ensures |r| == n
  {
    seq(n, i => ObRule(code, name, [], [start + i], if i == 0 then st else Midnight, EndOfDay, rate))
  }

  /** The number of dates `day` with `start <= day < end`. */
  function BlockLength(start: Date, end: Date): nat
  {
    if start < end then end - start else 0
  }

  /** The rules a builder loop appends while `day < end`, starting at `start`. */
  function DayBlock(code: string, name: string, start: Date, st: Clock, end: Date, rate: int): seq<ObRule>
  {
    BlockRules(code, name, start, st, BlockLength(start, end), rate)
  }

  lemma BlockRulesSnoc(code: string, name: string, start: Date, st: Clock, n: nat, rate: int)
    ensures BlockRules(code, name, start, st, n + 1, rate) ==
      BlockRules(code, name, start, st, n, rate) + [DayRule(code, name, start + n, if n == 0 then st else Midnight, rate)]
  {
  }

  /**
   * A block holds one rule per date from `start` up to `end`, and no other
   * dates: a date has a rule in the block exactly when `start <= d < end`.
   */
  lemma BlockCoversDays(code: string, name: string, start: Date, st: Clock, end: Date, rate: int, d: Date)
    ensures var r := DayBlock(code, name, start, st, end, rate);
      (exists i :: 0 <= i < |r| && r[i].specificDates == [d]) <==> start <= d < end
  {
    var r := DayBlock(code, name, start, st, end, rate);
    if start <= d < end {
      assert r[d - start].specificDates == [d];
    }
  }

  /**
   * Every rule of a block has the block's code and rate, the date `start + i`
   * alone and end "24:00"; only the first starts at the block's start time,
   * the rest at "00:00".
   */
  lemma BlockShape(code: string, name: string, start: Date, st: Clock, end: Date, rate: int)
    ensures var r := DayBlock(code, name, start, st, end, rate);
      forall i :: 0 <= i < |r| ==>
        r[i].code == code && r[i].name == name && r[i].rate == rate && r[i].days == [] &&
        r[i].specificDates == [start + i] && r[i].endTime == EndOfDay &&
        r[i].startTime == (if i == 0 then st else Midnight)
  {
  }

  /**
   * The loop shared by `_build_holiday_interval`, `_build_eve_block` and
   * both halves of `_build_new_years_rules`: one rule per day while
   * `day < end`, the first at `st` and the rest from midnight.
   */
  method EmitBlock(code: string, name: string, start: Date, st: Clock, end: Date, rate: int) returns (rules: seq<ObRule>)
    ensures rules == DayBlock(code, name, start, st, end, rate)
  {
    rules := [];
    var day := start;
    var first := true;
    while day < end
      invariant start <= day && day - start <= BlockLength(start, end)
      invariant first <==> day == start
      invariant rules == BlockRules(code, name, start, st, day - start, rate)
      decreases end - day
    {
      var dayStart := if first then st else Midnight;
      BlockRulesSnoc(code, name, start, st, day - start, rate);
      rules := rules + [DayRule(code, name, day, dayStart, rate)];
      first := false;
      day := day + 1;
    }
  }

  /** `_build_holiday_interval`: from `start` at `st` up to the first weekday after it. */
  function HolidayInterval(code: string, name: string, start: Date, st: Clock, rate: int): seq<ObRule>
  {
    DayBlock(code, name, start, st, FirstWeekdayAfter(start), rate)
  }

  /** A holiday block is never empty and spans one to three days, starting on the holiday at `st`. */
  lemma HolidayIntervalLength(code: string, name: string, start: Date, st: Clock, rate: int)
    ensures var r := HolidayInterval(code, name, start, st, rate);
      1 <= |r| <= 3 && r[0].specificDates == [start] && r[0].startTime == st
  {
  }

  method BuildHolidayInterval(code: string, name: string, start: Date, st: Clock, rate: int) returns (rules: seq<ObRule>)
    ensures rules == HolidayInterval(code, name, start, st, rate)
  {
    var end := FindFirstWeekdayAfter(start);
    rules := EmitBlock(code, name, start, st, end, rate);
  }

  /** `_build_eve_block`: from 07:00 on the eve up to the first weekday after the last holiday. */
  function EveBlock(code: string, name: string, eve: Date, last: Date, rate: int): seq<ObRule>
  {
    DayBlock(code, name, eve, Clock(7, 0), FirstWeekdayAfter(last), rate)
  }

  /** An eve block runs from 07:00 on the eve through the last holiday and at most three days past it. */
  lemma EveBlockSpan(code: string, name: string, eve: Date, last: Date, rate: int)
    requires eve <= last
    ensures var r := EveBlock(code, name, eve, last, rate);
      last - eve + 1 < |r| + 1 <= last - eve + 4 &&
      r[0].specificDates == [eve] && r[0].startTime == Clock(7, 0)
  {
  }

  method BuildEveBlock(code: string, name: string, eve: Date, last: Date, rate: int) returns (rules: seq<ObRule>)
    ensures rules == EveBlock(code, name, eve, last, rate)
  {
    var end := FindFirstWeekdayAfter(last);
    rules := EmitBlock(code, name, eve, Clock(7, 0), end, rate);
  }

  /** The New Year block that starts on New Year's Eve of `year` and covers New Year's Day of `year + 1`. */
  function NewYearBlock(year: int): seq<ObRule>
  {
    DayBlock("OB5", Ob5Name, Nyarsafton(year), Clock(18, 0), FirstWeekdayAfter(Nyarsdagen(year + 1)), 150)
  }

  /** `_build_new_years_rules`: New Year's Eve of the previous year and of this year, each from 18:00. */
  function NewYearsRules(year: int): seq<ObRule>
  {
    NewYearBlock(year - 1) + NewYearBlock(year)
  }

  /** A New Year block begins at 18:00 on 31 December and covers 1 January of the next year. */
  lemma NewYearBlockSpan(year: int)
    ensures var r := NewYearBlock(year);
      2 <= |r| &&
      r[0].specificDates == [DateOf(year, 12, 31)] && r[0].startTime == Clock(18, 0) &&
      r[1].specificDates == [DateOf(year + 1, 1, 1)]
  {
    NewYearFollowsEve(year);
  }

  /**
   * The New Year rules begin at 18:00 on 31 December of the previous year
   * and cover 1 January of this year; the second block, from index `n`,
   * begins at 18:00 on 31 December of this year and covers 1 January of the
   * next.
   */
  lemma NewYearsRulesSpan(year: int)
    ensures var r := NewYearsRules(year);
      var n := |NewYearBlock(year - 1)|;
      2 <= n <= |r| - 2 &&
      r[0].specificDates == [DateOf(year - 1, 12, 31)] && r[0].startTime == Clock(18, 0) &&
      r[1].specificDates == [DateOf(year, 1, 1)] &&
      r[n].specificDates == [DateOf(year, 12, 31)] && r[n].startTime == Clock(18, 0) &&
      r[n + 1].specificDates == [DateOf(year + 1, 1, 1)]
  {
    NewYearBlockSpan(year - 1);
    NewYearBlockSpan(year);
  }

  method BuildNewYearsRules(year: int) returns (rules: seq<ObRule>)
    ensures rules == NewYearsRules(year)
  {
    var endPrev := FindFirstWeekdayAfter(Nyarsdagen(year));
    var prev := EmitBlock("OB5", Ob5Name, Nyarsafton(year - 1), Clock(18, 0), endPrev, 150);
    var endThis := FindFirstWeekdayAfter(Nyarsdagen(year + 1));
    var current := EmitBlock("OB5", Ob5Name, Nyarsafton(year), Clock(18, 0), endThis, 150);
    rules := prev + current;
  }

  /** The five OB4 holidays of `build_special_ob_rules_for_year`, each from 07:00. */
  function Ob4Holidays(year: int): seq<Date>
  {
    [Trettondagen(year), ForstaMaj(year), Nationaldagen(year), KristiHimmelsfardsdag(year), AllaHelgonsDag(year)]
  }

  /** The OB4 blocks of the holidays in `days`, in order. */
  function Ob4Blocks(days: seq<Date>): seq<ObRule>
  {
    if days == [] then []
    else Ob4Blocks(days[..|days| - 1]) + HolidayInterval("OB4", Ob4Name, days[|days| - 1], Clock(7, 0), 300)
  }

  /**
   * The OB5 blocks, in the order the source appends them, given Skärtorsdagen
   * `thu`, Långfredagen `fri`, Annandag påsk `mon`, the New Year rules and
   * the eves of Pentecost, Midsummer and Christmas.
   */
  function Ob5BlocksOf(thu: Date, fri: Date, mon: Date, newYears: seq<ObRule>, pingst: Date, midsummer: Date, christmas: Date): seq<ObRule>
  {
    HolidayInterval("OB5", Ob5Name, thu, Clock(18, 0), 150)
    + HolidayInterval("OB5", Ob5Name, fri, Midnight, 150)
    + HolidayInterval("OB5", Ob5Name, mon, Midnight, 150)
    + newYears
    + EveBlock("OB5", Ob5Name, pingst, pingst + 1, 150)
    + EveBlock("OB5", Ob5Name, midsummer, midsummer + 1, 150)
    + EveBlock("OB5", Ob5Name, christmas, christmas + 2, 150)
  }

  /** The OB5 blocks of Easter, New Year, Pentecost, Midsummer and Christmas of `year`. */
  function Ob5Blocks(year: int): seq<ObRule>
  {
    Ob5BlocksOf(Skartorsdagen(year), Langfredagen(year), Annandagpask(year), NewYearsRules(year),
      Pingstafton(year), Midsommarafton(year), Julafton(year))
  }

  /** `build_special_ob_rules_for_year`: the OB4 blocks, then the OB5 blocks. */
  function SpecialObRules(year: int): seq<ObRule>
  {
    Ob4Blocks(Ob4Holidays(year)) + Ob5Blocks(year)
  }

  /** The loop over the OB4 holidays. */
  method BuildOb4Blocks(days: seq<Date>) returns (rules: seq<ObRule>)
    ensures rules == Ob4Blocks(days)
  {
    rules := [];
    for k := 0 to |days|
      invariant rules == Ob4Blocks(days[..k])
    {
      assert days[..k + 1][..k] == days[..k];
      var block := BuildHolidayInterval("OB4", Ob4Name, days[k], Clock(7, 0), 300);
      rules := rules + block;
    }
    assert days[..|days|] == days;
  }

  /** The OB5 part of `build_special_ob_rules_for_year`, once the dates are known. */
  method BuildOb5BlocksOf(thu: Date, fri: Date, mon: Date, newYears: seq<ObRule>, pingst: Date, midsummer: Date, christmas: Date)
    returns (rules: seq<ObRule>)
    ensures rules == Ob5BlocksOf(thu, fri, mon, newYears, pingst, midsummer, christmas)
  {
    rules := BuildHolidayInterval("OB5", Ob5Name, thu, Clock(18, 0), 150);
    var block := BuildHolidayInterval("OB5", Ob5Name, fri, Midnight, 150);
    rules := rules + block;
    block := BuildHolidayInterval("OB5", Ob5Name, mon, Midnight, 150);
    rules := rules + block;
    rules := rules + newYears;
    block := BuildEveBlock("OB5", Ob5Name, pingst, pingst + 1, 150);
    rules := rules + block;
    block := BuildEveBlock("OB5", Ob5Name, midsummer, midsummer + 1, 150);
    rules := rules + block;
    block := BuildEveBlock("OB5", Ob5Name, christmas, christmas + 2, 150);
    rules := rules + block;
  }

  /** The OB5 part of `build_special_ob_rules_for_year`. */
  method BuildOb5Blocks(year: int) returns (rules: seq<ObRule>)
    ensures rules == Ob5Blocks(year)
  {
    var newYears := BuildNewYearsRules(year);
    var midsummerEve := FindMidsommarafton(year);
    rules := BuildOb5BlocksOf(Skartorsdagen(year), Langfredagen(year), Annandagpask(year), newYears,
      Pingstafton(year), midsummerEve, Julafton(year));
  }

  method BuildSpecialObRulesForYear(year: int) returns (rules: seq<ObRule>)
    ensures rules == SpecialObRules(year)
  {
    var ob4 := FindOb4Holidays(year);
    rules := BuildOb4Blocks(ob4);
    var ob5 := BuildOb5Blocks(year);
    rules := rules + ob5;
  }

  /** The OB4 holiday list, with Alla helgons dag found by its loop. */
  method FindOb4Holidays(year: int) returns (days: seq<Date>)
    ensures days == Ob4Holidays(year)
  {
    var allSaints := FindAllaHelgonsDag(year);
    days := [Trettondagen(year), ForstaMaj(year), Nationaldagen(year), KristiHimmelsfardsdag(year), allSaints];
  }

  /** The shape every generated rule has: OB4 at 300 or OB5 at 150, one date, a valid start, end "24:00". */
  predicate SpecialShape(r: ObRule)
  {
    && ((r.code == "OB4" && r.name == Ob4Name && r.rate == 300) || (r.code == "OB5" && r.name == Ob5Name && r.rate == 150))
    && r.days == [] && |r.specificDates| == 1
    && ValidClock(r.startTime) && r.endTime == EndOfDay
  }

  lemma BlockSpecialShape(code: string, name: string, start: Date, st: Clock, end: Date, rate: int)
    requires ValidClock(st)
    requires (code == "OB4" && name == Ob4Name && rate == 300) || (code == "OB5" && name == Ob5Name && rate == 150)
    ensures forall r :: r in DayBlock(code, name, start, st, end, rate) ==> SpecialShape(r)
  {
    BlockShape(code, name, start, st, end, rate);
  }

  lemma {:induction false} Ob4BlocksShape(days: seq<Date>)
    ensures forall r :: r in Ob4Blocks(days) ==> SpecialShape(r)
    decreases |days|
  {
    if days != [] {
      var last := days[|days| - 1];
      Ob4BlocksShape(days[..|days| - 1]);
      BlockSpecialShape("OB4", Ob4Name, last, Clock(7, 0), FirstWeekdayAfter(last), 300);
    }
  }

  lemma NewYearsRulesShape(year: int)
    ensures forall r :: r in NewYearsRules(year) ==> SpecialShape(r)
  {
    BlockSpecialShape("OB5", Ob5Name, Nyarsafton(year - 1), Clock(18, 0), FirstWeekdayAfter(Nyarsdagen(year)), 150);
    BlockSpecialShape("OB5", Ob5Name, Nyarsafton(year), Clock(18, 0), FirstWeekdayAfter(Nyarsdagen(year + 1)), 150);
  }

  lemma Ob5BlocksOfShape(thu: Date, fri: Date, mon: Date, newYears: seq<ObRule>, pingst: Date, midsummer: Date, christmas: Date)
    requires forall r :: r in newYears ==> SpecialShape(r)
    ensures forall r :: r in Ob5BlocksOf(thu, fri, mon, newYears, pingst, midsummer, christmas) ==> SpecialShape(r)
  {
    BlockSpecialShape("OB5", Ob5Name, thu, Clock(18, 0), FirstWeekdayAfter(thu), 150);
    BlockSpecialShape("OB5", Ob5Name, fri, Midnight, FirstWeekdayAfter(fri), 150);
    BlockSpecialShape("OB5", Ob5Name, mon, Midnight, FirstWeekdayAfter(mon), 150);
    BlockSpecialShape("OB5", Ob5Name, pingst, Clock(7, 0), FirstWeekdayAfter(pingst + 1), 150);
    BlockSpecialShape("OB5", Ob5Name, midsummer, Clock(7, 0), FirstWeekdayAfter(midsummer + 1), 150);
    BlockSpecialShape("OB5", Ob5Name, christmas, Clock(7, 0), FirstWeekdayAfter(christmas + 2), 150);
  }

  /**
   * Every holiday rule of a year is an OB4 rule at rate 300 or an OB5 rule
   * at rate 150, for exactly one date, from a valid start time to "24:00".
   */
  lemma SpecialObRulesShape(year: int)
    ensures forall r :: r in SpecialObRules(year) ==> SpecialShape(r)
  {
    Ob4BlocksShape(Ob4Holidays(year));
    NewYearsRulesShape(year);
    Ob5BlocksOfShape(Skartorsdagen(year), Langfredagen(year), Annandagpask(year), NewYearsRules(year),
      Pingstafton(year), Midsommarafton(year), Julafton(year));
  }
}
