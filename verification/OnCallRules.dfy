/**
 * The on-call rule set of a year, from app/core/oncall.py: the public
 * holidays, the "storhelg" blocks (major holidays that run until the first
 * weekday after them), and the rules generated from both, which are
 * appended to the configured base rules.
 */
module OnCallRules {
  import opened Calendar
  import opened Models
  import opened Holidays

  // ---------------------------------------------------------------------
  // Holidays and storhelg
  // ---------------------------------------------------------------------

  /**
   * The dates of one year that the on-call calendar reads, each computed by
   * the holiday function of the same name. `pingstdagen` is Easter Sunday
   * plus 49 days, `midsommardagen` the day after Midsommarafton, and
   * `prevNyarsafton` / `nextNyarsdagen` belong to the neighbouring years.
   */
  datatype Feasts = Feasts(
    nyarsdagen: Date, trettondagen: Date, forstaMaj: Date, nationaldagen: Date,
    julafton: Date, juldagen: Date, annandagJul: Date, nyarsafton: Date,
    langfredagen: Date, easter: Date, annandagpask: Date, skartorsdagen: Date,
    kristiHimmelsfard: Date, pingstafton: Date, pingstdagen: Date,
    midsommarafton: Date, midsommardagen: Date, allaHelgonsDag: Date,
    prevNyarsafton: Date, nextNyarsdagen: Date)

  function FeastsOf(year: int): Feasts
  {
    Feasts(
      Nyarsdagen(year), Trettondagen(year), ForstaMaj(year), Nationaldagen(year),
      Julafton(year), DateOf(year, 12, 25), DateOf(year, 12, 26), Nyarsafton(year),
      Langfredagen(year), EasterSunday(year), Annandagpask(year), Skartorsdagen(year),
      KristiHimmelsfardsdag(year), Pingstafton(year), EasterSunday(year) + 49,
      Midsommarafton(year), Midsommarafton(year) + 1, AllaHelgonsDag(year),
      Nyarsafton(year - 1), Nyarsdagen(year + 1))
  }

  /** `_get_holidays_for_year`: every public holiday and holiday eve the on-call rules know of. */
  function HolidaySet(f: Feasts): set<Date>
  {
    {f.nyarsdagen, f.trettondagen, f.forstaMaj, f.nationaldagen,
     f.julafton, f.juldagen, f.annandagJul, f.nyarsafton,
     f.langfredagen, f.easter, f.annandagpask, f.skartorsdagen,
     f.kristiHimmelsfard,
     f.pingstafton, f.pingstdagen,
     f.midsommarafton, f.midsommardagen,
     f.allaHelgonsDag}
  }

  function OcHolidays(year: int): set<Date>
  {
    HolidaySet(FeastsOf(year))
  }

  /** The dates `a <= d < b`. */
  function Days(a: Date, b: Date): (r: set<Date>)
    ensures forall d :: d in r <==> a <= d < b
    decreases b - a
  {
    if b <= a then {} else Days(a, b - 1) + {b - 1}
  }

  /**
   * `_get_storhelg_dates_for_year`: each block runs from its first day up to,
   * not including, the first weekday after its last holiday; New Year's Eve
   * is added on its own, and both the New Year that opens the year and the
   * one that follows it are included.
   */
  function StorhelgSet(f: Feasts): set<Date>
  {
    Days(f.julafton, FirstWeekdayAfter(f.annandagJul))
    + {f.nyarsafton}
    + Days(f.nextNyarsdagen, FirstWeekdayAfter(f.nextNyarsdagen))
    + Days(f.nyarsdagen, FirstWeekdayAfter(f.nyarsdagen))
    + Days(f.skartorsdagen, FirstWeekdayAfter(f.annandagpask))
    + Days(f.midsommarafton, FirstWeekdayAfter(f.midsommardagen))
    + Days(f.pingstafton, FirstWeekdayAfter(f.pingstdagen))
  }

  function StorhelgDates(year: int): set<Date>
  {
    StorhelgSet(FeastsOf(year))
  }

  /** One `while d < end` loop: adds the dates of [from, end) to `s`. */
  method AddBlock(s: set<Date>, from: Date, end: Date) returns (r: set<Date>)
    ensures r == s + Days(from, end)
  {
    r := s;
    var d := from;
    while d < end
      invariant r == s + Days(from, if d <= end then d else end)
      invariant from <= d || from >= end
      decreases end - d
    {
      r := r + {d};
      d := d + 1;
    }
  }

  /** The loops of `_get_storhelg_dates_for_year`, each end found by `first_weekday_after`. */
  method StorhelgDatesFor(f: Feasts) returns (s: set<Date>)
    ensures s == StorhelgSet(f)
  {
    var christmasEnd := FindFirstWeekdayAfter(f.annandagJul);
    s := AddBlock({}, f.julafton, christmasEnd);
    s := s + {f.nyarsafton};
    var newYearEnd := FindFirstWeekdayAfter(f.nextNyarsdagen);
    s := AddBlock(s, f.nextNyarsdagen, newYearEnd);
    var newYearEndThis := FindFirstWeekdayAfter(f.nyarsdagen);
    s := AddBlock(s, f.nyarsdagen, newYearEndThis);
    var easterEnd := FindFirstWeekdayAfter(f.annandagpask);
    s := AddBlock(s, f.skartorsdagen, easterEnd);
    var midsummerEnd := FindFirstWeekdayAfter(f.midsommardagen);
    s := AddBlock(s, f.midsommarafton, midsummerEnd);
    var pingstEnd := FindFirstWeekdayAfter(f.pingstdagen);
    s := AddBlock(s, f.pingstafton, pingstEnd);
  }

  /** How the dates of a year lie relative to one another. */
  predicate Consecutive(f: Feasts)
  {
    && f.juldagen == f.julafton + 1 && f.annandagJul == f.julafton + 2
    && f.langfredagen == f.skartorsdagen + 1 && f.easter == f.skartorsdagen + 3
    && f.annandagpask == f.skartorsdagen + 4
    && f.pingstdagen == f.pingstafton + 1 && f.midsommardagen == f.midsommarafton + 1
  }

  lemma FeastsOfConsecutive(year: int)
    ensures Consecutive(FeastsOf(year))
  {
  }

  /**
   * Every holiday other than the five OB4 holidays lies inside a storhelg
   * block, so the holidays that are not storhelg are those five minus the
   * ones a block reaches.
   */
  lemma RegularHolidaysOf(f: Feasts)
    requires Consecutive(f)
    ensures HolidaySet(f) - StorhelgSet(f) ==
      {f.trettondagen, f.forstaMaj, f.nationaldagen, f.kristiHimmelsfard, f.allaHelgonsDag} - StorhelgSet(f)
  {
    var st := StorhelgSet(f);
    assert f.nyarsdagen in st && f.nyarsafton in st;
    assert f.julafton in st && f.juldagen in st && f.annandagJul in st;
    assert f.skartorsdagen in st && f.langfredagen in st && f.easter in st && f.annandagpask in st;
    assert f.pingstafton in st && f.pingstdagen in st;
    assert f.midsommarafton in st && f.midsommardagen in st;
  }

  lemma RegularHolidays(year: int)
    ensures OcHolidays(year) - StorhelgDates(year) == GetHolidayDatesForYear(year) - StorhelgDates(year)
  {
    FeastsOfConsecutive(year);
    RegularHolidaysOf(FeastsOf(year));
  }

  // ---------------------------------------------------------------------
  // `sorted(...)` of a set of dates
  // ---------------------------------------------------------------------

  predicate IsMin(s: set<Date>, m: Date)
  {
    m in s && forall x :: x in s ==> m <= x
  }

  /** Some element of a non-empty set. */
  lemma Element(s: set<Date>) returns (x: Date)
    requires s != {}
    ensures x in s
  {
    assert (forall y :: y !in s) ==> s == {};
    x :| x in s;
  }

  lemma {:induction false} MinExists(s: set<Date>) returns (m: Date)
    requires s != {}
    ensures IsMin(s, m)
    decreases |s|
  {
    var x := Element(s);
    var rest := s - {x};
    if rest == {} {
      assert s == {x};
      m := x;
    } else {
      var m' := MinExists(rest);
      m := if x < m' then x else m';
      assert forall y :: y in s ==> y == x || y in rest;
    }
  }

  /** `sorted(s)`: the dates of `s`, each once, in increasing order. */
  function SortedSet(s: set<Date>): (r: seq<Date>)
    ensures forall d :: d in r <==> d in s
    ensures forall i, j :: 0 <= i < j < |r| ==> r[i] < r[j]
    ensures |r| == |s|
    decreases |s|
  {
    if s == {} then []
    else
      assert exists m :: IsMin(s, m) by {
        var m0 := MinExists(s);
      }
      var m :| IsMin(s, m);
      [m] + SortedSet(s - {m})
  }

  // ---------------------------------------------------------------------
  // The generated rules
  // ---------------------------------------------------------------------

  /**
   * The start of the OC_SPECIAL rule of storhelg date `d`: 18:00 on
   * Skärtorsdagen and New Year's Eve, 07:00 on Christmas Eve, Midsummer Eve
   * and Pentecost Eve, midnight on every other storhelg date.
   */
  function SpecialStart(d: Date, f: Feasts): Clock
  {
    if d == f.skartorsdagen || d == f.nyarsafton || d == f.prevNyarsafton then Clock(18, 0)
    else if d == f.julafton || d == f.midsommarafton || d == f.pingstafton then Clock(7, 0)
    else Midnight
  }

  function SpecialRule(d: Date, f: Feasts): OnCallRule
  {
    OnCallRule("OC_SPECIAL", "Oncall major holiday", [], [d], SpecialStart(d, f), Midnight, 250, 6, false)
  }

  function HolidayRule(d: Date): OnCallRule
  {
    OnCallRule("OC_HOLIDAY", "Oncall holiday", [], [d], Clock(7, 0), EndOfDay, 500, 5, false)
  }

  function EveRule(eve: Date): OnCallRule
  {
    OnCallRule("OC_HOLIDAY_EVE", "Oncall holiday eve", [], [eve], Clock(18, 0), EndOfDay, 700, 4, false)
  }

  /** One OC_SPECIAL rule per date, in the order of `ds`. */
  function SpecialRules(ds: seq<Date>, f: Feasts): (r: seq<OnCallRule>)
    ensures |r| == |ds| && forall i :: 0 <= i < |ds| ==> r[i] == SpecialRule(ds[i], f)
  {
    seq(|ds|, i requires 0 <= i < |ds| => SpecialRule(ds[i], f))
  }

  /** The eve of `d` gets its own rule when it is neither a holiday nor storhelg. */
  predicate EveEligible(d: Date, holidays: set<Date>, storhelg: set<Date>)
  {
    d - 1 !in holidays && d - 1 !in storhelg
  }

  /** An OC_HOLIDAY rule per date of `ds`, each followed by the rule of its eve when that is eligible. */
  function RegularRules(ds: seq<Date>, holidays: set<Date>, storhelg: set<Date>): seq<OnCallRule>
    decreases |ds|
  {
    if ds == [] then []
    else
      var n := |ds| - 1;
      var d := ds[n];
      RegularRules(ds[..n], holidays, storhelg) + [HolidayRule(d)]
      + (if EveEligible(d, holidays, storhelg) then [EveRule(d - 1)] else [])
  }

  /** `build_oncall_rules_for_year`: the base rules, then the storhelg rules, then the holiday rules. */
  function OncallRulesFor(base: seq<OnCallRule>, f: Feasts): seq<OnCallRule>
  {
    Assemble(base, f, HolidaySet(f), StorhelgSet(f))
  }

  /** The rules appended for the given holiday and storhelg sets. */
  function Assemble(base: seq<OnCallRule>, f: Feasts, holidays: set<Date>, storhelg: set<Date>): seq<OnCallRule>
  {
    base + SpecialRules(SortedSet(storhelg), f) + RegularRules(SortedSet(holidays - storhelg), holidays, storhelg)
  }

  function OncallRulesForYear(base: seq<OnCallRule>, year: int): seq<OnCallRule>
  {
    OncallRulesFor(base, FeastsOf(year))
  }

  /** The loops of `build_oncall_rules_for_year`, appending to `rules`. */
  method BuildOncallRules(base: seq<OnCallRule>, f: Feasts) returns (rules: seq<OnCallRule>)
    ensures rules == OncallRulesFor(base, f)
  {
    rules := [];
    for i := 0 to |base|
      invariant rules == base[..i]
    {
      rules := rules + [base[i]];
    }
    assert base[..|base|] == base;
    var holidays := HolidaySet(f);
    var storhelg := StorhelgDatesFor(f);
    rules := AppendGenerated(rules, f, holidays, storhelg);
  }

  /** The two loops over `sorted(storhelg_dates)` and `sorted(regular_holidays)`. */
  method AppendGenerated(base: seq<OnCallRule>, f: Feasts, holidays: set<Date>, storhelg: set<Date>)
    returns (rules: seq<OnCallRule>)
    ensures rules == Assemble(base, f, holidays, storhelg)
  {
    rules := AppendSpecial(base, f, SortedSet(storhelg));
    rules := AppendRegular(rules, SortedSet(holidays - storhelg), holidays, storhelg);
  }

  /** `for date in sorted(storhelg_dates)`: one OC_SPECIAL rule per date. */
  method AppendSpecial(base: seq<OnCallRule>, f: Feasts, specials: seq<Date>) returns (rules: seq<OnCallRule>)
    ensures rules == base + SpecialRules(specials, f)
  {
    rules := base;
    for i := 0 to |specials|
      invariant rules == base + SpecialRules(specials[..i], f)
    {
      assert SpecialRules(specials[..i + 1], f) == SpecialRules(specials[..i], f) + [SpecialRule(specials[i], f)];
      rules := rules + [SpecialRule(specials[i], f)];
    }
    assert specials[..|specials|] == specials;
  }

  /** `for date in sorted(regular_holidays)`: the holiday rule, then the eve rule when the eve qualifies. */
  method AppendRegular(base: seq<OnCallRule>, regular: seq<Date>, holidays: set<Date>, storhelg: set<Date>)
    returns (rules: seq<OnCallRule>)
    ensures rules == base + RegularRules(regular, holidays, storhelg)
  {
    rules := base;
    for i := 0 to |regular|
      invariant rules == base + RegularRules(regular[..i], holidays, storhelg)
    {
      var d := regular[i];
      assert regular[..i + 1][..i] == regular[..i] && regular[..i + 1][i] == d;
      assert RegularRules(regular[..i + 1], holidays, storhelg) == RegularRules(regular[..i], holidays, storhelg)
        + [HolidayRule(d)] + (if EveEligible(d, holidays, storhelg) then [EveRule(d - 1)] else []);
      rules := rules + [HolidayRule(d)];
      var eve := d - 1;
      if eve !in holidays && eve !in storhelg {
        rules := rules + [EveRule(eve)];
      }
    }
    assert regular[..|regular|] == regular;
  }

  /** `build_oncall_rules_for_year` for `year`. */
  method BuildOncallRulesForYear(base: seq<OnCallRule>, year: int) returns (rules: seq<OnCallRule>)
    ensures rules == OncallRulesForYear(base, year)
  {
    rules := BuildOncallRules(base, FeastsOf(year));
  }

  /** Every rule `RegularRules` emits is the holiday rule of one of its dates or the rule of an eligible eve. */
  lemma {:induction false} RegularRulesShape(ds: seq<Date>, holidays: set<Date>, storhelg: set<Date>)
    ensures forall d :: d in ds ==> HolidayRule(d) in RegularRules(ds, holidays, storhelg)
    ensures forall d :: d in ds && EveEligible(d, holidays, storhelg) ==> EveRule(d - 1) in RegularRules(ds, holidays, storhelg)
    ensures forall r :: r in RegularRules(ds, holidays, storhelg) ==>
      exists d :: d in ds && (r == HolidayRule(d) || (r == EveRule(d - 1) && EveEligible(d, holidays, storhelg)))
    decreases |ds|
  {
    if ds != [] {
      var n := |ds| - 1;
      RegularRulesShape(ds[..n], holidays, storhelg);
      assert ds == ds[..n] + [ds[n]];
      forall r | r in RegularRules(ds, holidays, storhelg)
        ensures exists d :: d in ds && (r == HolidayRule(d) || (r == EveRule(d - 1) && EveEligible(d, holidays, storhelg)))
      {
        if r in RegularRules(ds[..n], holidays, storhelg) {
          var d :| d in ds[..n] && (r == HolidayRule(d) || (r == EveRule(d - 1) && EveEligible(d, holidays, storhelg)));
          assert d in ds;
        } else {
          assert ds[n] in ds;
        }
      }
    }
  }

  /** `x` is the rule generated for some storhelg date, regular holiday or eligible eve. */
  ghost predicate Generated(x: OnCallRule, f: Feasts, holidays: set<Date>, storhelg: set<Date>)
  {
    exists d :: (d in storhelg && x == SpecialRule(d, f))
      || (d in holidays - storhelg && (x == HolidayRule(d) || (x == EveRule(d - 1) && EveEligible(d, holidays, storhelg))))
  }

  /**
   * The rule set of a year: the base rules come first and unchanged; every
   * storhelg date has its OC_SPECIAL rule; every holiday that is not storhelg
   * has its OC_HOLIDAY rule, and its eve an OC_HOLIDAY_EVE rule exactly when
   * the eve is neither a holiday nor storhelg; and nothing else is added.
   */
  lemma AssembleSpec(base: seq<OnCallRule>, f: Feasts, holidays: set<Date>, storhelg: set<Date>)
    ensures var r := Assemble(base, f, holidays, storhelg);
      && |base| <= |r| && r[..|base|] == base
      && (forall d :: d in storhelg ==> SpecialRule(d, f) in r)
      && (forall d :: d in holidays - storhelg ==> HolidayRule(d) in r)
      && (forall d :: d in holidays - storhelg && EveEligible(d, holidays, storhelg) ==> EveRule(d - 1) in r)
      && (forall i :: |base| <= i < |r| ==>
            Generated(r[i], f, holidays, storhelg))
  {
    AppendedRules(base, f, SortedSet(storhelg), SortedSet(holidays - storhelg), holidays, storhelg);
  }

  /** `AssembleSpec` for any listing `ss` of the storhelg dates and `ds` of the regular holidays. */
  lemma AppendedRules(base: seq<OnCallRule>, f: Feasts, ss: seq<Date>, ds: seq<Date>, holidays: set<Date>, storhelg: set<Date>)
    requires forall d :: d in ss <==> d in storhelg
    requires forall d :: d in ds <==> d in holidays - storhelg
    ensures var r := base + SpecialRules(ss, f) + RegularRules(ds, holidays, storhelg);
      && |base| <= |r| && r[..|base|] == base
      && (forall d :: d in storhelg ==> SpecialRule(d, f) in r)
      && (forall d :: d in holidays - storhelg ==> HolidayRule(d) in r)
      && (forall d :: d in holidays - storhelg && EveEligible(d, holidays, storhelg) ==> EveRule(d - 1) in r)
      && (forall i :: |base| <= i < |r| ==>
            Generated(r[i], f, holidays, storhelg))
  {
    var sp := SpecialRules(ss, f);
    var rg := RegularRules(ds, holidays, storhelg);
    var r := base + sp + rg;
    assert r == base + (sp + rg);
    SpecialRulesShape(ss, f);
    RegularRulesShape(ds, holidays, storhelg);
    forall i | |base| <= i < |r|
      ensures Generated(r[i], f, holidays, storhelg)
    {
      assert r[i] == (sp + rg)[i - |base|];
      if r[i] in sp {
        var d :| d in ss && r[i] == SpecialRule(d, f);
        assert d in storhelg && r[i] == SpecialRule(d, f);
      } else {
        assert r[i] in rg;
        var d :| d in ds && (r[i] == HolidayRule(d) || (r[i] == EveRule(d - 1) && EveEligible(d, holidays, storhelg)));
        assert d in holidays - storhelg && (r[i] == HolidayRule(d) || (r[i] == EveRule(d - 1) && EveEligible(d, holidays, storhelg)));
      }
    }
  }

  /** Every date of `ds` has its OC_SPECIAL rule, and those are all the rules. */
  lemma SpecialRulesShape(ds: seq<Date>, f: Feasts)
    ensures forall d :: d in ds ==> SpecialRule(d, f) in SpecialRules(ds, f)
    ensures forall r :: r in SpecialRules(ds, f) ==> exists d :: d in ds && r == SpecialRule(d, f)
  {
    var sp := SpecialRules(ds, f);
    forall d | d in ds ensures SpecialRule(d, f) in sp {
      var i :| 0 <= i < |ds| && ds[i] == d;
      assert sp[i] == SpecialRule(d, f);
    }
    forall r | r in sp ensures exists d :: d in ds && r == SpecialRule(d, f) {
      var i :| 0 <= i < |sp| && sp[i] == r;
      assert ds[i] in ds;
    }
  }

  /** The eve of the year before comes before every storhelg block of the year. */
  predicate PrevEveFirst(f: Feasts)
  {
    && f.prevNyarsafton < f.nyarsdagen && f.nyarsdagen <= f.julafton && f.nyarsdagen <= f.nyarsafton
    && f.nyarsdagen <= f.nextNyarsdagen && f.nyarsdagen <= f.skartorsdagen
    && f.nyarsdagen <= f.midsommarafton && f.nyarsdagen <= f.pingstafton
  }

  lemma PrevEveFirstOf(year: int)
    ensures PrevEveFirst(FeastsOf(year))
  {
    NewYearFollowsEve(year - 1);
    NewYearFollowsEve(year);
    MidsommaraftonRange(year);
    assert EasterSunday(year) >= DateOf(year, 3, 22);
  }

  /**
   * The `nyarsafton(year - 1)` case of the 18:00 start never applies: the
   * eve of the year before lies before every storhelg block of `year`.
   */
  lemma PrevEveOutside(f: Feasts)
    requires PrevEveFirst(f)
    ensures f.prevNyarsafton !in StorhelgSet(f)
  {
  }

  lemma PreviousEveNeverStorhelg(year: int)
    ensures Nyarsafton(year - 1) !in StorhelgDates(year)
  {
    PrevEveFirstOf(year);
    PrevEveOutside(FeastsOf(year));
  }
}
