/**
 * The Swedish holiday calendar of app/core/holidays.py: Easter Sunday by the
 * anonymous Gregorian computus, the feasts at fixed offsets from it, the
 * fixed-date holidays, the "first Saturday / Friday on or after" feasts and
 * the first weekday after a date.
 *
 * The three searches are `while` loops in the source; they are methods here,
 * each proved equal to a closed-form function that the rest of the model uses.
 */
module Holidays {
  import opened Calendar

  // ---------------------------------------------------------------------
  // Easter

  /**
   * The number of days from 22 March to Easter Sunday, `h + l - 7m` of the
   * computus; the month and day are read off `x + 114` by division by 31.
   */
  function EasterOffset(year: int): (x: int)
    ensures 0 <= x <= 34
  {
    var a := year % 19;
    var b := year / 100;
    var c := year % 100;
    var d := b / 4;
    var e := b % 4;
    var f := (b + 8) / 25;
    var g := (b - f + 1) / 3;
    var h := (19 * a + b - d - g + 15) % 30;
    var i := c / 4;
    var k := c % 4;
    var l := (32 + 2 * e + 2 * i - h - k) % 7;
    var m := (a + 11 * h + 22 * l) / 451;
    assert m == 1 ==> h >= 28 && l == 6;
    assert m == 0 ==> h + l <= 34;
    h + l - 7 * m
  }

  /** `easter_sunday(year)`: the month and day are read off `x + 114` by division by 31. */
  function EasterSunday(year: int): (r: Date)
    ensures r == DateOf(year, 3, 22) + EasterOffset(year)
  {
    var x := EasterOffset(year);
    var month := (x + 114) / 31;
    var day := (x + 114) % 31 + 1;
    assert x <= 9 ==> month == 3 && day == x + 22;
    assert x >= 10 ==> month == 4 && day == x - 9;
    DateOf(year, month, day)
  }

  /** Easter Sunday falls between 22 March and 25 April of its own year. */
  lemma EasterSundayRange(year: int)
    ensures DateOf(year, 3, 22) <= EasterSunday(year) <= DateOf(year, 4, 25)
  {
    DaysBeforeMonthStep(year, 3);
  }

  /** The ordinal of 22 March, written with the divisions by 4, 100 and 400 of `year` itself. */
  lemma March22Ordinal(year: int)
    ensures DateOf(year, 3, 22) == 365 * year - 365 + year / 4 - year / 100 + year / 400 + 81
  {
    var p := year - 1;
    assert year / 4 - p / 4 == (if year % 4 == 0 then 1 else 0);
    assert year / 100 - p / 100 == (if year % 100 == 0 then 1 else 0);
    assert year / 400 - p / 400 == (if year % 400 == 0 then 1 else 0);
  }

  lemma SixModSeven(x: int, n: int)
    requires x == 7 * n + 6
    ensures x % 7 == 6
  {
  }

  /** The weekday computation of the computus, with the digits of the year as separate unknowns. */
  lemma SundayLinear(year: int, b: int, c: int, d: int, e: int, i: int, k: int, h: int, l: int, m: int, q: int)
    requires year == 100 * b + c && b == 4 * d + e && c == 4 * i + k
    requires 0 <= k < 4 && 0 <= c < 100 && 0 <= e < 4
    requires 32 + 2 * e + 2 * i - h - k == 7 * q + l
    ensures (365 * year - 365 + year / 4 - year / 100 + year / 400 + 81 + (h + l - 7 * m) + 6) % 7 == 6
  {
    assert year / 4 == 25 * b + i;
    assert year / 100 == b;
    assert year / 400 == d;
    var n := 20871 * d + 5218 * e + 209 * i + 52 * k - 36 - q - m;
    SixModSeven(365 * year - 365 + year / 4 - year / 100 + year / 400 + 81 + (h + l - 7 * m) + 6, n);
  }

  /** How the digits of the year that the computus works with recompose the year. */
  lemma DigitsRecompose(year: int)
    ensures year == 100 * (year / 100) + year % 100 && 0 <= year % 100 < 100
    ensures year / 100 == 4 * (year / 100 / 4) + year / 100 % 4 && 0 <= year / 100 % 4 < 4
    ensures year % 100 == 4 * (year % 100 / 4) + year % 100 % 4 && 0 <= year % 100 % 4 < 4
  {
  }

  /** The computus, with the ordinal of 22 March, is six modulo seven from a Monday. */
  lemma EasterArith(year: int)
    ensures (365 * year - 365 + year / 4 - year / 100 + year / 400 + 81 + EasterOffset(year) + 6) % 7 == 6
  {
    var b, c := year / 100, year % 100;
    var d, e, i, k := b / 4, b % 4, c / 4, c % 4;
    DigitsRecompose(year);
    var a := year % 19;
    var f := (b + 8) / 25;
    var g := (b - f + 1) / 3;
    var h := (19 * a + b - d - g + 15) % 30;
    var l := (32 + 2 * e + 2 * i - h - k) % 7;
    var m := (a + 11 * h + 22 * l) / 451;
    var q := (32 + 2 * e + 2 * i - h - k) / 7;
    assert EasterOffset(year) == h + l - 7 * m;
    assert 32 + 2 * e + 2 * i - h - k == 7 * q + l;
    SundayLinear(year, b, c, d, e, i, k, h, l, m, q);
  }

  /** The computus lands on a Sunday in every year. */
  lemma EasterIsSunday(year: int)
    ensures Weekday(EasterSunday(year)) == 6
  {
    March22Ordinal(year);
    EasterArith(year);
  }

  /** Moving `k` days from a Sunday, stated on ordinals. */
  lemma FromSunday(o: int, k: int)
    requires (o + 6) % 7 == 6
    ensures (o + k + 6) % 7 == (k + 6) % 7
  {
    var q := (o + 6) / 7;
    assert o + k + 6 == 7 * q + (k + 6);
  }

  /** The day `k` days from Easter Sunday has the weekday of Sunday plus `k`. */
  lemma WeekdayFromEaster(year: int, k: int, w: int)
    requires (k + 6) % 7 == w
    ensures Weekday(EasterSunday(year) + k) == w
  {
    EasterIsSunday(year);
    FromSunday(EasterSunday(year), k);
  }

  /** Skärtorsdagen, three days before Easter Sunday, is a Thursday. */
  function Skartorsdagen(year: int): (r: Date)
    ensures Weekday(r) == 3
  {
    WeekdayFromEaster(year, -3, 3);
    EasterSunday(year) - 3
  }

  /** Långfredagen, two days before Easter Sunday, is a Friday. */
  function Langfredagen(year: int): (r: Date)
    ensures Weekday(r) == 4
  {
    WeekdayFromEaster(year, -2, 4);
    EasterSunday(year) - 2
  }

  /** Annandag påsk, the day after Easter Sunday, is a Monday. */
  function Annandagpask(year: int): (r: Date)
    ensures Weekday(r) == 0
  {
    WeekdayFromEaster(year, 1, 0);
    EasterSunday(year) + 1
  }

  /** Kristi himmelsfärds dag, 39 days after Easter Sunday, is a Thursday. */
  function KristiHimmelsfardsdag(year: int): (r: Date)
    ensures Weekday(r) == 3
  {
    WeekdayFromEaster(year, 39, 3);
    EasterSunday(year) + 39
  }

  /** Pingstafton, 48 days after Easter Sunday, is a Saturday. */
  function Pingstafton(year: int): (r: Date)
    ensures Weekday(r) == 5
  {
    WeekdayFromEaster(year, 48, 5);
    EasterSunday(year) + 48
  }

  /** Kristi himmelsfärd lies between 30 April and 3 June of its year. */
  lemma AscensionRange(year: int)
    ensures DateOf(year, 4, 30) <= KristiHimmelsfardsdag(year) <= DateOf(year, 6, 3)
  {
  }

  // ---------------------------------------------------------------------
  // Fixed dates

  function Trettondagen(year: int): Date { DateOf(year, 1, 6) }
  function ForstaMaj(year: int): Date { DateOf(year, 5, 1) }
  function Nationaldagen(year: int): Date { DateOf(year, 6, 6) }
  function Julafton(year: int): Date { DateOf(year, 12, 24) }
  function Nyarsafton(year: int): Date { DateOf(year, 12, 31) }
  function Nyarsdagen(year: int): Date { DateOf(year, 1, 1) }

  /** New Year's Day follows New Year's Eve of the year before. */
  lemma NewYearFollowsEve(year: int)
    ensures Nyarsafton(year) + 1 == Nyarsdagen(year + 1)
  {
    DaysBeforeYearStep(year);
  }

  // ---------------------------------------------------------------------
  // Searches by weekday

  /** Reaching weekday `w` from day `o`, stated on plain integers. */
  lemma ArriveArith(o: int, w: int)
    requires 0 <= w < 7
    ensures (o + (w - (o + 6) % 7 + 7) % 7 + 6) % 7 == w
  {
    var q := (o + 6) / 7;
    var wd := (o + 6) % 7;
    assert o + 6 == 7 * q + wd;
    var k := (w - wd + 7) % 7;
    assert k == (if w >= wd then w - wd else w - wd + 7);
  }

  /** No day before the arrival has weekday `w`. */
  lemma SkipArith(o: int, w: int, j: int)
    requires 0 <= w < 7 && 0 <= j < (w - (o + 6) % 7 + 7) % 7
    ensures (o + j + 6) % 7 != w
  {
    var q := (o + 6) / 7;
    var wd := (o + 6) % 7;
    assert o + 6 == 7 * q + wd;
    assert o + j + 6 == 7 * q + (wd + j);
  }

  /** The first day on or after `d` whose weekday is `w`: it is at most six days on, and no day before it qualifies. */
  function FirstOnOrAfter(d: Date, w: int): (r: Date)
    requires 0 <= w < 7
    ensures Weekday(r) == w
    ensures d <= r <= d + 6
    ensures forall j :: d <= j < r ==> Weekday(j) != w
  {
    var k := (w - (d + 6) % 7 + 7) % 7;
    ArriveArith(d, w);
    assert forall j :: d <= j < d + k ==> Weekday(j) != w by {
      forall j | d <= j < d + k ensures Weekday(j) != w {
        SkipArith(d, w, j - d);
      }
    }
    d + k
  }

  /** `alla_helgons_dag`: the first Saturday on or after 31 October. */
  function AllaHelgonsDag(year: int): Date
  {
    FirstOnOrAfter(DateOf(year, 10, 31), 5)
  }

  /** `midsommarafton`: the first Friday on or after 19 June. */
  function Midsommarafton(year: int): Date
  {
    FirstOnOrAfter(DateOf(year, 6, 19), 4)
  }

  /** Alla helgons dag is a Saturday from 31 October to 6 November. */
  lemma AllaHelgonsDagRange(year: int)
    ensures Weekday(AllaHelgonsDag(year)) == 5
    ensures DateOf(year, 10, 31) <= AllaHelgonsDag(year) <= DateOf(year, 11, 6)
  {
  }

  /** Midsommarafton is a Friday from 19 to 25 June. */
  lemma MidsommaraftonRange(year: int)
    ensures Weekday(Midsommarafton(year)) == 4
    ensures DateOf(year, 6, 19) <= Midsommarafton(year) <= DateOf(year, 6, 25)
  {
  }

  /** A `while` loop that steps one day at a time from `start` until the weekday is `w`. */
  method StepToWeekday(start: Date, w: int) returns (d: Date)
    requires 0 <= w < 7
    ensures d == FirstOnOrAfter(start, w)
  {
    var target := FirstOnOrAfter(start, w);
    d := start;
    while Weekday(d) != w
      invariant start <= d <= target
      decreases target - d
    {
      d := d + 1;
    }
  }

  /** The loop of `alla_helgons_dag`. */
  method FindAllaHelgonsDag(year: int) returns (d: Date)
    ensures d == AllaHelgonsDag(year)
  {
    d := StepToWeekday(DateOf(year, 10, 31), 5);
  }

  /** The loop of `midsommarafton`. */
  method FindMidsommarafton(year: int) returns (d: Date)
    ensures d == Midsommarafton(year)
  {
    d := StepToWeekday(DateOf(year, 6, 19), 4);
  }

  /** Days from a day of weekday `w` to the next Monday to Friday. */
  function DaysToNextWeekday(w: int): int
  {
    if w == 4 then 3 else if w == 5 then 2 else 1
  }

  /** The next weekday, stated on ordinals: the arrival is Monday to Friday and the days skipped are not. */
  lemma NextWeekdayArith(o: int, j: int)
    requires 1 <= j <= DaysToNextWeekday((o + 6) % 7)
    ensures j == DaysToNextWeekday((o + 6) % 7) ==> (o + j + 6) % 7 <= 4
    ensures j < DaysToNextWeekday((o + 6) % 7) ==> (o + j + 6) % 7 >= 5
  {
    var q := (o + 6) / 7;
    var w := (o + 6) % 7;
    assert o + j + 6 == 7 * q + (w + j);
  }

  /**
   * `first_weekday_after`: the next Monday to Friday strictly after `d`. It
   * is at most three days on and every day it skips is a Saturday or Sunday.
   */
  function FirstWeekdayAfter(d: Date): (r: Date)
    ensures d < r <= d + 3 && Weekday(r) <= 4
    ensures forall j :: d < j < r ==> Weekday(j) >= 5
  {
    var k := DaysToNextWeekday(Weekday(d));
    NextWeekdayArith(d, k);
    assert forall j :: d < j < d + k ==> Weekday(j) >= 5 by {
      forall j | d < j < d + k ensures Weekday(j) >= 5 {
        NextWeekdayArith(d, j - d);
      }
    }
    d + k
  }

  /** The `while` loop of `first_weekday_after`, which steps over weekend days. */
  method FindFirstWeekdayAfter(date: Date) returns (d: Date)
    ensures d == FirstWeekdayAfter(date)
  {
    var target := FirstWeekdayAfter(date);
    d := date + 1;
    while Weekday(d) >= 5
      invariant date < d <= target
      decreases target - d
    {
      d := d + 1;
    }
  }

  // ---------------------------------------------------------------------
  // The OB4 holidays

  /** `get_holiday_dates_for_year`: the red days that are not storhelg. */
  function GetHolidayDatesForYear(year: int): set<Date>
  {
    {Trettondagen(year), ForstaMaj(year), Nationaldagen(year), KristiHimmelsfardsdag(year), AllaHelgonsDag(year)}
  }

  /** The OB4 holidays in calendar order; only Kristi himmelsfärd moves between them. */
  lemma HolidayDatesOrder(year: int)
    ensures Trettondagen(year) < ForstaMaj(year) < Nationaldagen(year) < AllaHelgonsDag(year)
    ensures Trettondagen(year) < KristiHimmelsfardsdag(year) < Nationaldagen(year)
  {
    AscensionRange(year);
    AllaHelgonsDagRange(year);
  }

  /** Five values, of which only the fourth may equal the second. */
  lemma CountFive<T>(t: T, f: T, n: T, k: T, a: T)
    requires t != f && t != n && t != a && f != n && f != a && n != a
    requires t != k && n != k && a != k
    ensures |{t, f, n, k, a}| == if k == f then 4 else 5
  {
    var s := {t, f, n, a};
    assert |s| == 4;
    assert {t, f, n, k, a} == s + {k};
    if k == f {
      assert s + {k} == s;
    } else {
      assert k !in s;
    }
  }

  /**
   * The set has five dates, except in the years where Kristi himmelsfärd
   * falls on 1 May and the two collapse into one.
   */
  lemma HolidayDatesCount(year: int)
    ensures |GetHolidayDatesForYear(year)| == if KristiHimmelsfardsdag(year) == ForstaMaj(year) then 4 else 5
  {
    HolidayDatesOrder(year);
    CountFive(Trettondagen(year), ForstaMaj(year), Nationaldagen(year),
      KristiHimmelsfardsdag(year), AllaHelgonsDag(year));
  }

  lemma Easter2008()
    ensures EasterSunday(2008) == DateOf(2008, 3, 23)
  {
    assert 2008 % 19 == 13 && 2008 / 100 == 20 && 2008 % 100 == 8;
    assert (19 * 13 + 20 - 5 - 6 + 15) % 30 == 1;
    assert (32 + 2 * 0 + 2 * 2 - 1 - 0) % 7 == 0;
    assert (13 + 11 * 1 + 22 * 0) / 451 == 0;
    assert EasterOffset(2008) == 1;
  }

  /** In 2008 Kristi himmelsfärd fell on 1 May, so that year has four OB4 dates. */
  lemma AscensionOnMayDay2008()
    ensures KristiHimmelsfardsdag(2008) == ForstaMaj(2008)
    ensures |GetHolidayDatesForYear(2008)| == 4
  {
    Easter2008();
    HolidayDatesCount(2008);
  }
}
