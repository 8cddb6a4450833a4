/**
 * Time-of-day text: the rule-time parser `_parse_time` of
 * app/core/oncall.py, and `parse_ot_times` of app/core/time_utils.py, which
 * turns an overtime shift's start and end values into two instants.
 *
 * Python's `str.strip`, `str.split(":")`, `int(...)` and
 * `datetime.strptime` with "%H:%M" / "%H:%M:%S" are written out on
 * `seq<char>`. `int` reads the decimal digits of every script (module
 * Digits); the `strptime` fields read ASCII digits.
 */
module TimeText {
  import opened Wrappers
  import opened Calendar
  import opened Models
  import Digits

  // ---------------------------------------------------------------------
  // Characters and numerals
  // ---------------------------------------------------------------------

  /** The characters Python's `str.isspace` accepts. */
  predicate IsSpace(c: char)
  {
    c == ' ' || ('\t' <= c <= '\r') || ('\U{1c}' <= c <= '\U{1f}')
    || c == '\U{85}' || c == '\U{a0}' || c == '\U{1680}'
    || ('\U{2000}' <= c <= '\U{200a}') || c == '\U{2028}' || c == '\U{2029}'
    || c == '\U{202f}' || c == '\U{205f}' || c == '\U{3000}'
  }

  predicate AllSpaces(s: string)
  {
    forall i :: 0 <= i < |s| ==> IsSpace(s[i])
  }

  predicate IsDigit(c: char)
  {
    '0' <= c <= '9'
  }

  predicate AllDigits(s: string)
  {
    forall i :: 0 <= i < |s| ==> IsDigit(s[i])
  }

  function DigitValue(c: char): int
    requires IsDigit(c)
  {
    c as int - '0' as int
  }

  /** The character of a decimal digit. */
  function Digit(n: int): char
    requires 0 <= n <= 9
  {
    ('0' as int + n) as char
  }

  lemma DigitInjective(a: int, b: int)
    requires 0 <= a <= 9 && 0 <= b <= 9
    ensures Digit(a) == Digit(b) <==> a == b
  {
    assert Digit(a) as int == '0' as int + a;
    assert Digit(b) as int == '0' as int + b;
  }

  /** The value of a decimal numeral, most significant digit first. */
  function NumeralValue(s: string): nat
    requires AllDigits(s)
  {
    if s == [] then 0 else NumeralValue(s[..|s| - 1]) * 10 + DigitValue(s[|s| - 1])
  }

  /** A two-digit, zero-padded numeral, as `strftime("%H")` writes one. */
  function TwoDigits(n: int): string
    requires 0 <= n <= 99
  {
    [Digit(n / 10), Digit(n % 10)]
  }

  lemma TwoDigitsValue(n: int)
    requires 0 <= n <= 99
    ensures AllDigits(TwoDigits(n)) && NumeralValue(TwoDigits(n)) == n
    ensures !IsSpace(TwoDigits(n)[0]) && !IsSpace(TwoDigits(n)[1])
    ensures ':' !in TwoDigits(n)
  {
    var s := TwoDigits(n);
    assert s[..1] == [Digit(n / 10)];
    assert NumeralValue(s[..1]) == n / 10 by {
      assert s[..1][..0] == [];
    }
  }

  // ---------------------------------------------------------------------
  // str.strip
  // ---------------------------------------------------------------------

  function StripLeft(s: string): string
  {
    if s != [] && IsSpace(s[0]) then StripLeft(s[1..]) else s
  }

  function StripRight(s: string): string
  {
    if s != [] && IsSpace(s[|s| - 1]) then StripRight(s[..|s| - 1]) else s
  }

  /** `str.strip()`: leading and trailing whitespace removed. */
  function Strip(s: string): string
  {
    StripRight(StripLeft(s))
  }

  /** Text whose first and last characters are not whitespace. */
  predicate Trimmed(t: string)
  {
    t == [] || (!IsSpace(t[0]) && !IsSpace(t[|t| - 1]))
  }

  lemma {:induction false} StripLeftPadded(p: string, t: string)
    requires AllSpaces(p)
    requires t == [] || !IsSpace(t[0])
    ensures StripLeft(p + t) == t
    decreases |p|
  {
    if p == [] {
      assert p + t == t;
    } else {
      assert (p + t)[1..] == p[1..] + t;
      StripLeftPadded(p[1..], t);
    }
  }

  lemma {:induction false} StripRightPadded(t: string, q: string)
    requires AllSpaces(q)
    requires t == [] || !IsSpace(t[|t| - 1])
    ensures StripRight(t + q) == t
    decreases |q|
  {
    if q == [] {
      assert t + q == t;
    } else {
      assert (t + q)[..|t + q| - 1] == t + q[..|q| - 1];
      StripRightPadded(t, q[..|q| - 1]);
    }
  }

  /** Stripping removes exactly the whitespace padding around trimmed text. */
  lemma StripPadded(p: string, t: string, q: string)
    requires AllSpaces(p) && AllSpaces(q) && Trimmed(t)
    ensures Strip(p + t + q) == t
  {
    if t == [] {
      assert p + t + q == p + q;
      StripLeftSpaces(p + q);
    } else {
      assert p + t + q == p + (t + q);
      StripLeftPadded(p, t + q);
      StripRightPadded(t, q);
    }
  }

  lemma {:induction false} StripLeftSpaces(s: string)
    requires AllSpaces(s)
    ensures StripLeft(s) == []
    decreases |s|
  {
    if s != [] {
      StripLeftSpaces(s[1..]);
    }
  }

  // ---------------------------------------------------------------------
  // str.split(sep)
  // ---------------------------------------------------------------------

  /** The first position of `c` in `s`. */
  function IndexOf(s: string, c: char): (i: nat)
    requires c in s
    ensures i < |s| && s[i] == c && c !in s[..i]
  {
    if s[0] == c then 0 else 1 + IndexOf(s[1..], c)
  }

  /** `s.split(sep)`: the pieces between the occurrences of `sep`. */
  function Split(s: string, sep: char): seq<string>
    decreases |s|
  {
    if sep !in s then [s]
    else
      var i := IndexOf(s, sep);
      [s[..i]] + Split(s[i + 1..], sep)
  }

  /** `sep.join(parts)`. */
  function Join(parts: seq<string>, sep: char): string
  {
    if parts == [] then []
    else if |parts| == 1 then parts[0]
    else parts[0] + [sep] + Join(parts[1..], sep)
  }

  /** Splitting loses nothing: joining the pieces gives the text back, and no piece holds the separator. */
  lemma SplitJoin(s: string, sep: char)
    ensures |Split(s, sep)| >= 1
    ensures Join(Split(s, sep), sep) == s
    ensures forall k :: 0 <= k < |Split(s, sep)| ==> sep !in Split(s, sep)[k]
  {
    SplitJoinBack(s, sep);
    SplitPiecesFree(s, sep);
  }

  /** Joining the pieces of a split gives the text back. */
  lemma {:induction false} SplitJoinBack(s: string, sep: char)
    ensures Join(Split(s, sep), sep) == s
    decreases |s|
  {
    if sep in s {
      var i := IndexOf(s, sep);
      var head, tail := s[..i], s[i + 1..];
      SplitJoinBack(tail, sep);
      var rest := Split(tail, sep);
      assert Split(s, sep) == [head] + rest;
      JoinCons(head, rest, sep);
      assert s == head + [sep] + tail by {
        assert s == s[..i] + [s[i]] + s[i + 1..];
      }
    }
  }

  /** Joining a piece in front of at least one more puts the separator between them. */
  lemma JoinCons(head: string, rest: seq<string>, sep: char)
    requires |rest| >= 1
    ensures Join([head] + rest, sep) == head + [sep] + Join(rest, sep)
  {
    assert ([head] + rest)[1..] == rest;
  }

  /** No piece of a split holds the separator. */
  lemma {:induction false} SplitPiecesFree(s: string, sep: char)
    ensures forall k :: 0 <= k < |Split(s, sep)| ==> sep !in Split(s, sep)[k]
    decreases |s|
  {
    if sep in s {
      var i := IndexOf(s, sep);
      var tail := s[i + 1..];
      SplitPiecesFree(tail, sep);
      var rest := Split(tail, sep);
      var parts := [s[..i]] + rest;
      assert Split(s, sep) == parts;
      assert forall k :: 1 <= k < |parts| ==> parts[k] == rest[k - 1];
    }
  }

  /** The piece before the first separator is split off first. */
  lemma SplitAt(a: string, sep: char, b: string)
    requires sep !in a
    ensures Split(a + [sep] + b, sep) == [a] + Split(b, sep)
  {
    var s := a + [sep] + b;
    assert s[|a|] == sep;
    var i := IndexOf(s, sep);
    assert forall j :: 0 <= j < |a| ==> s[j] == a[j];
    forall j | |a| < j <= |s|
      ensures sep in s[..j]
    {
      assert s[..j][|a|] == sep;
    }
    assert s[..i] == a;
    assert s[i + 1..] == b;
  }

  // ---------------------------------------------------------------------
  // int(...)
  // ---------------------------------------------------------------------

  /**
   * `int(text)`: surrounding whitespace, an optional sign, then decimal
   * digits of any script with single underscores allowed between them.
   */
  function ParseInt(text: string): (r: Option<int>)
    ensures r.Some? ==> Strip(text) != []
  {
    var t := Strip(text);
    if t != [] && (t[0] == '-' || t[0] == '+') then
      match Digits.ReadDecimal(t[1..])
      case Some(n) =>
        var v: int := if t[0] == '-' then -(n as int) else n;
        Some(v)
      case None => None
    else
      match Digits.ReadDecimal(t)
      case Some(n) => Some(n)
      case None => None
  }

  /** The two digits `strftime` writes read back as their number. */
  lemma ParseIntTwoDigits(n: int)
    requires 0 <= n <= 99
    ensures ParseInt(TwoDigits(n)) == Some(n)
  {
    var s := TwoDigits(n);
    TwoDigitsValue(n);
    StripPadded([], s, []);
    assert [] + s + [] == s;
    var x := [Digits.Dec(n / 10), Digits.Dec(n % 10)];
    assert Digits.Symbols(s) == x;
    assert Digits.Lead(x) == x[..1] && Digits.ReadSymbols(x[..1]) == Some(n / 10);
    assert Digits.ReadDecimal(s) == Some(n / 10 * 10 + n % 10) == Some(n);
  }

  /** `int` reads an underscore between digits and ignores surrounding blanks. */
  lemma ParseIntUnderscore()
    ensures ParseInt(" 0_7 ") == Some(7)
  {
    var s := "0_7";
    var x := [Digits.Dec(0), Digits.Underscore, Digits.Dec(7)];
    assert Digits.Symbols(s) == x;
    assert Digits.Lead(x) == x[..1];
    assert Digits.ReadDecimal(s) == Some(7);
    StripPadded(" ", s, " ");
    assert " " + s + " " == " 0_7 ";
  }

  /** `int` reads Arabic-Indic digits after a sign. */
  lemma ParseIntArabicIndic()
    ensures ParseInt("-\U{663}") == Some(-3)
  {
    StripPadded([], "-\U{663}", []);
    assert [] + "-\U{663}" + [] == "-\U{663}";
    Digits.DigitSamples();
    assert "-\U{663}"[1..] == "\U{663}";
    assert Digits.Symbols("\U{663}") == [Digits.Dec(3)];
  }

  /** `int` refuses a blank between the sign and the digits. */
  lemma ParseIntSpacedSign()
    ensures ParseInt("- 7").None?
  {
    StripPadded([], "- 7", []);
    assert [] + "- 7" + [] == "- 7";
    assert "- 7"[1..] == " 7";
  }

  // ---------------------------------------------------------------------
  // _parse_time of the on-call engine
  // ---------------------------------------------------------------------

  /**
   * `_parse_time`: the literal "24:00" is the end of the day; any other
   * text must split on ':' into exactly two integers, which are returned
   * unchecked. A failure is the ValueError of the unpacking or of `int`.
   */
  function ParseRuleTime(s: string): (r: Option<Clock>)
    ensures s == "24:00" ==> r == Some(EndOfDay)
    ensures r.Some? && s != "24:00" ==> |Split(s, ':')| == 2
  {
    if s == "24:00" then Some(EndOfDay)
    else
      var parts := Split(s, ':');
      if |parts| != 2 then None
      else
        match (ParseInt(parts[0]), ParseInt(parts[1]))
        case (Some(h), Some(m)) => Some(Clock(h, m))
        case _ => None
  }

  /** A rule time as the configuration writes it: "HH:MM". */
  function FormatClock(c: Clock): string
    requires ValidClock(c)
  {
    TwoDigits(c.hour) + ":" + TwoDigits(c.minute)
  }

  /** Every valid clock written as "HH:MM" reads back as itself, and "24:00" reads as the end of the day. */
  lemma ParseRuleTimeRoundTrip(c: Clock)
    requires ValidClock(c)
    ensures ParseRuleTime(FormatClock(c)) == Some(c)
    ensures ParseRuleTime("24:00") == Some(Clock(24, 0))
  {
    var a, b := TwoDigits(c.hour), TwoDigits(c.minute);
    TwoDigitsValue(c.hour);
    TwoDigitsValue(c.minute);
    assert FormatClock(c)[0] == Digit(c.hour / 10) && FormatClock(c)[1] == Digit(c.hour % 10);
    assert c.hour / 10 != 2 || c.hour % 10 != 4;
    assert FormatClock(c) != "24:00";
    assert FormatClock(c) == a + [':'] + b;
    SplitAt(a, ':', b);
    assert Split(b, ':') == [b];
    ParseIntTwoDigits(c.hour);
    ParseIntTwoDigits(c.minute);
  }

  /**
   * `_parse_time` checks no range: any two-digit hour and minute read back
   * as written (so "25:99" is hour 25, minute 99); only "24:00" is special.
   */
  lemma ParseRuleTimeUnchecked(h: int, m: int)
    requires 0 <= h <= 99 && 0 <= m <= 99 && (h != 24 || m != 0)
    ensures ParseRuleTime(TwoDigits(h) + ":" + TwoDigits(m)) == Some(Clock(h, m))
  {
    var s := TwoDigits(h) + ":" + TwoDigits(m);
    assert s[0] == Digit(h / 10) && s[1] == Digit(h % 10) && s[3] == Digit(m / 10) && s[4] == Digit(m % 10);
    DigitInjective(h / 10, 2);
    DigitInjective(h % 10, 4);
    DigitInjective(m / 10, 0);
    DigitInjective(m % 10, 0);
    assert s != "24:00";
    SplitTwoFields(h, m);
    ParseIntTwoDigits(h);
    ParseIntTwoDigits(m);
  }

  /** Two two-digit fields joined by a colon split back into those fields. */
  lemma SplitTwoFields(h: int, m: int)
    requires 0 <= h <= 99 && 0 <= m <= 99
    ensures Split(TwoDigits(h) + ":" + TwoDigits(m), ':') == [TwoDigits(h), TwoDigits(m)]
  {
    var a, b := TwoDigits(h), TwoDigits(m);
    assert a + ":" + b == a + [':'] + b;
    SplitAt(a, ':', b);
    assert Split(b, ':') == [b];
  }

  // ---------------------------------------------------------------------
  // parse_ot_times
  // ---------------------------------------------------------------------

  /** A second of the day, the value of a `datetime.time` (microseconds are not modelled). */
  type SecondOfDay = x: int | 0 <= x < SecondsPerDay

  /** A strptime field: one digit, or two digits at most `max`. */
  function Field(f: string, max: int): (r: Option<int>)
    ensures r.Some? ==> 0 <= r.value <= max || (max < 9 && |f| == 1)
    ensures r.Some? ==> 0 <= r.value <= 99
  {
    if AllDigits(f) && (|f| == 1 || (|f| == 2 && NumeralValue(f) <= max)) then
      assert |f| == 1 ==> f[..0] == [] && NumeralValue(f) == DigitValue(f[0]);
      assert |f| == 2 ==> NumeralValue(f) == NumeralValue(f[..1]) * 10 + DigitValue(f[1]);
      assert |f| == 2 ==> f[..1][..0] == [] && NumeralValue(f[..1]) == DigitValue(f[0]);
      Some(NumeralValue(f))
    else None
  }

  /** `datetime.strptime(s, "%H:%M")`: hours 0-23 and minutes 0-59, each one digit or two. */
  function StrptimeHM(s: string): (r: Option<SecondOfDay>)
    ensures r.Some? ==> r.value % 60 == 0
  {
    var parts := Split(s, ':');
    if |parts| == 2 then
      match (Field(parts[0], 23), Field(parts[1], 59))
      case (Some(h), Some(m)) => Some(h * 3600 + m * 60)
      case _ => None
    else None
  }

  /**
   * `datetime.strptime(s, "%H:%M:%S")`; seconds 60 and 61 pass the
   * pattern but `datetime` refuses them, so seconds run 0-59.
   */
  function StrptimeHMS(s: string): Option<SecondOfDay>
  {
    var parts := Split(s, ':');
    if |parts| == 3 then
      match (Field(parts[0], 23), Field(parts[1], 59), Field(parts[2], 59))
      case (Some(h), Some(m), Some(sec)) => Some(h * 3600 + m * 60 + sec)
      case _ => None
    else None
  }

  /** The format is chosen by the number of ':'-separated pieces: two means "%H:%M". */
  function ParseClockText(s: string): Option<SecondOfDay>
  {
    if |Split(s, ':')| == 2 then StrptimeHM(s) else StrptimeHMS(s)
  }

  /** "HH:MM" as the configuration writes it reads back as its second of the day. */
  lemma StrptimeHMRoundTrip(h: int, m: int)
    requires 0 <= h <= 23 && 0 <= m <= 59
    ensures StrptimeHM(TwoDigits(h) + ":" + TwoDigits(m)) == Some(h * 3600 + m * 60)
  {
    var a, b := TwoDigits(h), TwoDigits(m);
    TwoDigitsValue(h);
    TwoDigitsValue(m);
    assert TwoDigits(h) + ":" + TwoDigits(m) == a + [':'] + b;
    SplitAt(a, ':', b);
    assert Split(b, ':') == [b];
  }

  /** What an overtime shift holds as its start or end time; `OtherType("NoneType")` is a missing one. */
  datatype TimeValue = TimeOfDay(second: SecondOfDay) | TimeString(text: string) | OtherType(typeName: string)

  /** The ValueError cases of `parse_ot_times`. */
  datatype OtError =
    | EmptyTime(field: string)
    | InvalidFormat(field: string, value: string)
    | UnsupportedType(field: string, typeName: string)

  /** `_to_time`: a time passes through; a string is stripped and parsed; anything else is refused. */
  function ToTime(v: TimeValue, field: string): (r: Result<SecondOfDay, OtError>)
    ensures v.TimeOfDay? ==> r == Ok(v.second)
    ensures v.OtherType? ==> r == Err(UnsupportedType(field, v.typeName))
  {
    match v
    case TimeOfDay(sec) => Ok(sec)
    case TimeString(text) =>
      var s := Strip(text);
      if s == [] then Err(EmptyTime(field))
      else
        (match ParseClockText(s)
         case Some(sec) => Ok(sec)
         case None => Err(InvalidFormat(field, text)))
    case OtherType(name) =>
      assert !v.TimeString?;
      Err(UnsupportedType(field, name))
  }

  /**
   * `parse_ot_times`: both times are read (the start first, so its error
   * wins) and placed on `date`; an end not after the start moves to the
   * next day. The result is a pair of instants in seconds.
   */
  function ParseOtTimes(startValue: TimeValue, endValue: TimeValue, date: Date): (r: Result<(int, int), OtError>)
    ensures r.Ok? <==> ToTime(startValue, "start_time").Ok? && ToTime(endValue, "end_time").Ok?
    ensures ToTime(startValue, "start_time").Err? ==> r == Err(ToTime(startValue, "start_time").error)
    ensures r.Ok? ==> At(date, 0) <= r.value.0 < At(date + 1, 0)
    ensures r.Ok? ==> r.value.0 < r.value.1 <= r.value.0 + SecondsPerDay
  {
    match ToTime(startValue, "start_time")
    case Err(e) => Err(e)
    case Ok(startSecond) =>
      match ToTime(endValue, "end_time")
      case Err(e) => Err(e)
      case Ok(endSecond) =>
        var startAt := At(date, startSecond);
        var endAt := At(date, endSecond);
        Ok((startAt, if endAt <= startAt then endAt + SecondsPerDay else endAt))
  }

  /** The end lands on the next day exactly when its clock is not after the start's. */
  lemma ParseOtTimesOvernight(startValue: TimeValue, endValue: TimeValue, date: Date)
    requires ParseOtTimes(startValue, endValue, date).Ok?
    ensures var (s, e) := ParseOtTimes(startValue, endValue, date).value;
      var startSecond := ToTime(startValue, "start_time").value;
      var endSecond := ToTime(endValue, "end_time").value;
      s == At(date, startSecond)
      && (endSecond <= startSecond <==> e == At(date + 1, endSecond))
      && (startSecond < endSecond <==> e == At(date, endSecond))
  {
  }

  /** "HH:MM" and "HH:MM:SS" text, with any whitespace padding, is read back as its second of the day. */
  lemma OtTimeTextRoundTrip(h: int, m: int, sec: int, p: string, q: string, field: string)
    requires 0 <= h <= 23 && 0 <= m <= 59 && 0 <= sec <= 59
    requires AllSpaces(p) && AllSpaces(q)
    ensures ToTime(TimeString(p + TwoDigits(h) + ":" + TwoDigits(m) + q), field) == Ok(h * 3600 + m * 60)
    ensures ToTime(TimeString(p + TwoDigits(h) + ":" + TwoDigits(m) + ":" + TwoDigits(sec) + q), field)
      == Ok(h * 3600 + m * 60 + sec)
  {
    HourMinuteRoundTrip(h, m, p, q, field);
    HourMinuteSecondRoundTrip(h, m, sec, p, q, field);
  }

  /** The "HH:MM" half of `OtTimeTextRoundTrip`. */
  lemma HourMinuteRoundTrip(h: int, m: int, p: string, q: string, field: string)
    requires 0 <= h <= 23 && 0 <= m <= 59
    requires AllSpaces(p) && AllSpaces(q)
    ensures ToTime(TimeString(p + TwoDigits(h) + ":" + TwoDigits(m) + q), field) == Ok(h * 3600 + m * 60)
  {
    var a, b := TwoDigits(h), TwoDigits(m);
    TwoDigitsValue(h);
    TwoDigitsValue(m);
    var hm := a + [':'] + b;
    assert Trimmed(hm);
    assert p + TwoDigits(h) + ":" + TwoDigits(m) + q == p + hm + q;
    StripPadded(p, hm, q);
    SplitAt(a, ':', b);
    assert Split(b, ':') == [b];
    assert ParseClockText(hm) == Some(h * 3600 + m * 60);
  }

  /** The "HH:MM:SS" half of `OtTimeTextRoundTrip`. */
  lemma HourMinuteSecondRoundTrip(h: int, m: int, sec: int, p: string, q: string, field: string)
    requires 0 <= h <= 23 && 0 <= m <= 59 && 0 <= sec <= 59
    requires AllSpaces(p) && AllSpaces(q)
    ensures ToTime(TimeString(p + TwoDigits(h) + ":" + TwoDigits(m) + ":" + TwoDigits(sec) + q), field)
      == Ok(h * 3600 + m * 60 + sec)
  {
    var a, b, c := TwoDigits(h), TwoDigits(m), TwoDigits(sec);
    TwoDigitsValue(h);
    TwoDigitsValue(m);
    TwoDigitsValue(sec);
    var bc := b + [':'] + c;
    var hms := a + [':'] + bc;
    assert Trimmed(hms);
    assert p + TwoDigits(h) + ":" + TwoDigits(m) + ":" + TwoDigits(sec) + q == p + hms + q;
    StripPadded(p, hms, q);
    SplitAt(a, ':', bc);
    SplitAt(b, ':', c);
    assert Split(c, ':') == [c];
    assert Split(hms, ':') == [a, b, c];
    assert ParseClockText(hms) == Some(h * 3600 + m * 60 + sec);
  }

  /** Text that is only whitespace is refused as empty, not as malformed. */
  lemma BlankOtTimeIsEmpty(text: string, field: string)
    requires AllSpaces(text)
    ensures Strip(text) == []
    ensures ToTime(TimeString(text), field) == Err(EmptyTime(field))
  {
    StripLeftSpaces(text);
  }
}
