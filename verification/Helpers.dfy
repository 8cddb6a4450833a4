/**
 * Template and route helpers (app/core/helpers.py): the text colour for a
 * badge, who may see salary figures, and the removal of salary figures
 * from summaries. Summaries are JSON-like dictionaries.
 */
module Helpers {
  import opened Wrappers

  // ---------------------------------------------------------------------
  // `contrast_color`
  // ---------------------------------------------------------------------

  /** `s.lstrip("#")`: every leading '#' removed. */
  function LStripHash(s: string): (r: string)
    ensures r == [] || r[0] != '#'
    ensures |r| <= |s| && r == s[|s| - |r|..]
  {
    if |s| > 0 && s[0] == '#' then LStripHash(s[1..]) else s
  }

  /** `"".join([c * 2 for c in h])`: each character twice. */
  function Doubled(h: string): (r: string)
    ensures |r| == 2 * |h|
    ensures forall i :: 0 <= i < |h| ==> r[2 * i] == h[i] && r[2 * i + 1] == h[i]
  {
    if h == [] then [] else [h[0], h[0]] + Doubled(h[1..])
  }

  /** `s[i:j]` for `0 <= i <= j`: indices past the end are cut to the length. */
  function Slice(s: string, i: nat, j: nat): (r: string)
    requires i <= j
    ensures |r| <= j - i
  {
    var a := if i < |s| then i else |s|;
    var b := if j < |s| then j else |s|;
    s[a..b]
  }

  /** The value of an ASCII hexadecimal digit. */
  function HexValue(c: char): (r: Option<int>)
    ensures r.Some? ==> 0 <= r.value < 16
  {
    if '0' <= c <= '9' then Some(c as int - '0' as int)
    else if 'a' <= c <= 'f' then Some(c as int - 'a' as int + 10)
    else if 'A' <= c <= 'F' then Some(c as int - 'A' as int + 10)
    else None
  }

  /** Python's `str.isspace` for one character: the characters `strip()` and `int()` remove. */
  predicate IsSpace(c: char)
  {
    ('\t' <= c <= '\r') || ('\U{1C}' <= c <= ' ') || c == '\U{85}' || c == '\U{A0}' || c == '\U{1680}' ||
    ('\U{2000}' <= c <= '\U{200A}') || c == '\U{2028}' || c == '\U{2029}' || c == '\U{202F}' ||
    c == '\U{205F}' || c == '\U{3000}'
  }

  /**
   * `int(s, 16)` for a field of at most two characters: one or two
   * digits, or one digit with a sign before it or a blank on either side.
   * Anything else, the empty field included, is a `ValueError`.
   */
  function ParseHexField(s: string): (r: Option<int>)
    requires |s| <= 2
    ensures r.Some? ==> -15 <= r.value <= 255
    ensures |s| == 2 && HexValue(s[0]).Some? && HexValue(s[1]).Some? ==> r == Some(16 * HexValue(s[0]).value + HexValue(s[1]).value)
    ensures s == [] ==> r.None?
  {
    if |s| == 1 then HexValue(s[0])
    else if |s| == 2 then
      var a := HexValue(s[0]);
      var b := HexValue(s[1]);
      if a.Some? && b.Some? then Some(16 * a.value + b.value)
      else if s[0] == '-' && b.Some? then Some(-b.value)
      else if (s[0] == '+' || IsSpace(s[0])) && b.Some? then b
      else if a.Some? && IsSpace(s[1]) then a
      else None
    else None
  }

  /** The channels of a colour field, when all three parse. */
  function Channels(hexColor: string): Option<(int, int, int)>
  {
    ChannelsOf(LStripHash(hexColor))
  }

  /** The channels of a colour with its '#' removed; three characters are first doubled. */
  function ChannelsOf(h0: string): Option<(int, int, int)>
  {
    var h := if |h0| == 3 then Doubled(h0) else h0;
    var r := ParseHexField(Slice(h, 0, 2));
    var g := ParseHexField(Slice(h, 2, 4));
    var b := ParseHexField(Slice(h, 4, 6));
    if r.Some? && g.Some? && b.Some? then Some((r.value, g.value, b.value)) else None
  }

  /** The luminance test `(0.299 r + 0.587 g + 0.114 b) / 255 > 0.5`, in whole numbers. */
  predicate Light(r: int, g: int, b: int)
  {
    299 * r + 587 * g + 114 * b > 127500
  }

  /**
   * `contrast_color`: black text on a light background, white otherwise;
   * white for an empty or unreadable colour.
   */
  function ContrastColor(hexColor: string): (r: string)
    ensures r == "#000" || r == "#fff"
    ensures r == "#000" <==> (hexColor != "" && Channels(hexColor).Some? &&
                              Light(Channels(hexColor).value.0, Channels(hexColor).value.1, Channels(hexColor).value.2))
  {
    if hexColor == "" then "#fff"
    else
      var c := Channels(hexColor);
      if c.None? then "#fff"
      else if Light(c.value.0, c.value.1, c.value.2) then "#000" else "#fff"
  }

  /** The short form `#abc` gives the colour of `#aabbcc`. */
  lemma ShortFormExpands(h: string)
    requires |h| == 3 && h[0] != '#'
    ensures ContrastColor("#" + h) == ContrastColor("#" + Doubled(h))
  {
    HashStripped(h);
    HashStripped(Doubled(h));
    assert ChannelsOf(h) == ChannelsOf(Doubled(h));
  }

  /** One leading '#' before a text that does not start with '#' is stripped. */
  lemma HashStripped(h: string)
    requires h != [] && h[0] != '#'
    ensures LStripHash("#" + h) == h
  {
    assert ("#" + h)[1..] == h;
  }

  /** Six hex digits are read as the red, green and blue bytes. */
  lemma SixDigitChannels(h: string)
    requires |h| == 6 && forall i :: 0 <= i < 6 ==> HexValue(h[i]).Some?
    ensures Channels("#" + h) == Some((
      16 * HexValue(h[0]).value + HexValue(h[1]).value,
      16 * HexValue(h[2]).value + HexValue(h[3]).value,
      16 * HexValue(h[4]).value + HexValue(h[5]).value))
  {
    assert h[0] != '#';
    HashStripped(h);
    PairField(h, 0);
    PairField(h, 2);
    PairField(h, 4);
  }

  /** Two hex digits at `i` are read as one byte. */
  lemma PairField(h: string, i: nat)
    requires i + 2 <= |h| && HexValue(h[i]).Some? && HexValue(h[i + 1]).Some?
    ensures ParseHexField(Slice(h, i, i + 2)) == Some(16 * HexValue(h[i]).value + HexValue(h[i + 1]).value)
  {
    assert Slice(h, i, i + 2) == [h[i], h[i + 1]];
  }

  /** A colour of fewer than three characters after the '#' cannot be read, so the text is white. */
  lemma ShortColourWhite(hexColor: string)
    requires |LStripHash(hexColor)| < 3
    ensures ContrastColor(hexColor) == "#fff"
  {
    ShortChannels(LStripHash(hexColor));
  }

  /** Fewer than three characters leave the blue field empty. */
  lemma ShortChannels(h: string)
    requires |h| < 3
    ensures ChannelsOf(h).None?
  {
    assert Slice(h, 4, 6) == [];
  }

  // ---------------------------------------------------------------------
  // `can_see_salary`
  // ---------------------------------------------------------------------

  datatype Role = UserRole | AdminRole

  /** The signed-in user, as the helpers read it. */
  datatype Viewer = Viewer(id: int, role: Role)

  /**
   * `can_see_salary`: nobody signed out, every position for an
   * administrator, and otherwise only the user's own.
   */
  function CanSeeSalary(user: Option<Viewer>, targetPersonId: int): (r: bool)
    ensures user.None? ==> !r
    ensures user.Some? && user.value.role == AdminRole ==> r
    ensures user.Some? && user.value.role != AdminRole ==> (r <==> user.value.id == targetPersonId)
  {
    if user.None? then false
    else if user.value.role == AdminRole then true
    else user.value.id == targetPersonId
  }

  // ---------------------------------------------------------------------
  // Stripping salary figures
  // ---------------------------------------------------------------------

  /** A JSON-like value of a summary dictionary. */
  datatype Value = Null | Number(x: real) | Text(s: string) | Table(fields: map<string, Value>) | List(items: seq<Value>)

  const EmptyTable: Value := Table(map[])

  /** Python truthiness. */
  predicate Truthy(v: Value)
  {
    match v
    case Null => false
    case Number(x) => x != 0.0
    case Text(s) => s != ""
    case Table(m) => m != map[]
    case List(xs) => xs != []
  }

  /** The month-summary keys that `strip_salary_data` sets. */
  const MonthSalaryKeys: set<string> := {"brutto_pay", "netto_pay", "ob_pay", "ob_hours", "total_ob"}

  /** Whether the stripped value of a salary key is an empty table rather than null. */
  predicate TableKey(k: string)
  {
    k in {"ob_pay", "ob_hours", "ob_hours_by_code", "ob_pay_by_code"}
  }

  /** A day dictionary with its OB pay and hours emptied. */
  function StripDay(day: map<string, Value>): (r: map<string, Value>)
    ensures r.Keys == day.Keys + {"ob_pay", "ob_hours"}
    ensures r["ob_pay"] == EmptyTable && r["ob_hours"] == EmptyTable
    ensures forall k :: k in day && k != "ob_pay" && k != "ob_hours" ==> r[k] == day[k]
  {
    day["ob_pay" := EmptyTable]["ob_hours" := EmptyTable]
  }

  /** The days can be stripped: absent, falsy, or a list of dictionaries, as `day.copy()` and item assignment need. */
  predicate DaysStrippable(data: map<string, Value>)
  {
    "days" in data && Truthy(data["days"]) ==>
      data["days"].List? && forall i :: 0 <= i < |data["days"].items| ==> data["days"].items[i].Table?
  }

  /** The salary keys set to null or an empty table, every other key kept. */
  function WithSalaryCleared(data: map<string, Value>): (r: map<string, Value>)
    ensures r.Keys == data.Keys + MonthSalaryKeys
    ensures forall k :: k in MonthSalaryKeys ==> r[k] == (if TableKey(k) then EmptyTable else Null)
    ensures forall k :: k in data && k !in MonthSalaryKeys ==> r[k] == data[k]
  {
    data["brutto_pay" := Null]["netto_pay" := Null]["ob_pay" := EmptyTable]["ob_hours" := EmptyTable]["total_ob" := Null]
  }

  /** The value of `strip_salary_data`. */
  function Stripped(data: map<string, Value>): map<string, Value>
    requires DaysStrippable(data)
  {
    var result := WithSalaryCleared(data);
    if "days" in result && Truthy(result["days"]) then
      var days := result["days"].items;
      result["days" := List(seq(|days|, i requires 0 <= i < |days| => Table(StripDay(days[i].fields))))]
    else result
  }

  /**
   * `strip_salary_data`: a copy with the salary figures nulled and the OB
   * tables emptied, at the top level and in a copy of every day.
   */
  method StripSalaryData(data: map<string, Value>) returns (result: map<string, Value>)
    requires DaysStrippable(data)
    ensures result == Stripped(data)
  {
    result := data;
    result := result["brutto_pay" := Null];
    result := result["netto_pay" := Null];
    result := result["ob_pay" := EmptyTable];
    result := result["ob_hours" := EmptyTable];
    result := result["total_ob" := Null];
    assert result == WithSalaryCleared(data);
    if "days" in result && Truthy(result["days"]) {
      var days := result["days"].items;
      var strippedDays: seq<Value> := [];
      for i := 0 to |days|
        invariant |strippedDays| == i
        invariant forall j :: 0 <= j < i ==> strippedDays[j] == Table(StripDay(days[j].fields))
      {
        var dayCopy := days[i].fields;
        dayCopy := dayCopy["ob_pay" := EmptyTable];
        dayCopy := dayCopy["ob_hours" := EmptyTable];
        strippedDays := strippedDays + [Table(dayCopy)];
      }
      assert strippedDays == seq(|days|, i requires 0 <= i < |days| => Table(StripDay(days[i].fields)));
      result := result["days" := List(strippedDays)];
    }
  }

  /**
   * What stripping keeps and changes: the salary keys are null or empty,
   * every other key but `days` is unchanged, and each day keeps its keys
   * and values except its OB tables, which are empty.
   */
  lemma StrippedSpec(data: map<string, Value>)
    requires DaysStrippable(data)
    ensures var r := Stripped(data);
      r.Keys == data.Keys + MonthSalaryKeys &&
      (forall k :: k in MonthSalaryKeys ==> r[k] == (if TableKey(k) then EmptyTable else Null)) &&
      (forall k :: k in data && k !in MonthSalaryKeys && k != "days" ==> r[k] == data[k]) &&
      ("days" in data && !Truthy(data["days"]) ==> r["days"] == data["days"])
    ensures var r := Stripped(data);
      "days" in data && Truthy(data["days"]) ==>
        r["days"].List? && |r["days"].items| == |data["days"].items| &&
        forall i :: 0 <= i < |data["days"].items| ==> r["days"].items[i] == Table(StripDay(data["days"].items[i].fields))
  {
  }

  /** Stripping twice is stripping once. */
  lemma StripIdempotent(data: map<string, Value>)
    requires DaysStrippable(data)
    ensures DaysStrippable(Stripped(data))
    ensures Stripped(Stripped(data)) == Stripped(data)
  {
    var once := Stripped(data);
    StrippedSpec(data);
    ClearedTwice(data, once);
    if "days" in data && Truthy(data["days"]) {
      var days := once["days"].items;
      forall i | 0 <= i < |days|
        ensures StripDay(days[i].fields) == days[i].fields
      {
        StripDayTwice(data["days"].items[i].fields);
      }
      assert Stripped(once)["days"] == once["days"];
    }
  }

  /** Clearing keeps a map whose salary keys are already cleared. */
  lemma ClearedTwice(data: map<string, Value>, once: map<string, Value>)
    requires once.Keys == data.Keys + MonthSalaryKeys
    requires forall k :: k in MonthSalaryKeys ==> once[k] == (if TableKey(k) then EmptyTable else Null)
    ensures WithSalaryCleared(once) == once
  {
  }

  /** Stripping a stripped day changes nothing. */
  lemma StripDayTwice(day: map<string, Value>)
    ensures StripDay(StripDay(day)) == StripDay(day)
  {
  }

  /** The year-summary keys that `strip_year_summary` sets. */
  const YearSalaryKeys: set<string> :=
    {"total_netto", "total_brutto", "total_ob", "avg_netto", "avg_brutto", "avg_ob",
     "ob_hours_by_code", "ob_pay_by_code", "total_ob_hours"}

  /** `strip_year_summary`: the listed salary keys nulled or emptied, everything else kept. */
  function StripYearSummary(summary: map<string, Value>): (r: map<string, Value>)
    ensures r.Keys == summary.Keys + YearSalaryKeys
    ensures forall k :: k in YearSalaryKeys ==> r[k] == (if TableKey(k) then EmptyTable else Null)
    ensures forall k :: k in summary && k !in YearSalaryKeys ==> r[k] == summary[k]
  {
    summary["total_netto" := Null]["total_brutto" := Null]["total_ob" := Null]
      ["avg_netto" := Null]["avg_brutto" := Null]["avg_ob" := Null]
      ["ob_hours_by_code" := EmptyTable]["ob_pay_by_code" := EmptyTable]["total_ob_hours" := Null]
  }

  /** Stripping a year summary twice is stripping it once. */
  lemma StripYearIdempotent(summary: map<string, Value>)
    ensures StripYearSummary(StripYearSummary(summary)) == StripYearSummary(summary)
  {
  }
}
