/**
 * The profile routes of app/routes/profile.py that change a user: the
 * password change, the vacation-week form and the day-level vacation sync.
 */
module Profile {
  import opened Wrappers
  import opened Calendar
  import opened Users
  import Helpers
  import Digits

  // ---------------------------------------------------------------------
  // Text: `str.split(",")` and `str.strip()`
  // ---------------------------------------------------------------------

  /** `s.split(sep)`: the pieces between separators, empty ones included. */
  function SplitOn(s: string, sep: char): (r: seq<string>)
    ensures |r| >= 1
    ensures forall i :: 0 <= i < |r| ==> sep !in r[i]
    decreases |s|
  {
    if sep !in s then [s]
    else
      var i := IndexOf(s, sep);
      [s[..i]] + SplitOn(s[i + 1..], sep)
  }

  /** The first index of `c` in `s`, which holds it. */
  function IndexOf(s: string, c: char): (i: nat)
    requires c in s
    ensures i < |s| && s[i] == c && c !in s[..i]
  {
    if s[0] == c then 0
    else
      var j := IndexOf(s[1..], c);
      assert s[..j + 1] == [s[0]] + s[1..][..j];
      j + 1
  }

  /** The first occurrence is the one with none before it. */
  lemma IndexOfAt(s: string, c: char, i: nat)
    requires i < |s| && s[i] == c && c !in s[..i]
    ensures IndexOf(s, c) == i
  {
    var j := IndexOf(s, c);
    assert j <= i by {
      assert c in s[..j + 1];
      assert s[..i + 1][i] == c;
    }
  }

  /** Splitting at a separator splits each side on its own. */
  lemma {:induction false} SplitOnAppend(a: string, b: string, sep: char)
    ensures SplitOn(a + [sep] + b, sep) == SplitOn(a, sep) + SplitOn(b, sep)
    decreases |a|
  {
    var s := a + [sep] + b;
    assert sep in s by {
      assert s[|a|] == sep;
    }
    if sep !in a {
      assert s[..|a|] == a;
      IndexOfAt(s, sep, |a|);
      assert s[|a| + 1..] == b;
      assert SplitOn(s, sep) == [a] + SplitOn(b, sep);
    } else {
      var i := IndexOf(a, sep);
      var tail := a[i + 1..];
      assert s[..i] == a[..i];
      IndexOfAt(s, sep, i);
      assert s[i + 1..] == tail + [sep] + b;
      SplitOnAppend(tail, b, sep);
      assert SplitOn(s, sep) == [a[..i]] + (SplitOn(tail, sep) + SplitOn(b, sep));
      assert SplitOn(a, sep) == [a[..i]] + SplitOn(tail, sep);
    }
  }

  predicate Blank(s: string)
  {
    forall i :: 0 <= i < |s| ==> Helpers.IsSpace(s[i])
  }

  /** `s.strip()`: leading and trailing whitespace removed. */
  function Strip(s: string): (r: string)
    ensures r == [] <==> Blank(s)
    ensures r != [] ==> !Helpers.IsSpace(r[0]) && !Helpers.IsSpace(r[|r| - 1])
    ensures |r| <= |s|
    decreases |s|
  {
    if s == [] then []
    else if Helpers.IsSpace(s[0]) then
      var r := Strip(s[1..]);
      assert Blank(s[1..]) ==> Blank(s) by {
        if Blank(s[1..]) {
          forall i | 0 <= i < |s| ensures Helpers.IsSpace(s[i]) {
            if i > 0 { assert s[i] == s[1..][i - 1]; }
          }
        }
      }
      r
    else if Helpers.IsSpace(s[|s| - 1]) then Strip(s[..|s| - 1])
    else s
  }

  // ---------------------------------------------------------------------
  // The vacation-week form
  // ---------------------------------------------------------------------

  /** What the comprehension makes of one stripped token. */
  datatype TokenRead =
    | Skipped          // `isdigit()` is false: the filter drops it
    | Read(n: int)     // `int()` reads it as `n`
    | Refused          // `isdigit()` holds but `int()` raises `ValueError`: a superscript-like digit

  /**
   * `int(w)` if `w.isdigit()`: a token `isdigit` accepts is refused exactly
   * when one of its digits is not decimal.
   */
  function ReadToken(w: string): (r: TokenRead)
    ensures r == Skipped <==> !Digits.IsDigits(w)
    ensures r == Refused <==> Digits.IsDigits(w) && exists i :: 0 <= i < |w| && !Digits.IsDecimal(w[i])
    ensures r.Read? ==> Digits.ReadDecimal(w) == Some(r.n)
  {
    if !Digits.IsDigits(w) then Skipped
    else
      Digits.IsDigitsReadable(w);
      match Digits.ReadDecimal(w)
      case Some(n) => Read(n)
      case None => Refused
  }

  /** How the comprehension reads each stripped token. */
  function Readings(tokens: seq<string>): (r: seq<TokenRead>)
    ensures |r| == |tokens| && forall i :: 0 <= i < |tokens| ==> r[i] == ReadToken(Strip(tokens[i]))
  {
    if tokens == [] then []
    else Readings(tokens[..|tokens| - 1]) + [ReadToken(Strip(tokens[|tokens| - 1]))]
  }

  /** The values read, in order, or `None` for the `ValueError` of a refused token. */
  function Collect(readings: seq<TokenRead>): Option<seq<int>>
  {
    if readings == [] then Some([])
    else
      match Collect(readings[..|readings| - 1])
      case None => None
      case Some(rest) =>
        match readings[|readings| - 1]
        case Skipped => Some(rest)
        case Read(n) => Some(rest + [n])
        case Refused => None
  }

  /** Collecting fails exactly when some token is refused. */
  lemma {:induction false} CollectRefused(readings: seq<TokenRead>)
    ensures Collect(readings).None? <==> Refused in readings
  {
    if readings != [] {
      var init := readings[..|readings| - 1];
      CollectRefused(init);
      assert readings == init + [readings[|readings| - 1]];
    }
  }

  /** When it succeeds, collecting keeps exactly the values read. */
  lemma {:induction false} CollectRead(readings: seq<TokenRead>)
    requires Collect(readings).Some?
    ensures forall x :: x in Collect(readings).value <==> Read(x) in readings
  {
    if readings != [] {
      var init := readings[..|readings| - 1];
      CollectRead(init);
      assert readings == init + [readings[|readings| - 1]];
    }
  }

  /** `[int(w.strip()) for w in tokens if w.strip().isdigit()]`, or `None` for its `ValueError`. */
  function TokenValues(tokens: seq<string>): Option<seq<int>>
  {
    Collect(Readings(tokens))
  }

  /**
   * The comprehension fails exactly when some token is refused; otherwise it
   * holds exactly the values of the tokens read.
   */
  lemma TokenValuesSpec(tokens: seq<string>)
    ensures TokenValues(tokens).None? <==> exists i :: 0 <= i < |tokens| && ReadToken(Strip(tokens[i])) == Refused
    ensures TokenValues(tokens).Some? ==>
      forall x :: x in TokenValues(tokens).value <==> exists i :: 0 <= i < |tokens| && ReadToken(Strip(tokens[i])) == Read(x)
  {
    var readings := Readings(tokens);
    CollectRefused(readings);
    if Collect(readings).Some? {
      CollectRead(readings);
    }
    assert forall r :: r in readings <==> exists i :: 0 <= i < |tokens| && readings[i] == r;
  }

  /** `[w for w in xs if 1 <= w <= 53]`. */
  function InWeekRange(xs: seq<int>): (r: seq<int>)
    ensures forall x :: x in r <==> x in xs && 1 <= x <= 53
  {
    if xs == [] then []
    else
      var rest := InWeekRange(xs[..|xs| - 1]);
      var x := xs[|xs| - 1];
      assert xs == xs[..|xs| - 1] + [x];
      if 1 <= x <= 53 then rest + [x] else rest
  }

  predicate StrictlyIncreasing(s: seq<int>)
  {
    forall i, j :: 0 <= i < j < |s| ==> s[i] < s[j]
  }

  /** `x` placed into an increasing list, unless it is already there. */
  function InsertUnique(s: seq<int>, x: int): (r: seq<int>)
    requires StrictlyIncreasing(s)
    ensures StrictlyIncreasing(r)
    ensures forall y :: y in r <==> y in s || y == x
  {
    if s == [] then [x]
    else if x < s[0] then [x] + s
    else if x == s[0] then s
    else
      var rest := InsertUnique(s[1..], x);
      assert forall y :: y in s <==> y == s[0] || y in s[1..];
      assert forall k :: 0 <= k < |rest| ==> s[0] < rest[k] by {
        forall k | 0 <= k < |rest|
          ensures s[0] < rest[k]
        {
          assert rest[k] in rest;
          if rest[k] != x {
            var m :| 0 <= m < |s[1..]| && s[1..][m] == rest[k];
            assert s[m + 1] == rest[k];
          }
        }
      }
      [s[0]] + rest
  }

  /** `sorted(set(xs))`: the distinct values of `xs` in increasing order. */
  function SortedSet(xs: seq<int>): (r: seq<int>)
    ensures StrictlyIncreasing(r)
    ensures forall y :: y in r <==> y in xs
  {
    if xs == [] then []
    else
      var x := xs[|xs| - 1];
      assert xs == xs[..|xs| - 1] + [x];
      InsertUnique(SortedSet(xs[..|xs| - 1]), x)
  }

  /**
   * The week list of `update_vacation`: the comma-separated tokens that are
   * digits once stripped, read as numbers, kept in 1..53, without duplicates
   * and in increasing order; a blank field gives no weeks. `None` is the
   * `ValueError` of a digit token `int()` refuses.
   */
  function ParseWeeks(weeks: string): Option<seq<int>>
  {
    if Strip(weeks) != [] then
      match TokenValues(SplitOn(weeks, ','))
      case Some(values) => Some(SortedSet(InWeekRange(values)))
      case None => None
    else Some([])
  }

  /**
   * What `ParseWeeks` promises: it fails exactly when a token of a
   * non-blank field is unreadable; otherwise the list is increasing and holds
   * exactly the values of the readable tokens that lie in 1..53.
   */
  lemma ParseWeeksSpec(weeks: string)
    ensures ParseWeeks(weeks).None? <==>
      !Blank(weeks) && exists i :: 0 <= i < |SplitOn(weeks, ',')| && ReadToken(Strip(SplitOn(weeks, ',')[i])) == Refused
    ensures ParseWeeks(weeks).Some? ==> StrictlyIncreasing(ParseWeeks(weeks).value)
    ensures forall w :: ParseWeeks(weeks).Some? ==> (w in ParseWeeks(weeks).value <==>
      !Blank(weeks) && 1 <= w <= 53 &&
      exists i :: 0 <= i < |SplitOn(weeks, ',')| && ReadToken(Strip(SplitOn(weeks, ',')[i])) == Read(w))
  {
    TokenValuesSpec(SplitOn(weeks, ','));
  }

  /** A blank field clears the year's weeks. */
  lemma BlankWeeksEmpty(weeks: string)
    requires Blank(weeks)
    ensures ParseWeeks(weeks) == Some([])
  {
  }

  /** A token added after a comma is read after the tokens before it, and the field is then not blank. */
  lemma AppendedToken(weeks: string, token: string)
    requires ',' !in token
    ensures !Blank(weeks + [','] + token)
    ensures TokenValues(SplitOn(weeks + [','] + token, ',')) ==
      Collect(Readings(SplitOn(weeks, ',')) + [ReadToken(Strip(token))])
  {
    assert !Helpers.IsSpace((weeks + [','] + token)[|weeks|]);
    SplitOnAppend(weeks, token, ',');
    var tokens := SplitOn(weeks, ',') + [token];
    assert SplitOn(token, ',') == [token];
    assert tokens[..|tokens| - 1] == SplitOn(weeks, ',');
  }

  /** A token that is not digits once stripped changes nothing. */
  lemma JunkTokenIgnored(weeks: string, junk: string)
    requires !Blank(weeks) && ',' !in junk && ReadToken(Strip(junk)) == Skipped
    ensures ParseWeeks(weeks + [','] + junk) == ParseWeeks(weeks)
  {
    AppendedToken(weeks, junk);
    var readings := Readings(SplitOn(weeks, ',')) + [Skipped];
    assert readings[..|readings| - 1] == Readings(SplitOn(weeks, ','));
  }

  /** A token whose digits `int()` refuses, such as a superscript two, makes the whole form fail. */
  lemma UnreadableTokenFails(weeks: string, token: string)
    requires ',' !in token && ReadToken(Strip(token)) == Refused
    ensures ParseWeeks(weeks + [','] + token).None?
  {
    AppendedToken(weeks, token);
    CollectRefused(Readings(SplitOn(weeks, ',')) + [Refused]);
  }

  /** The Arabic-Indic digit three is read as the number 3. */
  lemma ArabicIndicToken()
    ensures ReadToken("\U{663}") == Read(3)
  {
    Digits.DigitSamples();
    assert Digits.Symbols("\U{663}") == [Digits.Dec(3)];
    assert Digits.IsDigits("\U{663}") && Digits.ReadDecimal("\U{663}") == Some(3);
  }

  lemma ArabicIndicValues()
    ensures TokenValues(["\U{663}"]) == Some([3])
  {
    var three := "\U{663}";
    assert Strip(three) == three;
    ArabicIndicToken();
    assert Readings([three]) == [Read(3)] by {
      assert [three][..0] == [];
    }
    var rs := [Read(3)];
    assert rs[..0] == [] && Collect(rs[..0]) == Some([]);
    assert [] + [3] == [3];
  }

  /** An Arabic-Indic three is read as week 3. */
  lemma ArabicIndicWeek()
    ensures ParseWeeks("\U{663}") == Some([3])
  {
    var three := "\U{663}";
    assert Strip(three) == three && SplitOn(three, ',') == [three];
    ArabicIndicValues();
    assert InWeekRange([3]) == [3] by {
      assert [3][..0] == [];
    }
    assert SortedSet([3]) == [3] by {
      assert [3][..0] == [];
    }
  }

  /** "5,²" fails as a whole instead of keeping week 5: `int()` refuses the superscript two. */
  lemma SuperscriptWeekFails()
    ensures ParseWeeks("5,\U{B2}").None?
  {
    var two := "\U{B2}";
    Digits.DigitSamples();
    assert Strip(two) == two;
    assert Digits.IsDigits(two) by {
      assert Digits.AllDigits(two[..0]);
    }
    assert !Digits.IsDecimal(two[0]);
    assert ReadToken(two) == Refused;
    UnreadableTokenFails("5", two);
    assert "5" + [','] + two == "5,\U{B2}";
  }

  /** The years the vacation form accepts. */
  predicate VacationYear(year: int)
  {
    2020 <= year <= 2100
  }

  /** What the vacation form does with a submission. */
  datatype VacationOutcome =
    | YearRefused           // the 400 response for a year outside 2020..2100
    | WeekUnreadable        // the `ValueError` of `int()`, raised before anything is stored
    | Stored(weeks: seq<int>)

  /**
   * `update_vacation`: a year outside 2020..2100 is refused before anything
   * changes, and so is a field with a digit token `int()` cannot read;
   * otherwise the parsed weeks replace that year's entry and no other.
   */
  method UpdateVacation(user: User, year: int, weeks: string) returns (outcome: VacationOutcome)
    modifies user
    ensures !VacationYear(year) ==> outcome == YearRefused && user.vacation == old(user.vacation)
    ensures VacationYear(year) && ParseWeeks(weeks).None? ==>
      outcome == WeekUnreadable && user.vacation == old(user.vacation)
    ensures VacationYear(year) && ParseWeeks(weeks).Some? ==>
      outcome == Stored(ParseWeeks(weeks).value) && user.vacation == old(user.vacation)[year := ParseWeeks(weeks).value]
    ensures forall y :: y != year ==>
      (y in user.vacation <==> y in old(user.vacation)) && (y in user.vacation ==> user.vacation[y] == old(user.vacation)[y])
    ensures user.password == old(user.password) && user.mustChangePassword == old(user.mustChangePassword)
  {
    if !(2020 <= year <= 2100) {
      return YearRefused;
    }
    var parsed := ParseWeeks(weeks);
    if parsed.None? {
      return WeekUnreadable;
    }
    var weekList := parsed.value;
    var vacation := user.vacation;
    vacation := vacation[year := weekList];
    user.vacation := vacation;
    outcome := Stored(weekList);
  }

  // ---------------------------------------------------------------------
  // The profile password change
  // ---------------------------------------------------------------------

  datatype ProfilePasswordError = WrongCurrentPassword | TooShort

  /** The profile form checks the current password first, then the length of the new one (at least 8). */
  function ProfilePasswordCheck(stored: string, currentPassword: string, newPassword: string): (r: Option<ProfilePasswordError>)
    ensures r == Some(WrongCurrentPassword) <==> currentPassword != stored
    ensures r == Some(TooShort) <==> currentPassword == stored && |newPassword| < 8
    ensures r.None? <==> currentPassword == stored && |newPassword| >= 8
  {
    if currentPassword != stored then Some(WrongCurrentPassword)
    else if |newPassword| < 8 then Some(TooShort)
    else None
  }

  /**
   * `change_password` of the profile page: the new password is stored when
   * both checks pass. Unlike the forced change, the forced-change flag is
   * left as it is.
   */
  method ChangePassword(user: User, currentPassword: string, newPassword: string) returns (err: Option<ProfilePasswordError>)
    modifies user
    ensures err == ProfilePasswordCheck(old(user.password), currentPassword, newPassword)
    ensures err.None? ==> user.password == newPassword
    ensures err.Some? ==> user.password == old(user.password)
    ensures user.mustChangePassword == old(user.mustChangePassword) && user.vacation == old(user.vacation)
  {
    if currentPassword != user.password {
      return Some(WrongCurrentPassword);
    }
    if |newPassword| < 8 {
      return Some(TooShort);
    }
    user.password := newPassword;
    err := None;
  }

  // ---------------------------------------------------------------------
  // `sync_vacation_days`
  // ---------------------------------------------------------------------

  /** The dates a comma-separated field names, per `fromIso` (`date.fromisoformat`, `None` for its `ValueError`). */
  function ParsedDates(dates: string, fromIso: string -> Option<Date>): set<Date>
  {
    var tokens := SplitOn(dates, ',');
    set i | 0 <= i < |tokens| && Strip(tokens[i]) != [] && fromIso(Strip(tokens[i])).Some? :: fromIso(Strip(tokens[i])).value
  }

  /** The loop of `sync_vacation_days` that collects the submitted dates, skipping blanks and unreadable ones. */
  method CollectDates(dates: string, fromIso: string -> Option<Date>) returns (newDates: set<Date>)
    ensures newDates == ParsedDates(dates, fromIso)
  {
    var tokens := SplitOn(dates, ',');
    newDates := {};
    for k := 0 to |tokens|
      invariant newDates == set i | 0 <= i < k && Strip(tokens[i]) != [] && fromIso(Strip(tokens[i])).Some? :: fromIso(Strip(tokens[i])).value
    {
      var s := Strip(tokens[k]);
      if s != [] {
        match fromIso(s)
        case Some(d) => newDates := newDates + {d};
        case None =>
      }
    }
  }

  /** The vacation dates of one user, one per date. */
  class VacationLedger {
    var days: set<Date>

    constructor()
      ensures days == {}
    {
      days := {};
    }
  }

  /** The user's vacation dates within calendar year `year`. */
  function YearDays(days: set<Date>, year: int): (r: set<Date>)
    ensures forall d :: d in r <==> d in days && DateOf(year, 1, 1) <= d <= DateOf(year, 12, 31)
  {
    set d | d in days && DateOf(year, 1, 1) <= d <= DateOf(year, 12, 31)
  }

  /** The vacation dates after a sync: the year's dates become exactly the submitted ones; submitted dates of other years are added. */
  function Synced(days: set<Date>, year: int, newDates: set<Date>): set<Date>
  {
    (days + (newDates - YearDays(days, year))) - (YearDays(days, year) - newDates)
  }

  /**
   * `sync_vacation_days`: adds the submitted dates the year lacks and deletes
   * the year's dates that were not submitted. It answers what it added and
   * deleted.
   */
  method SyncVacationDays(ledger: VacationLedger, year: int, newDates: set<Date>) returns (added: set<Date>, deleted: set<Date>)
    modifies ledger
    ensures added == newDates - YearDays(old(ledger.days), year)
    ensures deleted == YearDays(old(ledger.days), year) - newDates
    ensures ledger.days == Synced(old(ledger.days), year, newDates)
  {
    var existing := set d | d in ledger.days && DateOf(year, 1, 1) <= d <= DateOf(year, 12, 31);
    added := newDates - existing;
    deleted := existing - newDates;
    ledger.days := (ledger.days + added) - deleted;
  }

  /**
   * After a sync a date of the year is a vacation date exactly when it was
   * submitted; a date of another year is one when it was before or was submitted.
   */
  lemma SyncedDaysSpec(days: set<Date>, year: int, newDates: set<Date>, d: Date)
    ensures DateOf(year, 1, 1) <= d <= DateOf(year, 12, 31) ==> (d in Synced(days, year, newDates) <==> d in newDates)
    ensures !(DateOf(year, 1, 1) <= d <= DateOf(year, 12, 31)) ==>
      (d in Synced(days, year, newDates) <==> d in days || d in newDates)
  {
  }

  /** Syncing the same dates twice is syncing them once. */
  lemma SyncIdempotent(days: set<Date>, year: int, newDates: set<Date>)
    ensures Synced(Synced(days, year, newDates), year, newDates) == Synced(days, year, newDates)
  {
  }
}
