/**
 * Co-working statistics (app/core/schedule/cowork.py): on how many days
 * the target position works the same shift as each other position, and
 * the list of those days for one pair. The year's generated days, in the
 * all-positions form, are a parameter.
 */
module Cowork {
  import opened Wrappers
  import opened Calendar
  import opened Models
  import Period
  import Sorting

  // ---------------------------------------------------------------------
  // Finding a position on a day
  // ---------------------------------------------------------------------

  /** `day.get("persons", [])`: the positions listed on a day; a single-position day lists none. */
  function PersonsOf(day: Period.PeriodDay): seq<Period.BasicDay>
  {
    if day.AllPositions? then day.persons else []
  }

  /** `_find_person_in_day`: the first entry for position `pid`, if any. */
  function FindPerson(persons: seq<Period.BasicDay>, pid: int): (r: Option<Period.BasicDay>)
    ensures r.Some? ==> r.value in persons && r.value.personId == pid
    ensures r.None? ==> forall p :: p in persons ==> p.personId != pid
  {
    if persons == [] then None
    else
      var r := FindPerson(persons[..|persons| - 1], pid);
      if r.Some? then r
      else if persons[|persons| - 1].personId == pid then Some(persons[|persons| - 1])
      else None
  }

  /** The entry found is the first one for the position. */
  lemma {:induction false} FindPersonFirst(persons: seq<Period.BasicDay>, pid: int, k: int)
    requires 0 <= k < |persons| && persons[k].personId == pid
    requires forall j :: 0 <= j < k ==> persons[j].personId != pid
    ensures FindPerson(persons, pid) == Some(persons[k])
    decreases |persons|
  {
    if k < |persons| - 1 {
      FindPersonFirst(persons[..|persons| - 1], pid, k);
    }
  }

  /** The shift a found entry shows, unless it is missing or OFF: the position works that day. */
  function WorkingShift(p: Option<Period.BasicDay>): (r: Option<ShiftType>)
    ensures r.Some? ==> p.Some? && p.value.shown.shift == r && r.value.code != "OFF"
  {
    if p.Some? && p.value.shown.shift.Some? && p.value.shown.shift.value.code != "OFF" then p.value.shown.shift
    else None
  }

  /** The code of the shift the target works on `day`, if it works. */
  function TargetCode(day: Period.PeriodDay, target: int): Option<string>
  {
    var w := WorkingShift(FindPerson(PersonsOf(day), target));
    if w.Some? then Some(w.value.code) else None
  }

  // ---------------------------------------------------------------------
  // `build_cowork_stats`
  // ---------------------------------------------------------------------

  /** One row of the statistics: the other position, its shared days, and those on N1, N2 and N3. */
  datatype CoworkRow = CoworkRow(otherId: int, total: nat, n1: nat, n2: nat, n3: nat)

  /** A row with `k` more shared days of shift `code`; only N1, N2 and N3 have a count of their own. */
  function Bumped(row: CoworkRow, code: string, k: nat): (r: CoworkRow)
    ensures r.otherId == row.otherId && r.total == row.total + k
    ensures r.n1 + r.n2 + r.n3 == row.n1 + row.n2 + row.n3 + (if code in {"N1", "N2", "N3"} then k else 0)
  {
    CoworkRow(row.otherId, row.total + k,
      row.n1 + (if code == "N1" then k else 0),
      row.n2 + (if code == "N2" then k else 0),
      row.n3 + (if code == "N3" then k else 0))
  }

  /** Entry `p` is the other position `other`, not the target, working shift `code`. */
  predicate Counts(p: Period.BasicDay, target: int, other: int, code: string)
  {
    p.personId == other && other != target &&
    WorkingShift(Some(p)).Some? && WorkingShift(Some(p)).value.code == code
  }

  /** How many of the day's entries the inner loop counts for `other`. */
  function Matches(persons: seq<Period.BasicDay>, target: int, other: int, code: string): (r: nat)
    ensures r <= |persons|
  {
    if persons == [] then 0
    else Matches(persons[..|persons| - 1], target, other, code) + (if Counts(persons[|persons| - 1], target, other, code) then 1 else 0)
  }

  /** The row of `other` after the days `days`: each day the target works adds the matching entries under its code. */
  function RowOf(days: seq<Period.PeriodDay>, target: int, other: int): (r: CoworkRow)
    ensures r.otherId == other
  {
    if days == [] then CoworkRow(other, 0, 0, 0, 0)
    else
      var prev := RowOf(days[..|days| - 1], target, other);
      var code := TargetCode(days[|days| - 1], target);
      if code.Some? then Bumped(prev, code.value, Matches(PersonsOf(days[|days| - 1]), target, other, code.value))
      else prev
  }

  /** The positions the generated days list are rotation positions. */
  predicate PositionsValid(days: seq<Period.PeriodDay>)
  {
    forall i, p :: 0 <= i < |days| && p in PersonsOf(days[i]) ==> 1 <= p.personId <= MaxPersons
  }

  /** The inner loop over one day's entries, counting those that work the target's shift `code`. */
  method TallyDay(stats: map<int, CoworkRow>, persons: seq<Period.BasicDay>, target: int, code: string)
    returns (tallied: map<int, CoworkRow>)
    requires forall p :: p in persons ==> 1 <= p.personId <= MaxPersons
    requires forall o :: o in stats <==> 1 <= o <= MaxPersons && o != target
    ensures forall o :: o in tallied <==> o in stats
    ensures forall o :: o in stats ==> tallied[o] == Bumped(stats[o], code, Matches(persons, target, o, code))
  {
    tallied := stats;
    for j := 0 to |persons|
      invariant Tallied(stats, tallied, persons[..j], target, code)
    {
      var p := persons[j];
      var pid := p.personId;
      if pid == target {
        SkipKeeps(stats, tallied, persons, j, target, code);
        continue;
      }
      var otherShift := p.shown.shift;
      if otherShift.None? || otherShift.value.code == "OFF" {
        SkipKeeps(stats, tallied, persons, j, target, code);
        continue;
      }
      if otherShift.value.code != code {
        SkipKeeps(stats, tallied, persons, j, target, code);
        continue;
      }
      assert p in persons;
      var row := tallied[pid];
      row := row.(total := row.total + 1);
      if code == "N1" {
        row := row.(n1 := row.n1 + 1);
      } else if code == "N2" {
        row := row.(n2 := row.n2 + 1);
      } else if code == "N3" {
        row := row.(n3 := row.n3 + 1);
      }
      BumpOne(tallied[pid], code);
      BumpKeeps(stats, tallied, persons, j, target, code);
      tallied := tallied[pid := row];
    }
    assert persons[..|persons|] == persons;
  }

  /** The loop invariant of `TallyDay`: the same keys, each row bumped by its matches among `done`. */
  ghost predicate Tallied(stats: map<int, CoworkRow>, tallied: map<int, CoworkRow>, done: seq<Period.BasicDay>, target: int, code: string)
  {
    (forall o :: o in tallied <==> o in stats) &&
    forall o :: o in stats ==> tallied[o] == Bumped(stats[o], code, Matches(done, target, o, code))
  }

  /** An entry that counts for no position leaves the tally as it is. */
  lemma SkipKeeps(stats: map<int, CoworkRow>, tallied: map<int, CoworkRow>, persons: seq<Period.BasicDay>, j: nat, target: int, code: string)
    requires j < |persons| && Tallied(stats, tallied, persons[..j], target, code)
    requires var p := persons[j];
      p.personId == target || p.shown.shift.None? || p.shown.shift.value.code == "OFF" || p.shown.shift.value.code != code
    ensures Tallied(stats, tallied, persons[..j + 1], target, code)
  {
    MatchesStep(persons, j, target, code);
    CountsFor(persons[j], target, code);
  }

  /** An entry that counts for its position bumps that position's row by one. */
  lemma BumpKeeps(stats: map<int, CoworkRow>, tallied: map<int, CoworkRow>, persons: seq<Period.BasicDay>, j: nat, target: int, code: string)
    requires j < |persons| && Tallied(stats, tallied, persons[..j], target, code)
    requires var p := persons[j];
      p.personId != target && p.personId in tallied && p.shown.shift.Some? && p.shown.shift.value.code != "OFF" && p.shown.shift.value.code == code
    ensures var pid := persons[j].personId;
      Tallied(stats, tallied[pid := Bumped(tallied[pid], code, 1)], persons[..j + 1], target, code)
  {
    var pid := persons[j].personId;
    MatchesStep(persons, j, target, code);
    CountsFor(persons[j], target, code);
    BumpedTwice(stats[pid], code, Matches(persons[..j], target, pid, code));
  }

  /** The field updates of the counting branch: one more shared day, and one more of N1, N2 or N3. */
  lemma BumpOne(row: CoworkRow, code: string)
    ensures Bumped(row, code, 1) ==
      var r := row.(total := row.total + 1);
      if code == "N1" then r.(n1 := r.n1 + 1) else if code == "N2" then r.(n2 := r.n2 + 1)
      else if code == "N3" then r.(n3 := r.n3 + 1) else r
  {
  }

  /** One more entry adds one match for the position it counts for, and none for any other. */
  lemma MatchesStep(persons: seq<Period.BasicDay>, j: nat, target: int, code: string)
    requires j < |persons|
    ensures forall o :: (Matches(persons[..j + 1], target, o, code) ==
      Matches(persons[..j], target, o, code) + (if Counts(persons[j], target, o, code) then 1 else 0))
  {
    assert persons[..j + 1][..j] == persons[..j];
  }

  /** An entry counts for its own position only, when that is not the target and it works shift `code`. */
  lemma CountsFor(p: Period.BasicDay, target: int, code: string)
    ensures forall o :: Counts(p, target, o, code) <==>
      (o == p.personId && o != target && p.shown.shift.Some? && p.shown.shift.value.code != "OFF" && p.shown.shift.value.code == code)
  {
  }

  /** Bumping a row by `k` and then by one is bumping it by `k + 1`. */
  lemma BumpedTwice(row: CoworkRow, code: string, k: nat)
    ensures Bumped(Bumped(row, code, k), code, 1) == Bumped(row, code, k + 1)
  {
  }

  /** Rows ordered by strictly increasing position. */
  predicate IdsAscending(rows: seq<CoworkRow>)
  {
    forall i, j :: 0 <= i < j < |rows| ==> rows[i].otherId < rows[j].otherId
  }

  function NegOtherId(r: CoworkRow): int
  {
    -r.otherId
  }

  /**
   * `build_cowork_stats`: one row for every position but the target, in
   * increasing order of position, each the tally of the days on which
   * that position works the same shift as the target.
   */
  method BuildCoworkStats(days: seq<Period.PeriodDay>, target: int) returns (rows: seq<CoworkRow>)
    requires PositionsValid(days)
    ensures IdsAscending(rows)
    ensures forall r :: r in rows ==> 1 <= r.otherId <= MaxPersons && r.otherId != target && r == RowOf(days, target, r.otherId)
    ensures forall o :: 1 <= o <= MaxPersons && o != target ==> RowOf(days, target, o) in rows
  {
    var stats := InitialStats(target);
    stats := TallyDays(stats, days, target);
    var unsorted := StatsValues(stats, days, target);
    rows := Sorting.SortDesc(unsorted, NegOtherId);
    SortAscendingIds(unsorted);
  }

  /** A zero row for every position but the target. */
  method InitialStats(target: int) returns (stats: map<int, CoworkRow>)
    ensures forall o :: o in stats <==> 1 <= o <= MaxPersons && o != target
    ensures forall o :: o in stats ==> stats[o] == RowOf([], target, o)
  {
    stats := map[];
    for pid := 1 to MaxPersons + 1
      invariant forall o :: o in stats <==> 1 <= o < pid && o != target
      invariant forall o :: o in stats ==> stats[o] == CoworkRow(o, 0, 0, 0, 0)
    {
      if pid == target {
        continue;
      }
      stats := stats[pid := CoworkRow(pid, 0, 0, 0, 0)];
    }
  }

  /** The loop over the days: each day the target works, its entries are tallied under the target's code. */
  method TallyDays(initial: map<int, CoworkRow>, days: seq<Period.PeriodDay>, target: int) returns (stats: map<int, CoworkRow>)
    requires PositionsValid(days)
    requires forall o :: o in initial <==> 1 <= o <= MaxPersons && o != target
    requires forall o :: o in initial ==> initial[o] == RowOf([], target, o)
    ensures forall o :: o in stats <==> o in initial
    ensures forall o :: o in stats ==> stats[o] == RowOf(days, target, o)
  {
    stats := initial;
    for i := 0 to |days|
      invariant forall o :: o in stats <==> o in initial
      invariant forall o :: o in stats ==> stats[o] == RowOf(days[..i], target, o)
    {
      assert days[..i + 1][..i] == days[..i];
      var persons := PersonsOf(days[i]);
      if persons == [] {
        continue;
      }
      var found := FindPerson(persons, target);
      if found.None? {
        continue;
      }
      var targetShift := found.value.shown.shift;
      if targetShift.None? || targetShift.value.code == "OFF" {
        continue;
      }
      stats := TallyDay(stats, persons, target, targetShift.value.code);
    }
    assert days[..|days|] == days;
  }

  /** `list(stats.values())`: the rows in the order their positions were added. */
  method StatsValues(stats: map<int, CoworkRow>, days: seq<Period.PeriodDay>, target: int) returns (values: seq<CoworkRow>)
    requires forall o :: o in stats <==> 1 <= o <= MaxPersons && o != target
    requires forall o :: o in stats ==> stats[o] == RowOf(days, target, o)
    ensures IdsAscending(values)
    ensures forall r :: r in values ==> 1 <= r.otherId <= MaxPersons && r.otherId != target && r == RowOf(days, target, r.otherId)
    ensures forall o :: 1 <= o <= MaxPersons && o != target ==> RowOf(days, target, o) in values
  {
    values := [];
    for pid := 1 to MaxPersons + 1
      invariant IdsAscending(values)
      invariant forall r :: r in values ==> 1 <= r.otherId < pid && r.otherId != target && r == RowOf(days, target, r.otherId)
      invariant forall o :: 1 <= o < pid && o != target ==> RowOf(days, target, o) in values
    {
      if pid in stats {
        values := values + [stats[pid]];
      }
    }
  }

  /** Rows already in increasing order of position are left as they are by the sort on position. */
  lemma {:induction false} SortAscendingIds(rows: seq<CoworkRow>)
    requires IdsAscending(rows)
    ensures Sorting.SortDesc(rows, NegOtherId) == rows
    decreases |rows|
  {
    if rows != [] {
      SortAscendingIds(rows[1..]);
      assert rows == [rows[0]] + rows[1..];
    }
  }

  /** The N1, N2 and N3 counts together never exceed the total. */
  lemma {:induction false} ByShiftWithinTotal(days: seq<Period.PeriodDay>, target: int, other: int)
    ensures var r := RowOf(days, target, other); r.n1 + r.n2 + r.n3 <= r.total
    decreases |days|
  {
    if days != [] {
      ByShiftWithinTotal(days[..|days| - 1], target, other);
    }
  }

  /** The target itself has no row: its counts stay 0. */
  lemma {:induction false} NoSelfCount(days: seq<Period.PeriodDay>, target: int)
    ensures RowOf(days, target, target) == CoworkRow(target, 0, 0, 0, 0)
    decreases |days|
  {
    if days != [] {
      NoSelfCount(days[..|days| - 1], target);
      var code := TargetCode(days[|days| - 1], target);
      if code.Some? {
        MatchesNone(PersonsOf(days[|days| - 1]), target, target, code.value);
      }
    }
  }

  /** Entries for other positions, or for the target, count nothing. */
  lemma {:induction false} MatchesNone(persons: seq<Period.BasicDay>, target: int, other: int, code: string)
    requires other == target || forall p :: p in persons ==> p.personId != other
    ensures Matches(persons, target, other, code) == 0
    decreases |persons|
  {
    if persons != [] {
      MatchesNone(persons[..|persons| - 1], target, other, code);
    }
  }

  // ---------------------------------------------------------------------
  // `build_cowork_details`
  // ---------------------------------------------------------------------

  /** One day on which both positions work the same shift. */
  datatype DetailEntry = DetailEntry(
    date: Date,
    weekday: int,
    rotationWeek: Option<int>,
    targetId: int,
    targetShift: ShiftType,
    otherId: int,
    otherShift: ShiftType)

  /** The entry for `day`, when both positions are listed and work the same shift. */
  function DetailOf(day: Period.PeriodDay, target: int, other: int): (r: Option<DetailEntry>)
    ensures r.Some? ==> (r.value.date == day.date && r.value.targetId == target && r.value.otherId == other &&
                         r.value.targetShift.code == r.value.otherShift.code && r.value.targetShift.code != "OFF")
  {
    var t := FindPerson(PersonsOf(day), target);
    var o := FindPerson(PersonsOf(day), other);
    var ts := WorkingShift(t);
    var os := WorkingShift(o);
    if ts.Some? && os.Some? && ts.value.code == os.value.code then
      Some(DetailEntry(day.date, day.weekday, t.value.rotationWeek, target, ts.value, other, os.value))
    else None
  }

  /** The entries of the days, in the order of the days. */
  function DetailsOf(days: seq<Period.PeriodDay>, target: int, other: int): (r: seq<DetailEntry>)
    ensures |r| <= |days|
    ensures forall e :: e in r ==> (e.targetId == target && e.otherId == other &&
                                   e.targetShift.code == e.otherShift.code && e.targetShift.code != "OFF")
  {
    if days == [] then []
    else
      var d := DetailOf(days[|days| - 1], target, other);
      DetailsOf(days[..|days| - 1], target, other) + (if d.Some? then [d.value] else [])
  }

  function NegDate(e: DetailEntry): int
  {
    -e.date
  }

  /**
   * `build_cowork_details`: the days on which both positions work the
   * same shift, sorted by date, days of equal date keeping their order.
   */
  method BuildCoworkDetails(days: seq<Period.PeriodDay>, target: int, other: int) returns (details: seq<DetailEntry>)
    ensures forall i, j :: 0 <= i < j < |details| ==> details[i].date <= details[j].date
    ensures multiset(details) == multiset(DetailsOf(days, target, other))
    ensures forall v :: Sorting.WithKey(details, NegDate, v) == Sorting.WithKey(DetailsOf(days, target, other), NegDate, v)
  {
    var found := CollectDetails(days, target, other);
    details := Sorting.SortDesc(found, NegDate);
    Sorting.SortDescSorted(found, NegDate);
    forall v {
      Sorting.KeepsOrderWithinKey(found, NegDate, v);
    }
  }

  /** The loop of `build_cowork_details`, before the sort: the entries in the order of the days. */
  method CollectDetails(days: seq<Period.PeriodDay>, target: int, other: int) returns (found: seq<DetailEntry>)
    ensures found == DetailsOf(days, target, other)
  {
    found := [];
    for i := 0 to |days|
      invariant found == DetailsOf(days[..i], target, other)
    {
      assert days[..i + 1][..i] == days[..i];
      var day := days[i];
      var persons := PersonsOf(day);
      if persons == [] {
        continue;
      }
      var t := FindPerson(persons, target);
      var o := FindPerson(persons, other);
      if t.None? || o.None? {
        continue;
      }
      var targetShift := t.value.shown.shift;
      var otherShift := o.value.shown.shift;
      if targetShift.None? || targetShift.value.code == "OFF" {
        continue;
      }
      if otherShift.None? || otherShift.value.code == "OFF" {
        continue;
      }
      if targetShift.value.code != otherShift.value.code {
        continue;
      }
      found := found + [DetailEntry(day.date, day.weekday, t.value.rotationWeek, target, targetShift.value, other, otherShift.value)];
    }
    assert days[..|days|] == days;
  }

  // ---------------------------------------------------------------------
  // The statistics and the details agree
  // ---------------------------------------------------------------------

  /** No position is listed twice on a day. */
  predicate UniquePositions(days: seq<Period.PeriodDay>)
  {
    forall i, a, b :: 0 <= i < |days| && 0 <= a < b < |PersonsOf(days[i])| ==>
      PersonsOf(days[i])[a].personId != PersonsOf(days[i])[b].personId
  }

  /** With each position listed once, the inner loop counts the other's entry exactly when it works shift `code`. */
  lemma {:induction false} MatchesOnce(persons: seq<Period.BasicDay>, target: int, other: int, code: string)
    requires other != target
    requires forall a, b :: 0 <= a < b < |persons| ==> persons[a].personId != persons[b].personId
    ensures var w := WorkingShift(FindPerson(persons, other));
      Matches(persons, target, other, code) == if w.Some? && w.value.code == code then 1 else 0
    decreases |persons|
  {
    if persons != [] {
      var init := persons[..|persons| - 1];
      var last := persons[|persons| - 1];
      MatchesOnce(init, target, other, code);
      if last.personId == other {
        forall p | p in init ensures p.personId != other {
          var a :| 0 <= a < |init| && init[a] == p;
          assert persons[a] == p;
        }
      }
    }
  }

  /** A day's contribution to the statistics is 1 exactly when it has a detail entry, and 0 otherwise. */
  lemma DayAgrees(day: Period.PeriodDay, target: int, other: int)
    requires other != target
    requires forall a, b :: 0 <= a < b < |PersonsOf(day)| ==> PersonsOf(day)[a].personId != PersonsOf(day)[b].personId
    ensures var code := TargetCode(day, target);
      (if code.Some? then Matches(PersonsOf(day), target, other, code.value) else 0) ==
      (if DetailOf(day, target, other).Some? then 1 else 0)
  {
    var code := TargetCode(day, target);
    if code.Some? {
      MatchesOnce(PersonsOf(day), target, other, code.value);
    }
  }

  /**
   * With each position listed once a day, the total of the other's row
   * is the number of days in the pair's detail list.
   */
  lemma {:induction false} StatsMatchDetails(days: seq<Period.PeriodDay>, target: int, other: int)
    requires other != target
    requires UniquePositions(days)
    ensures RowOf(days, target, other).total == |DetailsOf(days, target, other)|
    decreases |days|
  {
    if days != [] {
      var init := days[..|days| - 1];
      assert UniquePositions(init) by {
        forall i, a, b | 0 <= i < |init| && 0 <= a < b < |PersonsOf(init[i])|
          ensures PersonsOf(init[i])[a].personId != PersonsOf(init[i])[b].personId
        {
          assert init[i] == days[i];
        }
      }
      StatsMatchDetails(init, target, other);
      DayAgrees(days[|days| - 1], target, other);
    }
  }

  /** A day on which either position is not listed adds nothing to the statistics or the details. */
  lemma MissingAddsNothing(day: Period.PeriodDay, target: int, other: int)
    requires FindPerson(PersonsOf(day), target).None? || FindPerson(PersonsOf(day), other).None?
    ensures TargetCode(day, target).Some? ==> Matches(PersonsOf(day), target, other, TargetCode(day, target).value) == 0
    ensures DetailOf(day, target, other).None?
  {
    if TargetCode(day, target).Some? {
      MatchesNone(PersonsOf(day), target, other, TargetCode(day, target).value);
    }
  }
}
