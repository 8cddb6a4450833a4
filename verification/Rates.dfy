/**
 * Per-user rates (app/core/rates.py): the merge of a user's custom rates
 * over the system defaults, the choice of the rate-history record in force
 * on a date, the status shown for each history record, and the history
 * updates that add and delete records. Database rows are a sequence of
 * records kept in stored order.
 */
module Rates {
  import opened Wrappers
  import opened Calendar
  import Sorting

  // ---------------------------------------------------------------------
  // Defaults and the merge
  // ---------------------------------------------------------------------

  const DefaultObDivisors: map<string, int> :=
    map["OB1" := 600, "OB2" := 400, "OB3" := 300, "OB4" := 300, "OB5" := 150]

  const DefaultOncallRates: map<string, int> :=
    map["OC_WEEKDAY" := 75, "OC_WEEKEND" := 97, "OC_WEEKEND_SAT" := 97, "OC_WEEKEND_SUN" := 97,
        "OC_WEEKEND_MON" := 97, "OC_HOLIDAY_EVE" := 97, "OC_HOLIDAY" := 112, "OC_SPECIAL" := 192]

  const DefaultVacationRates: map<string, real> :=
    map["fixed_pct" := 0.008, "variable_pct" := 0.005, "payout_pct" := 0.046]

  /** OT_RATE_DIVISOR, 72 hours. */
  const DefaultOtDivisor: int := 72

  /**
   * A `custom_rates` JSON object. A missing key, a null and an empty
   * table are all `None` or an empty map: the merge treats them alike.
   */
  datatype CustomRates = CustomRates(
    ob: Option<map<string, int>>,
    ot: Option<real>,
    oncall: Option<map<string, int>>,
    vacation: Option<map<string, real>>)

  const NoCustomRates: CustomRates := CustomRates(None, None, None, None)

  /** The rates the pay engines use. */
  datatype ResolvedRates = ResolvedRates(
    ob: map<string, int>,
    ot: Option<real>,
    oncall: map<string, int>,
    vacation: map<string, real>)

  /** `x or {}` for an optional table. */
  function OrEmpty<V>(m: Option<map<string, V>>): (r: map<string, V>)
    ensures m.None? ==> r == map[]
  {
    if m.Some? then m.value else map[]
  }

  /**
   * `{**defaults, **custom}`: every default key and every custom key, a
   * custom value winning over the default.
   */
  function Merged<V>(defaults: map<string, V>, custom: map<string, V>): (r: map<string, V>)
    ensures r.Keys == defaults.Keys + custom.Keys
    ensures forall k :: k in custom ==> r[k] == custom[k]
    ensures forall k :: k in defaults && k !in custom ==> r[k] == defaults[k]
  {
    defaults + custom
  }

  /**
   * `_resolve_rates`: the custom OB divisors or none, the custom overtime
   * rate if any, and the on-call and vacation tables merged over their
   * defaults.
   */
  function ResolveRates(custom: CustomRates): (r: ResolvedRates)
    ensures r.ob == OrEmpty(custom.ob) && r.ot == custom.ot
    ensures DefaultOncallRates.Keys <= r.oncall.Keys && DefaultVacationRates.Keys <= r.vacation.Keys
  {
    ResolvedRates(OrEmpty(custom.ob), custom.ot,
      Merged(DefaultOncallRates, OrEmpty(custom.oncall)),
      Merged(DefaultVacationRates, OrEmpty(custom.vacation)))
  }

  /** The default tables shown to an administrator. */
  datatype Defaults = Defaults(
    obDivisors: map<string, int>,
    otDivisor: int,
    oncall: map<string, int>,
    vacation: map<string, real>)

  /**
   * `get_all_defaults`. Tables are values here, so a caller that changes
   * its copy cannot change the defaults.
   */
  function AllDefaults(): (d: Defaults)
  {
    Defaults(DefaultObDivisors, DefaultOtDivisor, DefaultOncallRates, DefaultVacationRates)
  }

  /** A user without custom rates is paid the defaults the administrator sees, with no OB divisors and no overtime rate. */
  lemma NoCustomGivesDefaults()
    ensures ResolveRates(NoCustomRates) ==
      ResolvedRates(map[], None, AllDefaults().oncall, AllDefaults().vacation)
  {
    assert DefaultOncallRates + map[] == DefaultOncallRates;
    assert DefaultVacationRates + map[] == DefaultVacationRates;
  }

  // ---------------------------------------------------------------------
  // Rate history and the record in force
  // ---------------------------------------------------------------------

  /** A `RateHistory` row; `effectiveTo` is the last day in force, `None` while open. */
  datatype RateRecord = RateRecord(id: int, userId: int, rates: Option<CustomRates>, effectiveFrom: Date, effectiveTo: Option<Date>)

  /** How a query compares `effective_to` with the date asked about. */
  datatype EndBound = Exclusive | Inclusive

  /** The record is the user's and has started by `date` and not ended before it, under bound `b`. */
  predicate InForceWith(r: RateRecord, userId: int, date: Date, b: EndBound)
  {
    r.userId == userId && r.effectiveFrom <= date &&
    (r.effectiveTo.None? || (if b == Exclusive then r.effectiveTo.value > date else r.effectiveTo.value >= date))
  }

  /** The first record with the latest start among those in force on `date`. */
  function LatestInForce(h: seq<RateRecord>, userId: int, date: Date, b: EndBound): (r: Option<RateRecord>)
    ensures r.Some? ==> r.value in h && InForceWith(r.value, userId, date, b)
    ensures r.Some? ==> forall x :: x in h && InForceWith(x, userId, date, b) ==> x.effectiveFrom <= r.value.effectiveFrom
    ensures r.None? ==> forall x :: x in h ==> !InForceWith(x, userId, date, b)
  {
    if h == [] then None
    else
      var prev := LatestInForce(h[..|h| - 1], userId, date, b);
      var last := h[|h| - 1];
      assert h == h[..|h| - 1] + [last];
      if !InForceWith(last, userId, date, b) then prev
      else if prev.None? || last.effectiveFrom > prev.value.effectiveFrom then Some(last)
      else prev
  }

  /**
   * `get_user_rates` under bound `b`: with a date, the record in force
   * then; without a date or without such a record, the user's current
   * `custom_rates`. A missing table is the empty object.
   */
  function UserRatesWith(current: Option<CustomRates>, h: seq<RateRecord>, userId: int, date: Option<Date>, b: EndBound): ResolvedRates
  {
    var record := if date.Some? then LatestInForce(h, userId, date.value, b) else None;
    if record.Some? then ResolveRates(OrDefault(record.value.rates, NoCustomRates))
    else ResolveRates(OrDefault(current, NoCustomRates))
  }

  function OrDefault<T>(x: Option<T>, default: T): T
  {
    if x.Some? then x.value else default
  }

  /** `get_user_rates` as written: a record is in force while its `effective_to` is after the date. */
  function UserRatesAsWritten(current: Option<CustomRates>, h: seq<RateRecord>, userId: int, date: Option<Date>): ResolvedRates
  {
    UserRatesWith(current, h, userId, date, Exclusive)
  }

  /** `get_user_rates` with `effective_to` read as the record's last day, as the history updates set it. */
  function UserRates(current: Option<CustomRates>, h: seq<RateRecord>, userId: int, date: Option<Date>): ResolvedRates
  {
    UserRatesWith(current, h, userId, date, Inclusive)
  }

  /**
   * Without a date the current rates are used; with one, the rates of the
   * latest record in force, and the current rates when none is.
   */
  lemma UserRatesFallback(current: Option<CustomRates>, h: seq<RateRecord>, userId: int, date: Option<Date>)
    ensures date.None? ==> UserRates(current, h, userId, date) == ResolveRates(OrDefault(current, NoCustomRates))
    ensures date.Some? && (forall x :: x in h ==> !InForceWith(x, userId, date.value, Inclusive)) ==>
      UserRates(current, h, userId, date) == ResolveRates(OrDefault(current, NoCustomRates))
    ensures date.Some? && (exists x :: x in h && InForceWith(x, userId, date.value, Inclusive)) ==>
      exists x :: x in h && InForceWith(x, userId, date.value, Inclusive) &&
        (forall y :: y in h && InForceWith(y, userId, date.value, Inclusive) ==> y.effectiveFrom <= x.effectiveFrom) &&
        UserRates(current, h, userId, date) == ResolveRates(OrDefault(x.rates, NoCustomRates))
  {
    if date.Some? {
      var r := LatestInForce(h, userId, date.value, Inclusive);
      if r.Some? {
        assert InForceWith(r.value, userId, date.value, Inclusive);
      }
    }
  }

  // ---------------------------------------------------------------------
  // `get_rate_history`
  // ---------------------------------------------------------------------

  datatype RateStatus = Future | Current | Historical

  /**
   * The status shown for a record: future before it starts, current
   * while open or through its last day, historical after.
   */
  function StatusOf(r: RateRecord, today: Date): (s: RateStatus)
    ensures s == Current <==> InForceWith(r, r.userId, today, Inclusive)
    ensures s == Future <==> today < r.effectiveFrom
    ensures s == Historical <==> r.effectiveFrom <= today && r.effectiveTo.Some? && r.effectiveTo.value < today
  {
    if r.effectiveFrom > today then Future
    else if r.effectiveTo.None? || r.effectiveTo.value >= today then Current
    else Historical
  }

  /** One row of the history listing. */
  datatype HistoryEntry = HistoryEntry(id: int, rates: CustomRates, effectiveFrom: Date, effectiveTo: Option<Date>, status: RateStatus)

  /** The user's records, in stored order. */
  function OfUser(h: seq<RateRecord>, userId: int): (r: seq<RateRecord>)
    ensures forall x :: x in r <==> x in h && x.userId == userId
  {
    if h == [] then []
    else OfUser(h[..|h| - 1], userId) + (if h[|h| - 1].userId == userId then [h[|h| - 1]] else [])
  }

  function EffectiveFromKey(r: RateRecord): int
  {
    r.effectiveFrom
  }

  /** `get_rate_history`: the user's records, newest start first, each with its status on `today`. */
  function RateHistoryOf(h: seq<RateRecord>, userId: int, today: Date): (r: seq<HistoryEntry>)
    ensures |r| == |OfUser(h, userId)|
  {
    var sorted := Sorting.SortDesc(OfUser(h, userId), EffectiveFromKey);
    seq(|sorted|, i requires 0 <= i < |sorted| =>
      var x := sorted[i];
      HistoryEntry(x.id, OrDefault(x.rates, NoCustomRates), x.effectiveFrom, x.effectiveTo, StatusOf(x, today)))
  }

  /**
   * The listing is newest first, holds exactly the user's records, and a
   * record shows as current exactly when it is in force on `today`.
   */
  lemma RateHistoryOrdered(h: seq<RateRecord>, userId: int, today: Date)
    ensures var r := RateHistoryOf(h, userId, today);
      forall i, j :: 0 <= i < j < |r| ==> r[i].effectiveFrom >= r[j].effectiveFrom
    ensures var sorted := Sorting.SortDesc(OfUser(h, userId), EffectiveFromKey);
      multiset(sorted) == multiset(OfUser(h, userId)) &&
      forall i :: 0 <= i < |sorted| ==> (RateHistoryOf(h, userId, today)[i].status == Current <==> InForceWith(sorted[i], userId, today, Inclusive))
  {
    var sorted := Sorting.SortDesc(OfUser(h, userId), EffectiveFromKey);
    Sorting.SortDescSorted(OfUser(h, userId), EffectiveFromKey);
    var r := RateHistoryOf(h, userId, today);
    forall i, j | 0 <= i < j < |r| ensures r[i].effectiveFrom >= r[j].effectiveFrom {
      assert EffectiveFromKey(sorted[i]) >= EffectiveFromKey(sorted[j]);
    }
    forall i | 0 <= i < |sorted| ensures sorted[i].userId == userId {
      assert sorted[i] in multiset(OfUser(h, userId));
    }
  }

  // ---------------------------------------------------------------------
  // `add_new_rates` and `delete_rate_history`
  // ---------------------------------------------------------------------

  /** The filters whose `.first()` the updates take, over rows in stored order. */
  datatype Query = OpenOf(userId: int) | WithId(id: int, userId: int) | EndingOn(userId: int, day: Date)

  predicate Selects(q: Query, r: RateRecord)
  {
    match q
    case OpenOf(u) => r.userId == u && r.effectiveTo.None?
    case WithId(id, u) => r.id == id && r.userId == u
    case EndingOn(u, d) => r.userId == u && r.effectiveTo == Some(d)
  }

  /** The index of the first row the query selects. */
  function First(h: seq<RateRecord>, q: Query): (r: Option<nat>)
    ensures r.Some? ==> r.value < |h| && Selects(q, h[r.value]) && forall j :: 0 <= j < r.value ==> !Selects(q, h[j])
    ensures r.None? ==> forall j :: 0 <= j < |h| ==> !Selects(q, h[j])
  {
    if h == [] then None
    else if Selects(q, h[0]) then Some(0)
    else
      var rest := First(h[1..], q);
      if rest.Some? then Some(rest.value + 1) else None
  }

  /** The first row the query selects is the one `First` returns. */
  lemma {:induction false} FirstIs(h: seq<RateRecord>, q: Query, k: int)
    requires 0 <= k < |h| && Selects(q, h[k])
    requires forall j :: 0 <= j < k ==> !Selects(q, h[j])
    ensures First(h, q) == Some(k)
    decreases k
  {
    if k > 0 {
      assert !Selects(q, h[0]);
      FirstIs(h[1..], q, k - 1);
    }
  }

  predicate HasAny(h: seq<RateRecord>, userId: int)
  {
    exists r :: r in h && r.userId == userId
  }

  /** The start given to a seeded first record: the employment start, else 1 January 2020. */
  function SeedFrom(employmentStart: Option<Date>): Date
  {
    OrDefault(employmentStart, DateOf(2020, 1, 1))
  }

  /** The seed step: a user with custom rates but no history gets an open record of those rates. */
  function Seeded(h: seq<RateRecord>, custom: map<int, CustomRates>, userId: int, seedId: int, employmentStart: Option<Date>): seq<RateRecord>
  {
    if !HasAny(h, userId) && userId in custom && custom[userId] != NoCustomRates then
      h + [RateRecord(seedId, userId, Some(custom[userId]), SeedFrom(employmentStart), None)]
    else h
  }

  /** The close step: the user's first open record ends the day before `from`. */
  function ClosePrevious(h: seq<RateRecord>, userId: int, from: Date): (r: seq<RateRecord>)
    ensures |r| == |h|
  {
    var i := First(h, OpenOf(userId));
    if i.None? then h else h[i.value := h[i.value].(effectiveTo := Some(from - 1))]
  }

  /** The history after `add_new_rates`: seeded, the open record closed, the new open record added. */
  function AddedHistory(h: seq<RateRecord>, custom: map<int, CustomRates>, userId: int, rates: CustomRates, from: Date,
                        newId: int, seedId: int, employmentStart: Option<Date>): seq<RateRecord>
  {
    ClosePrevious(Seeded(h, custom, userId, seedId, employmentStart), userId, from) + [RateRecord(newId, userId, Some(rates), from, None)]
  }

  predicate LaterExists(h: seq<RateRecord>, userId: int, from: Date)
  {
    exists r :: r in h && r.userId == userId && r.effectiveFrom > from
  }

  /**
   * The history after `delete_rate_history`: the record removed, and the
   * record it closed reopened unless a record of the user starts later.
   */
  function DeletedHistory(h: seq<RateRecord>, rateId: int, userId: int): seq<RateRecord>
  {
    var i := First(h, WithId(rateId, userId));
    if i.None? then h
    else Reopened(h[..i.value] + h[i.value + 1..], userId, h[i.value].effectiveFrom - 1)
  }

  /** The reopen step: the first record of the user ending on `day` is opened again, unless a record of the user starts later. */
  function Reopened(h: seq<RateRecord>, userId: int, day: Date): seq<RateRecord>
  {
    var p := First(h, EndingOn(userId, day));
    if p.Some? && !LaterExists(h, userId, h[p.value].effectiveFrom) then
      h[p.value := h[p.value].(effectiveTo := None)]
    else h
  }

  /** The rate-history table and the users' `custom_rates` column. */
  class RateStore {
    var history: seq<RateRecord>
    var customRates: map<int, CustomRates>

    constructor (history: seq<RateRecord>, customRates: map<int, CustomRates>)
      ensures this.history == history && this.customRates == customRates
    {
      this.history := history;
      this.customRates := customRates;
    }

    /**
     * `add_new_rates` with today's date as a parameter: seed, close the
     * open record, add the new one and, when it has started, make its
     * rates the user's current rates. `newId` and `seedId` are the ids the
     * database gives the added rows.
     */
    method AddNewRates(userId: int, rates: CustomRates, from: Date, newId: int, seedId: int,
                       employmentStart: Option<Date>, today: Date) returns (newRecord: RateRecord)
      modifies this
      ensures history == AddedHistory(old(history), old(customRates), userId, rates, from, newId, seedId, employmentStart)
      ensures newRecord == RateRecord(newId, userId, Some(rates), from, None)
      ensures customRates == if from <= today && userId in old(customRates) then old(customRates)[userId := rates] else old(customRates)
    {
      if !HasAny(history, userId) {
        if userId in customRates && customRates[userId] != NoCustomRates {
          var seed := RateRecord(seedId, userId, Some(customRates[userId]), SeedFrom(employmentStart), None);
          history := history + [seed];
        }
      }
      var previous := First(history, OpenOf(userId));
      if previous.Some? {
        history := history[previous.value := history[previous.value].(effectiveTo := Some(from - 1))];
      }
      newRecord := RateRecord(newId, userId, Some(rates), from, None);
      history := history + [newRecord];
      if from <= today && userId in customRates {
        customRates := customRates[userId := rates];
      }
    }

    /** `delete_rate_history`: remove the user's record `rateId` and reopen the record it closed, if that is the latest. */
    method DeleteRateHistory(rateId: int, userId: int)
      modifies this
      ensures history == DeletedHistory(old(history), rateId, userId)
      ensures customRates == old(customRates)
    {
      var i := First(history, WithId(rateId, userId));
      if i.None? {
        return;
      }
      var deletedFrom := history[i.value].effectiveFrom;
      history := history[..i.value] + history[i.value + 1..];
      var p := First(history, EndingOn(userId, deletedFrom - 1));
      if p.Some? {
        if !LaterExists(history, userId, history[p.value].effectiveFrom) {
          history := history[p.value := history[p.value].(effectiveTo := None)];
        }
      }
    }
  }

  /** At most one record of the user is open. */
  predicate AtMostOneOpen(h: seq<RateRecord>, userId: int)
  {
    forall i, j :: 0 <= i < j < |h| && Selects(OpenOf(userId), h[i]) ==> !Selects(OpenOf(userId), h[j])
  }

  /**
   * Adding rates keeps at most one open record per user: afterwards the
   * new record is the user's only open one, the closed record ends the day
   * before the new start, and other users' records are unchanged.
   */
  lemma AddKeepsOneOpen(h: seq<RateRecord>, custom: map<int, CustomRates>, userId: int, rates: CustomRates, from: Date,
                        newId: int, seedId: int, employmentStart: Option<Date>)
    requires AtMostOneOpen(h, userId)
    ensures var a := AddedHistory(h, custom, userId, rates, from, newId, seedId, employmentStart);
      a[|a| - 1] == RateRecord(newId, userId, Some(rates), from, None) &&
      (forall j :: 0 <= j < |a| - 1 ==> !Selects(OpenOf(userId), a[j])) &&
      AtMostOneOpen(a, userId)
    ensures var s := Seeded(h, custom, userId, seedId, employmentStart);
      var a := AddedHistory(h, custom, userId, rates, from, newId, seedId, employmentStart);
      First(s, OpenOf(userId)).Some? ==> a[First(s, OpenOf(userId)).value].effectiveTo == Some(from - 1)
    ensures var a := AddedHistory(h, custom, userId, rates, from, newId, seedId, employmentStart);
      forall j :: 0 <= j < |h| && h[j].userId != userId ==> a[j] == h[j]
  {
    var s := Seeded(h, custom, userId, seedId, employmentStart);
    var c := ClosePrevious(s, userId, from);
    assert AtMostOneOpen(s, userId) by {
      if s != h {
        forall j | 0 <= j < |h| ensures !Selects(OpenOf(userId), h[j]) {
          assert h[j] in h;
        }
      }
    }
    var i := First(s, OpenOf(userId));
    forall j | 0 <= j < |c| ensures !Selects(OpenOf(userId), c[j]) {
      if i.Some? && j != i.value {
        assert s[j] == c[j];
      }
    }
  }

  /**
   * The closing day and the lookup: as written, the record closed by an
   * addition is no longer in force on its last day, and neither is the new
   * one, so the lookup falls back to the current rates that day.
   */
  lemma ClosedRecordGapAsWritten(h: seq<RateRecord>, custom: map<int, CustomRates>, userId: int, rates: CustomRates, from: Date,
                                 newId: int, seedId: int, employmentStart: Option<Date>)
    requires First(Seeded(h, custom, userId, seedId, employmentStart), OpenOf(userId)).Some?
    ensures var s := Seeded(h, custom, userId, seedId, employmentStart);
      var a := AddedHistory(h, custom, userId, rates, from, newId, seedId, employmentStart);
      var k := First(s, OpenOf(userId)).value;
      !InForceWith(a[k], userId, from - 1, Exclusive) && !InForceWith(a[|a| - 1], userId, from - 1, Exclusive)
  {
  }

  /** A two-record history in which the lookup as written returns the newer rates on the older record's last day. */
  lemma GapExample()
    ensures var older := CustomRates(None, Some(300.0), None, None);
      var newer := CustomRates(None, Some(400.0), None, None);
      var h := [RateRecord(1, 7, Some(older), 100, Some(199)), RateRecord(2, 7, Some(newer), 200, None)];
      UserRatesAsWritten(Some(newer), h, 7, Some(199)).ot == Some(400.0) &&
      UserRates(Some(newer), h, 7, Some(199)).ot == Some(300.0)
  {
    var older := CustomRates(None, Some(300.0), None, None);
    var newer := CustomRates(None, Some(400.0), None, None);
    var h := [RateRecord(1, 7, Some(older), 100, Some(199)), RateRecord(2, 7, Some(newer), 200, None)];
    assert h[..1] == [h[0]];
    assert h[..0] == [];
  }

  /**
   * With the last day included, the record closed by an addition stays in
   * force through the day before the new start, and the new record is in
   * force from its start while it is open.
   */
  lemma ClosedRecordCovers(h: seq<RateRecord>, custom: map<int, CustomRates>, userId: int, rates: CustomRates, from: Date,
                           newId: int, seedId: int, employmentStart: Option<Date>, d: Date)
    requires First(Seeded(h, custom, userId, seedId, employmentStart), OpenOf(userId)).Some?
    ensures var s := Seeded(h, custom, userId, seedId, employmentStart);
      var a := AddedHistory(h, custom, userId, rates, from, newId, seedId, employmentStart);
      var k := First(s, OpenOf(userId)).value;
      (a[k].effectiveFrom <= d < from ==> InForceWith(a[k], userId, d, Inclusive)) &&
      (from <= d ==> InForceWith(a[|a| - 1], userId, d, Inclusive))
  {
  }

  /**
   * Deleting the record an addition made undoes the addition, when the
   * user already had a history whose open record was the latest and no
   * other record ended the day before the new start.
   */
  lemma DeleteUndoesAdd(h: seq<RateRecord>, custom: map<int, CustomRates>, userId: int, rates: CustomRates, from: Date,
                        newId: int, seedId: int, employmentStart: Option<Date>)
    requires HasAny(h, userId)
    requires forall r :: r in h ==> !Selects(WithId(newId, userId), r)
    requires First(h, OpenOf(userId)).Some?
    requires forall r :: r in h ==> !Selects(EndingOn(userId, from - 1), r)
    requires forall r :: r in h && r.userId == userId ==> r.effectiveFrom <= h[First(h, OpenOf(userId)).value].effectiveFrom
    ensures DeletedHistory(AddedHistory(h, custom, userId, rates, from, newId, seedId, employmentStart), newId, userId) == h
  {
    var c := ClosePrevious(h, userId, from);
    AddedWithHistory(h, custom, userId, rates, from, newId, seedId, employmentStart);
    ClosePreviousKeepsIds(h, userId, from, newId);
    DeleteLast(c, newId, userId, rates, from);
    ReopenUndoesClose(h, userId, from);
    assert Reopened(c, userId, from - 1) == h;
  }

  /** A user with a history is not seeded. */
  lemma AddedWithHistory(h: seq<RateRecord>, custom: map<int, CustomRates>, userId: int, rates: CustomRates, from: Date,
                         newId: int, seedId: int, employmentStart: Option<Date>)
    requires HasAny(h, userId)
    ensures AddedHistory(h, custom, userId, rates, from, newId, seedId, employmentStart) ==
      ClosePrevious(h, userId, from) + [RateRecord(newId, userId, Some(rates), from, None)]
  {
    assert Seeded(h, custom, userId, seedId, employmentStart) == h;
  }

  /** Closing changes no id or user. */
  lemma ClosePreviousKeepsIds(h: seq<RateRecord>, userId: int, from: Date, id: int)
    requires forall r :: r in h ==> !Selects(WithId(id, userId), r)
    ensures forall r :: r in ClosePrevious(h, userId, from) ==> !Selects(WithId(id, userId), r)
  {
    var c := ClosePrevious(h, userId, from);
    forall r | r in c ensures !Selects(WithId(id, userId), r) {
      var j :| 0 <= j < |c| && c[j] == r;
      assert h[j] in h;
    }
  }

  /** Deleting a record that only the last row matches removes that row and then reopens. */
  lemma DeleteLast(c: seq<RateRecord>, id: int, userId: int, rates: CustomRates, from: Date)
    requires forall r :: r in c ==> !Selects(WithId(id, userId), r)
    ensures DeletedHistory(c + [RateRecord(id, userId, Some(rates), from, None)], id, userId) == Reopened(c, userId, from - 1)
  {
    var a := c + [RateRecord(id, userId, Some(rates), from, None)];
    forall j | 0 <= j < |c| ensures !Selects(WithId(id, userId), a[j]) {
      assert a[j] == c[j];
    }
    FirstIs(a, WithId(id, userId), |c|);
    assert a[..|c|] + a[|c| + 1..] == c;
  }

  /** Reopening the record a close ended restores the history, under the conditions of `DeleteUndoesAdd`. */
  lemma ReopenUndoesClose(h: seq<RateRecord>, userId: int, from: Date)
    requires First(h, OpenOf(userId)).Some?
    requires forall r :: r in h ==> !Selects(EndingOn(userId, from - 1), r)
    requires forall r :: r in h && r.userId == userId ==> r.effectiveFrom <= h[First(h, OpenOf(userId)).value].effectiveFrom
    ensures Reopened(ClosePrevious(h, userId, from), userId, from - 1) == h
  {
    var k := First(h, OpenOf(userId)).value;
    var c := ClosePrevious(h, userId, from);
    assert c == h[k := h[k].(effectiveTo := Some(from - 1))];
    forall j | 0 <= j < |c| && j != k ensures !Selects(EndingOn(userId, from - 1), c[j]) {
      assert c[j] == h[j];
      assert h[j] in h;
    }
    FirstIs(c, EndingOn(userId, from - 1), k);
    forall r | r in c && r.userId == userId ensures r.effectiveFrom <= c[k].effectiveFrom {
      var j :| 0 <= j < |c| && c[j] == r;
      assert h[j] in h;
    }
    assert c[k := c[k].(effectiveTo := None)] == h;
  }
}
