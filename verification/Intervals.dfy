/**
 * Half-open time intervals and the "first claim wins" overlay that both the
 * OB engine (app/core/schedule/ob.py) and the on-call engine
 * (app/core/oncall.py) run: rules are visited in priority order, and every
 * rule may only claim the parts of its windows that no earlier rule has
 * already claimed. Instants are integer seconds.
 */
module Intervals {
  import opened Wrappers
  import opened Sorting

  /** The instants `lo <= t < hi`. */
  datatype Interval = Interval(lo: int, hi: int)

  function Length(iv: Interval): int
  {
    iv.hi - iv.lo
  }

  predicate Contains(iv: Interval, t: int)
  {
    iv.lo <= t < iv.hi
  }

  /** Some interval of `cs` contains `t`. */
  predicate Covers(cs: seq<Interval>, t: int)
  {
    exists k :: 0 <= k < |cs| && Contains(cs[k], t)
  }

  predicate NonEmpty(cs: seq<Interval>)
  {
    forall k :: 0 <= k < |cs| ==> cs[k].lo < cs[k].hi
  }

  predicate WellFormed(cs: seq<Interval>)
  {
    forall k :: 0 <= k < |cs| ==> cs[k].lo <= cs[k].hi
  }

  predicate Within(cs: seq<Interval>, lo: int, hi: int)
  {
    forall k :: 0 <= k < |cs| ==> lo <= cs[k].lo && cs[k].hi <= hi
  }

  /** Every interval ends before the next one starts. */
  predicate Ordered(cs: seq<Interval>)
  {
    forall a, b :: 0 <= a < b < |cs| ==> cs[a].hi <= cs[b].lo
  }

  /** No instant lies in two intervals of `cs`. */
  ghost predicate PairwiseDisjoint(cs: seq<Interval>)
  {
    forall a, b, t :: 0 <= a < b < |cs| && Contains(cs[a], t) ==> !Contains(cs[b], t)
  }

  predicate SortedByStart(cs: seq<Interval>)
  {
    forall a, b :: 0 <= a < b < |cs| ==> cs[a].lo <= cs[b].lo
  }

  function Min(a: int, b: int): int { if a <= b then a else b }

  function Max(a: int, b: int): int { if a >= b then a else b }

  /** The overlap of a window with the range [lo, hi), or None when they share no instant. */
  function Overlap(w: Interval, lo: int, hi: int): (r: Option<Interval>)
    ensures r.Some? <==> Max(lo, w.lo) < Min(hi, w.hi)
    ensures r.Some? ==> lo <= r.value.lo < r.value.hi <= hi && w.lo <= r.value.lo && r.value.hi <= w.hi
  {
    var s := Max(lo, w.lo);
    var e := Min(hi, w.hi);
    if e <= s then None else Some(Interval(s, e))
  }

  /** An instant is in the overlap exactly when it is in the window and in the segment. */
  lemma OverlapContains(w: Interval, lo: int, hi: int, t: int)
    ensures (Overlap(w, lo, hi).Some? && Contains(Overlap(w, lo, hi).value, t)) <==> Contains(w, t) && lo <= t < hi
  {
  }

  lemma CoversAppend(a: seq<Interval>, b: seq<Interval>, t: int)
    ensures Covers(a + b, t) <==> Covers(a, t) || Covers(b, t)
  {
    if Covers(a + b, t) {
      var k :| 0 <= k < |a + b| && Contains((a + b)[k], t);
      if k >= |a| {
        assert Contains(b[k - |a|], t);
      }
    }
    if Covers(a, t) {
      var k :| 0 <= k < |a| && Contains(a[k], t);
      assert Contains((a + b)[k], t);
    }
    if Covers(b, t) {
      var k :| 0 <= k < |b| && Contains(b[k], t);
      assert Contains((a + b)[k + |a|], t);
    }
  }

  lemma CoversSingleton(c: Interval, t: int)
    ensures Covers([c], t) <==> Contains(c, t)
  {
    assert [c][0] == c;
  }

  lemma CoversCons(cs: seq<Interval>, t: int)
    requires cs != []
    ensures Covers(cs, t) <==> Contains(cs[0], t) || Covers(cs[1..], t)
  {
    assert cs == [cs[0]] + cs[1..];
    CoversAppend([cs[0]], cs[1..], t);
    assert Contains(cs[0], t) ==> Covers([cs[0]], t);
  }

  lemma CoversMultiset(a: seq<Interval>, b: seq<Interval>, t: int)
    requires multiset(a) == multiset(b)
    ensures Covers(a, t) <==> Covers(b, t)
  {
    if Covers(a, t) {
      var k :| 0 <= k < |a| && Contains(a[k], t);
      assert a[k] in multiset(b);
      var j :| 0 <= j < |b| && b[j] == a[k];
    }
    if Covers(b, t) {
      var k :| 0 <= k < |b| && Contains(b[k], t);
      assert b[k] in multiset(a);
      var j :| 0 <= j < |a| && a[j] == b[k];
    }
  }

  lemma WellFormedMultiset(a: seq<Interval>, b: seq<Interval>)
    requires multiset(a) == multiset(b) && WellFormed(a)
    ensures WellFormed(b)
  {
    forall k | 0 <= k < |b| ensures b[k].lo <= b[k].hi {
      assert b[k] in multiset(a);
      var j :| 0 <= j < |a| && a[j] == b[k];
    }
  }

  // -----------------------------------------------------------------------
  // Python's `sorted` on (start, end) tuples, and a stable sort by start.
  // -----------------------------------------------------------------------

  predicate TupleLE(a: Interval, b: Interval)
  {
    a.lo < b.lo || (a.lo == b.lo && a.hi <= b.hi)
  }

  predicate TupleSorted(cs: seq<Interval>)
  {
    forall a, b :: 0 <= a < b < |cs| ==> TupleLE(cs[a], cs[b])
  }

  function InsertByTuple(x: Interval, t: seq<Interval>): (r: seq<Interval>)
    ensures |r| == |t| + 1
    ensures multiset(r) == multiset(t) + multiset{x}
  {
    if t == [] || TupleLE(x, t[0]) then [x] + t
    else
      assert t == [t[0]] + t[1..];
      [t[0]] + InsertByTuple(x, t[1..])
  }

  /** `sorted(cs)` for a list of (start, end) tuples. */
  function SortByTuple(cs: seq<Interval>): (r: seq<Interval>)
    ensures |r| == |cs|
    ensures multiset(r) == multiset(cs)
  {
    if cs == [] then []
    else
      assert cs == [cs[0]] + cs[1..];
      InsertByTuple(cs[0], SortByTuple(cs[1..]))
  }

  lemma {:induction false} InsertByTupleSorted(x: Interval, t: seq<Interval>)
    requires TupleSorted(t)
    ensures TupleSorted(InsertByTuple(x, t))
    decreases |t|
  {
    if !(t == [] || TupleLE(x, t[0])) {
      InsertByTupleSorted(x, t[1..]);
      var rest := InsertByTuple(x, t[1..]);
      forall j | 0 <= j < |rest| ensures TupleLE(t[0], rest[j]) {
        assert rest[j] in multiset(rest);
        if rest[j] != x {
          assert rest[j] in multiset(t[1..]);
          var k :| 0 <= k < |t[1..]| && t[1..][k] == rest[j];
          assert t[k + 1] == rest[j];
        }
      }
    }
  }

  /** The tuple sort orders by start (ties by end) and keeps the elements. */
  lemma {:induction false} SortByTupleSorted(cs: seq<Interval>)
    ensures TupleSorted(SortByTuple(cs)) && SortedByStart(SortByTuple(cs))
    decreases |cs|
  {
    if cs != [] {
      SortByTupleSorted(cs[1..]);
      InsertByTupleSorted(cs[0], SortByTuple(cs[1..]));
    }
  }

  function StartKey(iv: Interval): int { -iv.lo }

  /** `sorted(cs, key=lambda x: x[0])`: stable, earliest start first. */
  function SortByStart(cs: seq<Interval>): (r: seq<Interval>)
    ensures |r| == |cs| && multiset(r) == multiset(cs)
  {
    SortDesc(cs, StartKey)
  }

  lemma SortByStartSorted(cs: seq<Interval>)
    ensures SortedByStart(SortByStart(cs))
  {
    SortDescSorted(cs, StartKey);
    var r := SortByStart(cs);
    assert forall a, b :: 0 <= a < b < |r| ==> StartKey(r[a]) >= StartKey(r[b]);
  }

  // -----------------------------------------------------------------------
  // The cursor walk of `_subtract_covered`.
  // -----------------------------------------------------------------------

  /**
   * Starting at `cursor`, walks the covered intervals in order and emits
   * the gaps before `end` that they leave open.
   */
  function Gaps(cursor: int, end: int, cs: seq<Interval>): seq<Interval>
    decreases |cs|
  {
    if cs == [] then
      (if cursor < end then [Interval(cursor, end)] else [])
    else
      var c := cs[0];
      if c.hi <= cursor || c.lo >= end then Gaps(cursor, end, cs[1..])
      else
        (if c.lo > cursor then [Interval(cursor, Min(c.lo, end))] else [])
        + Gaps(Max(cursor, c.hi), end, cs[1..])
  }

  lemma GapsPastEnd(cursor: int, end: int, cs: seq<Interval>)
    requires end <= cursor
    ensures Gaps(cursor, end, cs) == []
    decreases |cs|
  {
    if cs != [] {
      GapsPastEnd(if cs[0].hi <= cursor || cs[0].lo >= end then cursor else Max(cursor, cs[0].hi), end, cs[1..]);
    }
  }

  /**
   * Over a start-sorted list of well-formed covered intervals, the gaps are
   * non-empty, ordered, inside [cursor, end), and contain exactly the
   * instants of [cursor, end) that no covered interval contains.
   */
  lemma {:induction false} GapsSpec(cursor: int, end: int, cs: seq<Interval>)
    requires SortedByStart(cs) && WellFormed(cs)
    ensures NonEmpty(Gaps(cursor, end, cs))
    ensures Within(Gaps(cursor, end, cs), cursor, end)
    ensures Ordered(Gaps(cursor, end, cs))
    ensures forall t :: Covers(Gaps(cursor, end, cs), t) <==> cursor <= t < end && !Covers(cs, t)
    decreases |cs|
  {
    var r := Gaps(cursor, end, cs);
    if cs == [] {
      forall t ensures Covers(r, t) <==> cursor <= t < end && !Covers(cs, t) {
        if cursor <= t < end {
          assert Contains(r[0], t);
        }
      }
    } else {
      var c := cs[0];
      var rest := cs[1..];
      if c.hi <= cursor || c.lo >= end {
        GapsSpec(cursor, end, rest);
        forall t ensures Covers(r, t) <==> cursor <= t < end && !Covers(cs, t) {
          CoversCons(cs, t);
        }
      } else {
        var nc := Max(cursor, c.hi);
        var head := if c.lo > cursor then [Interval(cursor, Min(c.lo, end))] else [];
        var tail := Gaps(nc, end, rest);
        GapsSpec(nc, end, rest);
        assert r == head + tail;
        forall t ensures Covers(r, t) <==> cursor <= t < end && !Covers(cs, t) {
          CoversAppend(head, tail, t);
          CoversCons(cs, t);
          if Covers(head, t) {
            assert t < c.lo;
            forall k | 0 <= k < |rest| ensures !Contains(rest[k], t) {
              assert cs[k + 1] == rest[k];
            }
          }
          if cursor <= t < end && !Covers(cs, t) && t < c.lo {
            assert Contains(head[0], t);
          }
        }
      }
    }
  }

  // -----------------------------------------------------------------------
  // Subtraction as the two engines call it.
  // -----------------------------------------------------------------------

  /**
   * How the covered list is ordered before the walk: ob.py sorts the
   * (start, end) tuples; oncall.py sorts by start only and returns the
   * whole span at once when nothing is covered yet.
   */
  datatype SortOrder = ByTuple | ByStart

  function Subtract(order: SortOrder, start: int, end: int, covered: seq<Interval>): seq<Interval>
  {
    match order
    case ByTuple => Gaps(start, end, SortByTuple(covered))
    case ByStart => if covered == [] then [Interval(start, end)] else Gaps(start, end, SortByStart(covered))
  }

  /**
   * For a non-empty span, both orderings give non-empty ordered pieces of
   * [start, end) that hold exactly the instants left uncovered.
   */
  lemma SubtractSpec(order: SortOrder, start: int, end: int, covered: seq<Interval>)
    requires start < end && WellFormed(covered)
    ensures NonEmpty(Subtract(order, start, end, covered))
    ensures Within(Subtract(order, start, end, covered), start, end)
    ensures Ordered(Subtract(order, start, end, covered))
    ensures forall t :: Covers(Subtract(order, start, end, covered), t) <==> start <= t < end && !Covers(covered, t)
  {
    var r := Subtract(order, start, end, covered);
    match order
    case ByTuple =>
      var s := SortByTuple(covered);
      SortByTupleSorted(covered);
      WellFormedMultiset(covered, s);
      GapsSpec(start, end, s);
      forall t ensures Covers(r, t) <==> start <= t < end && !Covers(covered, t) {
        CoversMultiset(covered, s, t);
      }
    case ByStart =>
      if covered == [] {
        forall t ensures Covers(r, t) <==> start <= t < end && !Covers(covered, t) {
          if start <= t < end {
            assert Contains(r[0], t);
          }
        }
      } else {
        var s := SortByStart(covered);
        SortByStartSorted(covered);
        WellFormedMultiset(covered, s);
        GapsSpec(start, end, s);
        forall t ensures Covers(r, t) <==> start <= t < end && !Covers(covered, t) {
          CoversMultiset(covered, s, t);
        }
      }
  }

  lemma OrderedDisjoint(cs: seq<Interval>)
    requires Ordered(cs)
    ensures PairwiseDisjoint(cs)
  {
  }

  // -----------------------------------------------------------------------
  // The overlay: windows visited in rank order, first claim wins.
  // -----------------------------------------------------------------------

  /** A window of the rule at position `rank` in priority order. */
  datatype Item = Item(rank: nat, window: Interval)

  /** A piece of time paid to the rule at position `rank`. */
  datatype Claim = Claim(rank: nat, span: Interval)

  function Spans(cl: seq<Claim>): (r: seq<Interval>)
    ensures |r| == |cl| && forall i :: 0 <= i < |cl| ==> r[i] == cl[i].span
  {
    seq(|cl|, i requires 0 <= i < |cl| => cl[i].span)
  }

  function Tag(rank: nat, ps: seq<Interval>): (r: seq<Claim>)
    ensures |r| == |ps| && forall i :: 0 <= i < |ps| ==> r[i] == Claim(rank, ps[i])
  {
    seq(|ps|, i requires 0 <= i < |ps| => Claim(rank, ps[i]))
  }

  /** Tagging one more piece adds one claim at the end. */
  lemma TagSnoc(before: seq<Claim>, k: nat, qs: seq<Interval>, p: Interval)
    ensures before + Tag(k, qs + [p]) == before + Tag(k, qs) + [Claim(k, p)]
  {
    assert Tag(k, qs + [p]) == Tag(k, qs) + [Claim(k, p)];
  }

  /** Tagging the first `m + 1` pieces adds the claim of piece `m` to those of the first `m`. */
  lemma TagPrefixSnoc(before: seq<Claim>, k: nat, ps: seq<Interval>, m: nat)
    requires m < |ps|
    ensures before + Tag(k, ps[..m + 1]) == before + Tag(k, ps[..m]) + [Claim(k, ps[m])]
  {
    assert ps[..m + 1] == ps[..m] + [ps[m]];
    TagSnoc(before, k, ps[..m], ps[m]);
  }

  /** The windows `ws` of one rule, as items of rank `rank`. */
  function Items(rank: nat, ws: seq<Interval>): (r: seq<Item>)
    ensures |r| == |ws| && forall i :: 0 <= i < |ws| ==> r[i] == Item(rank, ws[i])
  {
    seq(|ws|, i requires 0 <= i < |ws| => Item(rank, ws[i]))
  }

  /** The windows of every rule, rule by rule, each tagged with its rule's position. */
  function Flatten(windows: seq<seq<Interval>>): (r: seq<Item>)
    ensures forall k :: 0 <= k < |r| ==> r[k].rank < |windows|
    decreases |windows|
  {
    if windows == [] then []
    else Flatten(windows[..|windows| - 1]) + Items(|windows| - 1, windows[|windows| - 1])
  }

  /** Flattening adds the windows of one rule at a time. */
  lemma FlattenSnoc(windows: seq<seq<Interval>>, k: nat)
    requires k < |windows|
    ensures Flatten(windows[..k + 1]) == Flatten(windows[..k]) + Items(k, windows[k])
  {
    assert windows[..k + 1][..k] == windows[..k];
  }

  /**
   * The items of `Flatten` are exactly the windows paired with the position
   * of their rule, in rule order; they are non-empty when the windows are.
   */
  lemma FlattenSpec(windows: seq<seq<Interval>>)
    ensures RanksNondecreasing(Flatten(windows))
    ensures forall k: nat, w :: Item(k, w) in Flatten(windows) <==> k < |windows| && w in windows[k]
    ensures (forall k, w :: 0 <= k < |windows| && w in windows[k] ==> w.lo < w.hi) ==> WindowsNonEmpty(Flatten(windows))
  {
    FlattenOrdered(windows);
    FlattenMembers(windows);
    if forall k, w :: 0 <= k < |windows| && w in windows[k] ==> w.lo < w.hi {
      FlattenNonEmpty(windows);
    }
  }

  /** Flattening keeps the rule order: the windows of rule `k` come before those of later rules. */
  lemma {:induction false} FlattenOrdered(windows: seq<seq<Interval>>)
    ensures RanksNondecreasing(Flatten(windows))
    decreases |windows|
  {
    if windows != [] {
      var n := |windows| - 1;
      FlattenOrdered(windows[..n]);
      var a := Flatten(windows[..n]);
      var b := Items(n, windows[n]);
      assert Flatten(windows) == a + b;
      var ab: seq<Item> := a + b;
      forall x: int, y: int | 0 <= x < y < |ab| ensures ab[x].rank <= ab[y].rank {
        if y < |a| {
          assert ab[x] == a[x] && ab[y] == a[y];
        } else if x < |a| {
          assert ab[x] == a[x] && ab[y] == b[y - |a|];
        } else {
          assert ab[x] == b[x - |a|] && ab[y] == b[y - |a|];
        }
      }
    }
  }

  /** An item of `Flatten` is a window paired with the position of its rule, and every such pair is one. */
  lemma {:induction false} FlattenMembers(windows: seq<seq<Interval>>)
    ensures forall k: nat, w :: Item(k, w) in Flatten(windows) <==> k < |windows| && w in windows[k]
    decreases |windows|
  {
    if windows != [] {
      var n := |windows| - 1;
      var prefix := windows[..n];
      FlattenMembers(prefix);
      var a := Flatten(prefix);
      var b := Items(n, windows[n]);
      assert Flatten(windows) == a + b;
      forall k: nat, w ensures Item(k, w) in a + b <==> k < |windows| && w in windows[k] {
        if k < n {
          assert windows[k] == prefix[k];
        }
        if Item(k, w) in b {
          var i :| 0 <= i < |b| && b[i] == Item(k, w);
        }
        if k == n && w in windows[n] {
          var i :| 0 <= i < |windows[n]| && windows[n][i] == w;
          assert b[i] == Item(k, w);
        }
      }
    }
  }

  /** Flattening non-empty windows gives items with non-empty windows. */
  lemma {:induction false} FlattenNonEmpty(windows: seq<seq<Interval>>)
    requires forall k, w :: 0 <= k < |windows| && w in windows[k] ==> w.lo < w.hi
    ensures WindowsNonEmpty(Flatten(windows))
    decreases |windows|
  {
    if windows != [] {
      var n := |windows| - 1;
      var prefix := windows[..n];
      forall k, w: Interval | 0 <= k < |prefix| && w in prefix[k] ensures w.lo < w.hi {
        assert prefix[k] == windows[k];
      }
      FlattenNonEmpty(prefix);
      var a := Flatten(prefix);
      var b := Items(n, windows[n]);
      assert Flatten(windows) == a + b;
      forall i | 0 <= i < |b| ensures b[i].window.lo < b[i].window.hi {
        assert windows[n][i] in windows[n];
      }
      var ab: seq<Item> := a + b;
      forall x: int | 0 <= x < |ab| ensures ab[x].window.lo < ab[x].window.hi {
        if x < |a| {
          assert ab[x] == a[x];
        } else {
          assert ab[x] == b[x - |a|];
        }
      }
    }
  }

  /** Visiting one more item extends the overlay by that item's claims. */
  lemma OverlaySnoc(order: SortOrder, items: seq<Item>, it: Item)
    ensures Overlay(order, items + [it]) == ClaimWindow(order, Overlay(order, items), it)
  {
    assert (items + [it])[..|items|] == items;
  }

  /** What one window adds: its parts that nothing claimed so far covers. */
  function ClaimWindow(order: SortOrder, before: seq<Claim>, it: Item): seq<Claim>
  {
    before + Tag(it.rank, Subtract(order, it.window.lo, it.window.hi, Spans(before)))
  }

  /** The claims after visiting `items` in order. */
  function Overlay(order: SortOrder, items: seq<Item>): seq<Claim>
    decreases |items|
  {
    if items == [] then []
    else ClaimWindow(order, Overlay(order, items[..|items| - 1]), items[|items| - 1])
  }

  predicate RanksNondecreasing(items: seq<Item>)
  {
    forall a, b :: 0 <= a < b < |items| ==> items[a].rank <= items[b].rank
  }

  predicate WindowsNonEmpty(items: seq<Item>)
  {
    forall k :: 0 <= k < |items| ==> items[k].window.lo < items[k].window.hi
  }

  /**
   * What the overlay guarantees: claims are non-empty and never overlap;
   * each lies in a window of its own rule; no instant of a claim lies in a
   * window of an earlier rule; and every instant of every window is claimed.
   */
  ghost predicate OverlayOk(items: seq<Item>, cl: seq<Claim>)
  {
    && NonEmpty(Spans(cl))
    && ClaimsDisjoint(cl)
    && ClaimsInOwnWindows(items, cl)
    && ClaimsRespectPriority(items, cl)
    && WindowsClaimed(items, cl)
  }

  ghost predicate ClaimsDisjoint(cl: seq<Claim>)
  {
    forall i, j, t :: 0 <= i < j < |cl| && Contains(cl[i].span, t) ==> !Contains(cl[j].span, t)
  }

  ghost predicate ClaimsInOwnWindows(items: seq<Item>, cl: seq<Claim>)
  {
    forall i, t :: 0 <= i < |cl| && Contains(cl[i].span, t) ==>
      exists k :: 0 <= k < |items| && items[k].rank == cl[i].rank && Contains(items[k].window, t)
  }

  ghost predicate ClaimsRespectPriority(items: seq<Item>, cl: seq<Claim>)
  {
    forall i, k, t :: 0 <= i < |cl| && 0 <= k < |items| && items[k].rank < cl[i].rank && Contains(cl[i].span, t) ==>
      !Contains(items[k].window, t)
  }

  ghost predicate WindowsClaimed(items: seq<Item>, cl: seq<Claim>)
  {
    forall k, t :: 0 <= k < |items| && Contains(items[k].window, t) ==> Covers(Spans(cl), t)
  }

  lemma SpansAppend(before: seq<Claim>, rank: nat, ps: seq<Interval>)
    ensures Spans(before + Tag(rank, ps)) == Spans(before) + ps
  {
  }

  /** Visiting one more item, of a rank no smaller than those before, keeps `OverlayOk`. */
  lemma OverlayStep(order: SortOrder, items: seq<Item>, before: seq<Claim>, it: Item)
    requires OverlayOk(items, before)
    requires forall k :: 0 <= k < |items| ==> items[k].rank <= it.rank
    requires it.window.lo < it.window.hi
    ensures OverlayOk(items + [it], ClaimWindow(order, before, it))
  {
    var ps := ClaimWindowParts(order, before, it);
    StepDisjoint(order, before, it, ps);
    StepInOwnWindows(order, items, before, it, ps);
    StepRespectsPriority(order, items, before, it, ps);
    StepClaimsWindows(order, items, before, it, ps);
  }

  /** The shape of what one window adds: the parts `ps` of the window that nothing claimed. */
  lemma ClaimWindowParts(order: SortOrder, before: seq<Claim>, it: Item) returns (ps: seq<Interval>)
    requires NonEmpty(Spans(before)) && ClaimsDisjoint(before)
    requires it.window.lo < it.window.hi
    ensures ps == Subtract(order, it.window.lo, it.window.hi, Spans(before))
    ensures NonEmpty(ps) && Ordered(ps)
    ensures forall t :: Covers(ps, t) <==> Contains(it.window, t) && !Covers(Spans(before), t)
    ensures NonEmpty(Spans(ClaimWindow(order, before, it)))
    ensures Spans(ClaimWindow(order, before, it)) == Spans(before) + ps
    ensures |ClaimWindow(order, before, it)| == |before| + |ps|
    ensures forall i :: 0 <= i < |before| ==> ClaimWindow(order, before, it)[i] == before[i]
    ensures forall i :: |before| <= i < |before| + |ps| ==>
      ClaimWindow(order, before, it)[i] == Claim(it.rank, ps[i - |before|])
  {
    var sp := Spans(before);
    ps := Subtract(order, it.window.lo, it.window.hi, sp);
    assert WellFormed(sp);
    SubtractSpec(order, it.window.lo, it.window.hi, sp);
    SpansAppend(before, it.rank, ps);
  }

  lemma StepDisjoint(order: SortOrder, before: seq<Claim>, it: Item, ps: seq<Interval>)
    requires NonEmpty(Spans(before)) && ClaimsDisjoint(before) && it.window.lo < it.window.hi
    requires ps == Subtract(order, it.window.lo, it.window.hi, Spans(before))
    requires NonEmpty(ps) && Ordered(ps)
    requires forall t :: Covers(ps, t) <==> Contains(it.window, t) && !Covers(Spans(before), t)
    requires |ClaimWindow(order, before, it)| == |before| + |ps|
    requires forall i :: 0 <= i < |before| ==> ClaimWindow(order, before, it)[i] == before[i]
    requires forall i :: |before| <= i < |before| + |ps| ==>
      ClaimWindow(order, before, it)[i] == Claim(it.rank, ps[i - |before|])
    ensures ClaimsDisjoint(ClaimWindow(order, before, it))
  {
    var cl := ClaimWindow(order, before, it);
    var sp := Spans(before);
    forall i, j, t | 0 <= i < j < |cl| && Contains(cl[i].span, t)
      ensures !Contains(cl[j].span, t)
    {
      if j >= |before| {
        if i < |before| {
          assert Contains(sp[i], t);
          assert Covers(sp, t);
          assert !Covers(ps, t);
          assert cl[j].span == ps[j - |before|];
        } else {
          assert ps[i - |before|].hi <= ps[j - |before|].lo;
        }
      }
    }
  }

  lemma StepInOwnWindows(order: SortOrder, items: seq<Item>, before: seq<Claim>, it: Item, ps: seq<Interval>)
    requires ClaimsInOwnWindows(items, before)
    requires forall t :: Covers(ps, t) <==> Contains(it.window, t) && !Covers(Spans(before), t)
    requires |ClaimWindow(order, before, it)| == |before| + |ps|
    requires forall i :: 0 <= i < |before| ==> ClaimWindow(order, before, it)[i] == before[i]
    requires forall i :: |before| <= i < |before| + |ps| ==>
      ClaimWindow(order, before, it)[i] == Claim(it.rank, ps[i - |before|])
    ensures ClaimsInOwnWindows(items + [it], ClaimWindow(order, before, it))
  {
    var cl := ClaimWindow(order, before, it);
    var all := items + [it];
    forall i, t | 0 <= i < |cl| && Contains(cl[i].span, t)
      ensures exists k :: 0 <= k < |all| && all[k].rank == cl[i].rank && Contains(all[k].window, t)
    {
      if i < |before| {
        var k :| 0 <= k < |items| && items[k].rank == before[i].rank && Contains(items[k].window, t);
        assert all[k] == items[k];
      } else {
        assert Contains(ps[i - |before|], t);
        assert Covers(ps, t);
        assert all[|items|].rank == cl[i].rank && Contains(all[|items|].window, t);
      }
    }
  }

  lemma StepRespectsPriority(order: SortOrder, items: seq<Item>, before: seq<Claim>, it: Item, ps: seq<Interval>)
    requires NonEmpty(Spans(before)) && ClaimsInOwnWindows(items, before) && ClaimsRespectPriority(items, before)
    requires WindowsClaimed(items, before)
    requires forall k :: 0 <= k < |items| ==> items[k].rank <= it.rank
    requires forall t :: Covers(ps, t) <==> Contains(it.window, t) && !Covers(Spans(before), t)
    requires |ClaimWindow(order, before, it)| == |before| + |ps|
    requires forall i :: 0 <= i < |before| ==> ClaimWindow(order, before, it)[i] == before[i]
    requires forall i :: |before| <= i < |before| + |ps| ==>
      ClaimWindow(order, before, it)[i] == Claim(it.rank, ps[i - |before|])
    ensures ClaimsRespectPriority(items + [it], ClaimWindow(order, before, it))
  {
    var cl := ClaimWindow(order, before, it);
    var all := items + [it];
    var sp := Spans(before);
    // every earlier claim belongs to a rank already visited
    forall i | 0 <= i < |before| ensures before[i].rank <= it.rank {
      var t := before[i].span.lo;
      assert sp[i] == before[i].span;
      assert Contains(before[i].span, t);
      var k2 :| 0 <= k2 < |items| && items[k2].rank == before[i].rank && Contains(items[k2].window, t);
    }
    forall i, k, t | 0 <= i < |cl| && 0 <= k < |all| && all[k].rank < cl[i].rank && Contains(cl[i].span, t)
      ensures !Contains(all[k].window, t)
    {
      if i >= |before| && k < |items| {
        assert all[k] == items[k];
        assert Contains(ps[i - |before|], t);
        assert Covers(ps, t);
        assert Contains(items[k].window, t) ==> Covers(sp, t);
      } else if i < |before| {
        assert cl[i] == before[i];
        if k < |items| {
          assert all[k] == items[k];
        }
      }
    }
  }

  lemma StepClaimsWindows(order: SortOrder, items: seq<Item>, before: seq<Claim>, it: Item, ps: seq<Interval>)
    requires WindowsClaimed(items, before)
    requires forall t :: Covers(ps, t) <==> Contains(it.window, t) && !Covers(Spans(before), t)
    requires Spans(ClaimWindow(order, before, it)) == Spans(before) + ps
    ensures WindowsClaimed(items + [it], ClaimWindow(order, before, it))
  {
    var cl := ClaimWindow(order, before, it);
    var all := items + [it];
    var sp := Spans(before);
    forall k, t | 0 <= k < |all| && Contains(all[k].window, t)
      ensures Covers(Spans(cl), t)
    {
      CoversAppend(sp, ps, t);
      if k < |items| {
        assert all[k] == items[k];
        assert Contains(items[k].window, t);
      }
    }
  }

  /** The overlay of non-empty windows in nondecreasing rank order satisfies `OverlayOk`. */
  lemma {:induction false} OverlaySound(order: SortOrder, items: seq<Item>)
    requires RanksNondecreasing(items) && WindowsNonEmpty(items)
    ensures OverlayOk(items, Overlay(order, items))
    decreases |items|
  {
    if items != [] {
      var n := |items| - 1;
      var prefix := items[..n];
      OverlaySound(order, prefix);
      assert items == prefix + [items[n]];
      OverlayStep(order, prefix, Overlay(order, prefix), items[n]);
    }
  }

  // -----------------------------------------------------------------------
  // No instant is counted twice: total length is bounded by the span.
  // -----------------------------------------------------------------------

  function SumLengths(cs: seq<Interval>): int
  {
    if cs == [] then 0 else Length(cs[0]) + SumLengths(cs[1..])
  }

  lemma {:induction false} SumLengthsAppend(a: seq<Interval>, b: seq<Interval>)
    ensures SumLengths(a + b) == SumLengths(a) + SumLengths(b)
    decreases |a|
  {
    if a == [] {
      assert a + b == b;
    } else {
      assert (a + b)[1..] == a[1..] + b;
      SumLengthsAppend(a[1..], b);
    }
  }

  /** Instants of [lo, hi) that `cs` covers. */
  function CountCovered(cs: seq<Interval>, lo: int, hi: int): int
    decreases hi - lo
  {
    if hi <= lo then 0 else (if Covers(cs, lo) then 1 else 0) + CountCovered(cs, lo + 1, hi)
  }

  lemma {:induction false} CountCoveredBound(cs: seq<Interval>, lo: int, hi: int)
    requires lo <= hi
    ensures 0 <= CountCovered(cs, lo, hi) <= hi - lo
    decreases hi - lo
  {
    if lo < hi {
      CountCoveredBound(cs, lo + 1, hi);
    }
  }

  lemma {:induction false} CountCoveredEmpty(lo: int, hi: int)
    ensures CountCovered([], lo, hi) == 0
    decreases hi - lo
  {
    if lo < hi {
      CountCoveredEmpty(lo + 1, hi);
    }
  }

  /** Counting one interval's instants inside a range that holds it gives its length. */
  lemma {:induction false} CountOne(c: Interval, lo: int, hi: int)
    requires lo <= c.lo <= c.hi <= hi
    ensures CountCovered([c], lo, hi) == Length(c)
    decreases hi - lo
  {
    if lo < hi {
      CoversSingleton(c, lo);
      if lo < c.lo {
        CountOne(c, lo + 1, hi);
      } else if c.lo < c.hi {
        var c' := Interval(c.lo + 1, c.hi);
        CountOne(c', lo + 1, hi);
        forall t | lo + 1 <= t < hi ensures Covers([c], t) <==> Covers([c'], t) {
          CoversSingleton(c, t);
          CoversSingleton(c', t);
        }
        CountSame([c], [c'], lo + 1, hi);
      } else {
        CountCoveredEmpty(lo, hi);
        CountSame([c], [], lo, hi);
      }
    }
  }

  lemma {:induction false} CountSame(a: seq<Interval>, b: seq<Interval>, lo: int, hi: int)
    requires forall t :: lo <= t < hi ==> (Covers(a, t) <==> Covers(b, t))
    ensures CountCovered(a, lo, hi) == CountCovered(b, lo, hi)
    decreases hi - lo
  {
    if lo < hi {
      CountSame(a, b, lo + 1, hi);
    }
  }

  /** When `c` shares no instant with `rest`, their counts add up. */
  lemma {:induction false} CountDisjointCons(c: Interval, rest: seq<Interval>, lo: int, hi: int)
    requires forall t :: Contains(c, t) ==> !Covers(rest, t)
    ensures CountCovered([c] + rest, lo, hi) == CountCovered([c], lo, hi) + CountCovered(rest, lo, hi)
    decreases hi - lo
  {
    if lo < hi {
      CountDisjointCons(c, rest, lo + 1, hi);
      CoversAppend([c], rest, lo);
      CoversSingleton(c, lo);
    }
  }

  /** Pairwise disjoint, non-empty intervals inside [lo, hi) cover each of their instants once. */
  lemma {:induction false} SumIsCount(cs: seq<Interval>, lo: int, hi: int)
    requires NonEmpty(cs) && Within(cs, lo, hi) && PairwiseDisjoint(cs)
    ensures SumLengths(cs) == CountCovered(cs, lo, hi)
    decreases |cs|
  {
    if cs == [] {
      CountCoveredEmpty(lo, hi);
    } else {
      var c := cs[0];
      var rest := cs[1..];
      assert PairwiseDisjoint(rest) by {
        forall a, b, t | 0 <= a < b < |rest| && Contains(rest[a], t) ensures !Contains(rest[b], t) {
          assert rest[a] == cs[a + 1] && rest[b] == cs[b + 1];
        }
      }
      SumIsCount(rest, lo, hi);
      forall t, k | Contains(c, t) && 0 <= k < |rest| ensures !Contains(rest[k], t) {
        assert rest[k] == cs[k + 1];
      }
      assert cs == [c] + rest;
      CountDisjointCons(c, rest, lo, hi);
      CountOne(c, lo, hi);
    }
  }

  /** The total length of non-overlapping pieces of [lo, hi) is at most `hi - lo`. */
  lemma DisjointLengthBound(cs: seq<Interval>, lo: int, hi: int)
    requires NonEmpty(cs) && Within(cs, lo, hi) && PairwiseDisjoint(cs) && lo <= hi
    ensures 0 <= SumLengths(cs) <= hi - lo
  {
    SumIsCount(cs, lo, hi);
    CountCoveredBound(cs, lo, hi);
  }

  /** When every instant of [lo, hi) is covered, all `hi - lo` of them are counted. */
  lemma {:induction false} CountAll(cs: seq<Interval>, lo: int, hi: int)
    requires lo <= hi && forall t :: lo <= t < hi ==> Covers(cs, t)
    ensures CountCovered(cs, lo, hi) == hi - lo
    decreases hi - lo
  {
    if lo < hi {
      CountAll(cs, lo + 1, hi);
    }
  }

  /** Non-overlapping pieces of [lo, hi) that together cover all of it have total length `hi - lo`. */
  lemma FullCoverLength(cs: seq<Interval>, lo: int, hi: int)
    requires NonEmpty(cs) && Within(cs, lo, hi) && PairwiseDisjoint(cs) && lo <= hi
    requires forall t :: lo <= t < hi ==> Covers(cs, t)
    ensures SumLengths(cs) == hi - lo
  {
    SumIsCount(cs, lo, hi);
    CountAll(cs, lo, hi);
  }
}
