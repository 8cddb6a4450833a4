/**
 * Python's `sorted(xs, key=k, reverse=True)`: a stable sort by an integer
 * key, largest key first. Stability means that elements with equal keys
 * keep the order they had in the input, which `KeepsOrderWithinKey` states.
 */
module Sorting {
  predicate SortedDesc<T>(s: seq<T>, key: T -> int)
  {
    forall i, j :: 0 <= i < j < |s| ==> key(s[i]) >= key(s[j])
  }

  /** The elements of `s` whose key is `v`, in their order in `s`. */
  function WithKey<T>(s: seq<T>, key: T -> int, v: int): (r: seq<T>)
    ensures |r| <= |s|
    ensures forall x :: x in r ==> x in s && key(x) == v
  {
    if s == [] then []
    else (if key(s[0]) == v then [s[0]] else []) + WithKey(s[1..], key, v)
  }

  /**
   * Puts `x` in front of the first element whose key is not larger than its
   * own. Every element of `t` comes after `x` in the input, so `x` goes
   * before the elements with the same key.
   */
  function InsertDesc<T>(x: T, t: seq<T>, key: T -> int): (r: seq<T>)
    ensures |r| == |t| + 1
    ensures multiset(r) == multiset(t) + multiset{x}
  {
    if t == [] || key(t[0]) <= key(x) then [x] + t
    else
      assert t == [t[0]] + t[1..];
      [t[0]] + InsertDesc(x, t[1..], key)
  }

  function SortDesc<T>(s: seq<T>, key: T -> int): (r: seq<T>)
    ensures |r| == |s|
    ensures multiset(r) == multiset(s)
  {
    if s == [] then []
    else
      assert s == [s[0]] + s[1..];
      InsertDesc(s[0], SortDesc(s[1..], key), key)
  }

  lemma {:induction false} InsertDescSorted<T>(x: T, t: seq<T>, key: T -> int)
    requires SortedDesc(t, key)
    ensures SortedDesc(InsertDesc(x, t, key), key)
    decreases |t|
  {
    if t == [] || key(t[0]) <= key(x) {
    } else {
      InsertDescSorted(x, t[1..], key);
      var r := InsertDesc(x, t, key);
      var rest := InsertDesc(x, t[1..], key);
      assert r == [t[0]] + rest;
      forall j | 0 <= j < |rest| ensures key(t[0]) >= key(rest[j]) {
        assert rest[j] in multiset(rest);
        assert rest[j] in multiset(t[1..]) + multiset{x};
        if rest[j] in multiset(t[1..]) {
          var k :| 0 <= k < |t[1..]| && t[1..][k] == rest[j];
          assert t[k + 1] == rest[j];
        }
      }
    }
  }

  /** The result is ordered by key, largest first, and holds the same elements. */
  lemma {:induction false} SortDescSorted<T>(s: seq<T>, key: T -> int)
    ensures SortedDesc(SortDesc(s, key), key)
    ensures multiset(SortDesc(s, key)) == multiset(s)
    decreases |s|
  {
    if s != [] {
      SortDescSorted(s[1..], key);
      InsertDescSorted(s[0], SortDesc(s[1..], key), key);
    }
  }

  lemma {:induction false} WithKeyAppend<T>(a: seq<T>, b: seq<T>, key: T -> int, v: int)
    ensures WithKey(a + b, key, v) == WithKey(a, key, v) + WithKey(b, key, v)
    decreases |a|
  {
    if a == [] {
      assert a + b == b;
    } else {
      assert (a + b)[1..] == a[1..] + b;
      WithKeyAppend(a[1..], b, key, v);
    }
  }

  lemma WithKeyCons<T>(x: T, t: seq<T>, key: T -> int, v: int)
    ensures WithKey([x] + t, key, v) == (if key(x) == v then [x] else []) + WithKey(t, key, v)
  {
    assert ([x] + t)[1..] == t;
  }

  lemma {:induction false} InsertDescWithKey<T>(x: T, t: seq<T>, key: T -> int, v: int)
    ensures WithKey(InsertDesc(x, t, key), key, v) ==
      (if key(x) == v then [x] else []) + WithKey(t, key, v)
    decreases |t|
  {
    if t == [] || key(t[0]) <= key(x) {
      WithKeyCons(x, t, key, v);
    } else {
      // t[0] has a larger key than x, so x and t[0] never both have key v
      InsertDescWithKey(x, t[1..], key, v);
      WithKeyCons(t[0], InsertDesc(x, t[1..], key), key, v);
      WithKeyCons(t[0], t[1..], key, v);
      assert t == [t[0]] + t[1..];
    }
  }

  /** Stability: among the elements with any one key, the input order is kept. */
  lemma {:induction false} KeepsOrderWithinKey<T>(s: seq<T>, key: T -> int, v: int)
    ensures WithKey(SortDesc(s, key), key, v) == WithKey(s, key, v)
    decreases |s|
  {
    if s != [] {
      KeepsOrderWithinKey(s[1..], key, v);
      InsertDescWithKey(s[0], SortDesc(s[1..], key), key, v);
    }
  }
}
