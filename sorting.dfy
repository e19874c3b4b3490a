/**
 * `Array.prototype.sort` with a numeric comparator `(a, b) => key(a) - key(b)`.
 * The ECMAScript specification requires this sort to be stable, so it is
 * modelled as a stable insertion sort: the result is ordered by key, is a
 * permutation of the input, and keeps the input order among equal keys.
 * A descending sort (`b.x - a.x`) is the same sort on the negated key.
 */
module Sorting {

  /** `s` is ordered by non-decreasing key. */
  ghost predicate SortedBy<T>(s: seq<T>, key: T -> real) {
    forall i, j :: 0 <= i < j < |s| ==> key(s[i]) <= key(s[j])
  }

  /** The elements of `s` whose key is `v`, in their order in `s`. */
  function WithKey<T>(s: seq<T>, key: T -> real, v: real): (r: seq<T>)
    ensures |r| <= |s|
  {
    if s == [] then []
    else WithKey(s[..|s| - 1], key, v) + (if key(s[|s| - 1]) == v then [s[|s| - 1]] else [])
  }

  /** Places `x` after every element of `t` whose key is not greater than its own. */
  function Insert<T>(t: seq<T>, x: T, key: T -> real): (r: seq<T>)
    ensures |r| == |t| + 1
    ensures multiset(r) == multiset(t) + multiset{x}
  {
    if t == [] || key(t[|t| - 1]) <= key(x) then t + [x]
    else
      assert t == t[..|t| - 1] + [t[|t| - 1]];
      Insert(t[..|t| - 1], x, key) + [t[|t| - 1]]
  }

  /** Inserting adds `x` and nothing else. */
  lemma InsertMembers<T>(t: seq<T>, x: T, key: T -> real)
    ensures forall i :: 0 <= i < |t| + 1 ==> Insert(t, x, key)[i] == x || Insert(t, x, key)[i] in t
  {
    var r := Insert(t, x, key);
    forall i | 0 <= i < |r| ensures r[i] == x || r[i] in t {
      assert r[i] in multiset(r);
    }
  }

  /** A sorted sequence stays sorted when an element no smaller than all of it is appended. */
  lemma SortedAppend<T>(s: seq<T>, y: T, key: T -> real)
    requires SortedBy(s, key)
    requires forall i :: 0 <= i < |s| ==> key(s[i]) <= key(y)
    ensures SortedBy(s + [y], key)
  {
  }

  lemma {:induction false} InsertSorted<T>(t: seq<T>, x: T, key: T -> real)
    requires SortedBy(t, key)
    ensures SortedBy(Insert(t, x, key), key)
  {
    if t != [] && key(t[|t| - 1]) > key(x) {
      var init, last := t[..|t| - 1], t[|t| - 1];
      InsertSorted(init, x, key);
      InsertMembers(init, x, key);
      var rest := Insert(init, x, key);
      forall i | 0 <= i < |rest| ensures key(rest[i]) <= key(last) {
        if rest[i] != x {
          var k :| 0 <= k < |init| && init[k] == rest[i];
          assert t[k] == rest[i];
        }
      }
      SortedAppend(rest, last, key);
    }
  }

  /** The stable sort of `s` by ascending key. */
  function Sort<T>(s: seq<T>, key: T -> real): (r: seq<T>)
    ensures |r| == |s|
    ensures multiset(r) == multiset(s)
    ensures SortedBy(r, key)
  {
    if s == [] then []
    else
      assert s == s[..|s| - 1] + [s[|s| - 1]];
      InsertSorted(Sort(s[..|s| - 1], key), s[|s| - 1], key);
      Insert(Sort(s[..|s| - 1], key), s[|s| - 1], key)
  }

  lemma WithKeyAppend<T>(s: seq<T>, x: T, key: T -> real, v: real)
    ensures WithKey(s + [x], key, v) == WithKey(s, key, v) + (if key(x) == v then [x] else [])
  {
    assert (s + [x])[..|s|] == s;
  }

  /** Inserting into a sorted sequence puts `x` after the elements that share its key. */
  lemma {:induction false} InsertWithKey<T>(t: seq<T>, x: T, key: T -> real, v: real)
    requires SortedBy(t, key)
    ensures WithKey(Insert(t, x, key), key, v) == WithKey(t, key, v) + (if key(x) == v then [x] else [])
  {
    if t == [] || key(t[|t| - 1]) <= key(x) {
      WithKeyAppend(t, x, key, v);
    } else {
      var init, last := t[..|t| - 1], t[|t| - 1];
      assert t == init + [last];
      InsertWithKey(init, x, key, v);
      WithKeyAppend(Insert(init, x, key), last, key, v);
      WithKeyAppend(init, last, key, v);
    }
  }

  /** Stability: among the elements sharing one key, the sort keeps the input order. */
  lemma {:induction false} SortStable<T>(s: seq<T>, key: T -> real, v: real)
    ensures WithKey(Sort(s, key), key, v) == WithKey(s, key, v)
  {
    if s != [] {
      var init, last := s[..|s| - 1], s[|s| - 1];
      assert s == init + [last];
      SortStable(init, key, v);
      InsertWithKey(Sort(init, key), last, key, v);
      WithKeyAppend(init, last, key, v);
    }
  }
}
