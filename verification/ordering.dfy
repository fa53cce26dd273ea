/**
 * The comparison sort the engine delegates to (`Array.prototype.sort`, which
 * the language requires to be stable), as a stable insertion sort under a
 * `before` relation: `before(a, b)` holds when the comparator puts `a` ahead
 * of `b` (returns a negative number).
 */
module Ordering {
  import opened Sequences

  /** No element of `s` is placed behind one it should come before. */
  ghost predicate SortedBy<T>(s: seq<T>, before: (T, T) -> bool)
  {
    forall i, j :: 0 <= i < j < |s| ==> !before(s[j], s[i])
  }

  /**
   * On the elements of `all`, `before` is a strict weak order: asymmetric, and
   * "not before" is transitive. A comparator that returns 0 for NaN is not one.
   */
  ghost predicate StrictWeakOn<T>(all: seq<T>, before: (T, T) -> bool)
  {
    && (forall a, b :: a in all && b in all && before(a, b) ==> !before(b, a))
    && (forall a, b, c :: a in all && b in all && c in all && !before(a, b) && !before(b, c) ==> !before(a, c))
  }

  /** Inserts `x` ahead of the first element it does not come after. */
  function Insert<T(==)>(x: T, s: seq<T>, before: (T, T) -> bool): (r: seq<T>)
    ensures |r| == |s| + 1
    ensures multiset(r) == multiset(s) + multiset{x}
  {
    if s == [] || !before(s[0], x) then [x] + s
    else
      assert s == [s[0]] + s[1..];
      [s[0]] + Insert(x, s[1..], before)
  }

  /** `[...s].sort(cmp)`: a sorted copy of `s`; equal elements keep their input order. */
  function SortBy<T(==)>(s: seq<T>, before: (T, T) -> bool): (r: seq<T>)
    ensures |r| == |s|
    ensures multiset(r) == multiset(s)
  {
    if s == [] then []
    else
      assert s == [s[0]] + s[1..];
      Insert(s[0], SortBy(s[1..], before), before)
  }

  lemma {:induction false} InsertSorted<T>(x: T, s: seq<T>, before: (T, T) -> bool, all: seq<T>)
    requires StrictWeakOn(all, before)
    requires x in all && forall y :: y in s ==> y in all
    requires SortedBy(s, before)
    ensures SortedBy(Insert(x, s, before), before)
    decreases |s|
  {
    if s == [] {
    } else if !before(s[0], x) {
      var r := [x] + s;
      forall i, j | 0 <= i < j < |r| ensures !before(r[j], r[i]) {
        if i == 0 && j > 1 {
          assert !before(s[j - 1], s[0]) && s[j - 1] in all && s[0] in all;
        }
      }
    } else {
      var t := Insert(x, s[1..], before);
      assert forall y :: y in s[1..] ==> y in s;
      InsertSorted(x, s[1..], before, all);
      var r := [s[0]] + t;
      assert Insert(x, s, before) == r;
      forall i, j | 0 <= i < j < |r| ensures !before(r[j], r[i]) {
        if i == 0 {
          assert r[j] in multiset(t);
          assert r[j] == x || r[j] in s[1..];
          if r[j] != x {
            var k :| 1 <= k < |s| && s[k] == r[j];
          }
        }
      }
    }
  }

  lemma {:induction false} SortBySortedWithin<T>(s: seq<T>, before: (T, T) -> bool, all: seq<T>)
    requires StrictWeakOn(all, before)
    requires forall y :: y in s ==> y in all
    ensures SortedBy(SortBy(s, before), before)
    decreases |s|
  {
    if s != [] {
      assert forall y :: y in s[1..] ==> y in s;
      SortBySortedWithin(s[1..], before, all);
      var rest := SortBy(s[1..], before);
      assert forall y :: y in rest ==> y in multiset(s[1..]);
      InsertSorted(s[0], rest, before, all);
    }
  }

  /** Under a strict weak order the copy is sorted. */
  lemma SortBySorted<T>(s: seq<T>, before: (T, T) -> bool)
    requires StrictWeakOn(s, before)
    ensures SortedBy(SortBy(s, before), before)
  {
    SortBySortedWithin(s, before, s);
  }

  /** Sorting an already sorted sequence again returns it unchanged. */
  lemma {:induction false} SortByKeepsSorted<T>(s: seq<T>, before: (T, T) -> bool)
    requires StrictWeakOn(s, before) && SortedBy(s, before)
    ensures SortBy(s, before) == s
    decreases |s|
  {
    if s != [] {
      assert forall y :: y in s[1..] ==> y in s;
      assert SortedBy(s[1..], before);
      SortByKeepsSorted(s[1..], before);
      if |s| > 1 {
        assert !before(s[1], s[0]);
      }
      assert [s[0]] + s[1..] == s;
    }
  }

  /** The elements of `s` whose key is `v`, in order. */
  function WithKey<T, K(==)>(s: seq<T>, key: T -> K, v: K): seq<T>
  {
    if s == [] then [] else (if key(s[0]) == v then [s[0]] else []) + WithKey(s[1..], key, v)
  }

  /** Selecting by key looks at the first element, then at the rest. */
  lemma WithKeyCons<T, K>(x: T, t: seq<T>, key: T -> K, v: K)
    ensures WithKey([x] + t, key, v) == (if key(x) == v then [x] else []) + WithKey(t, key, v)
  {
    assert ([x] + t)[0] == x && ([x] + t)[1..] == t;
  }

  lemma {:induction false} WithKeyAppend<T, K>(a: seq<T>, b: seq<T>, key: T -> K, v: K)
    ensures WithKey(a + b, key, v) == WithKey(a, key, v) + WithKey(b, key, v)
    decreases |a|
  {
    if a == [] {
      assert a + b == b;
    } else {
      WithKeyAppend(a[1..], b, key, v);
      WithKeyCons(a[0], a[1..], key, v);
      WithKeyCons(a[0], a[1..] + b, key, v);
      Regroup(if key(a[0]) == v then [a[0]] else [], WithKey(a[1..], key, v), WithKey(b, key, v));
      SplitHead(a, b);
    }
  }

  /**
   * Insertion passes only over elements that come before `x`; when none of
   * those shares its key, `x` lands ahead of every element with its key and
   * the others keep their order.
   */
  lemma {:induction false} InsertKeepsKey<T, K>(x: T, t: seq<T>, before: (T, T) -> bool, key: T -> K, v: K)
    requires forall y :: y in t && key(y) == key(x) ==> !before(y, x)
    ensures WithKey(Insert(x, t, before), key, v) == (if key(x) == v then [x] else []) + WithKey(t, key, v)
    decreases |t|
  {
    var r := Insert(x, t, before);
    if t == [] || !before(t[0], x) {
      assert r == [x] + t;
      assert r[1..] == t;
    } else {
      var r' := Insert(x, t[1..], before);
      assert r == [t[0]] + r';
      assert r[1..] == r';
      assert key(t[0]) != key(x);
      InsertKeepsKey(x, t[1..], before, key, v);
      assert WithKey(r, key, v) == (if key(t[0]) == v then [t[0]] else []) + WithKey(r', key, v);
      assert WithKey(t, key, v) == (if key(t[0]) == v then [t[0]] else []) + WithKey(t[1..], key, v);
    }
  }

  /**
   * The sort is stable: when no element comes before another with the same
   * key, the elements of each key keep their input order.
   */
  lemma {:induction false} SortKeepsKey<T, K>(s: seq<T>, before: (T, T) -> bool, key: T -> K, v: K)
    requires StrictWeakOn(s, before)
    requires forall a, b :: a in s && b in s && key(a) == key(b) ==> !before(a, b)
    ensures WithKey(SortBy(s, before), key, v) == WithKey(s, key, v)
    decreases |s|
  {
    if s != [] {
      assert forall y :: y in s[1..] ==> y in s;
      SortKeepsKey(s[1..], before, key, v);
      var rest := SortBy(s[1..], before);
      forall y | y in rest && key(y) == key(s[0]) ensures !before(y, s[0]) {
        assert y in multiset(s[1..]);
      }
      InsertKeepsKey(s[0], rest, before, key, v);
    }
  }
}
