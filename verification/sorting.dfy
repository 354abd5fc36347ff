/** A stable insertion sort on one key, ascending or descending: the shape
    of every single-field sort the system performs (`Array.prototype.sort`
    with a numeric comparator, and a store's `sort({field: ±1})`). */
module Sorting {

  /** A sort key: a number, or a missing value (which orders first). */
  datatype SortKey = Missing | Value(v: real)

  predicate KeyLe(a: SortKey, b: SortKey) {
    a.Missing? || (b.Value? && a.v <= b.v)
  }

  /** `a` may precede `b` in the requested direction. */
  predicate InOrder(a: SortKey, b: SortKey, ascending: bool) {
    if ascending then KeyLe(a, b) else KeyLe(b, a)
  }

  ghost predicate SortedBy<T>(s: seq<T>, key: T -> SortKey, ascending: bool) {
    forall i, j :: 0 <= i < j < |s| ==> InOrder(key(s[i]), key(s[j]), ascending)
  }

  /** Inserts `x` after every element that may precede it. */
  function Insert<T(==)>(x: T, s: seq<T>, key: T -> SortKey, ascending: bool): (r: seq<T>)
    requires SortedBy(s, key, ascending)
    ensures multiset(r) == multiset(s) + multiset{x}
    ensures SortedBy(r, key, ascending)
  {
    if |s| == 0 then [x]
    else if !InOrder(key(s[0]), key(x), ascending) then
      assert forall k :: 0 <= k < |s| ==> InOrder(key(s[0]), key(s[k]), ascending);
      PrependSorted(x, s, key, ascending);
      [x] + s
    else
      var tail := Insert(x, s[1..], key, ascending);
      assert s == [s[0]] + s[1..];
      forall k | 0 <= k < |tail| ensures InOrder(key(s[0]), key(tail[k]), ascending) {
        assert tail[k] in multiset(tail);
        if tail[k] != x {
          assert tail[k] in s[1..];
        }
      }
      PrependSorted(s[0], tail, key, ascending);
      [s[0]] + tail
  }

  /** An element that may precede every element of a sorted sequence may
      be put in front of it. */
  lemma PrependSorted<T>(y: T, t: seq<T>, key: T -> SortKey, ascending: bool)
    requires SortedBy(t, key, ascending)
    requires forall k :: 0 <= k < |t| ==> InOrder(key(y), key(t[k]), ascending)
    ensures SortedBy([y] + t, key, ascending)
  {
    var r := [y] + t;
    forall i, j | 0 <= i < j < |r| ensures InOrder(key(r[i]), key(r[j]), ascending) {
      if i == 0 {
        assert r[j] == t[j - 1];
      } else {
        assert r[i] == t[i - 1] && r[j] == t[j - 1];
      }
    }
  }

  /** The input, rearranged so that keys run in the requested direction. */
  function SortBy<T(==)>(s: seq<T>, key: T -> SortKey, ascending: bool): (r: seq<T>)
    ensures multiset(r) == multiset(s)
    ensures |r| == |s|
    ensures SortedBy(r, key, ascending)
  {
    if |s| == 0 then []
    else
      assert s == s[..|s| - 1] + [s[|s| - 1]];
      var r := Insert(s[|s| - 1], SortBy(s[..|s| - 1], key, ascending), key, ascending);
      assert |r| == |multiset(r)|;
      r
  }

  /** The first `m` elements of a sorted arrangement `s` of `t` are
      elements of `t`, still sorted, and each may precede every element of
      `t` they leave out: `sort(...).limit(m)`. */
  lemma SortedPrefix<T>(t: seq<T>, s: seq<T>, m: nat, key: T -> SortKey, ascending: bool)
    requires multiset(s) == multiset(t) && SortedBy(s, key, ascending) && m <= |s|
    ensures forall i :: 0 <= i < m ==> s[..m][i] in t
    ensures SortedBy(s[..m], key, ascending)
    ensures forall x :: x in t && x !in s[..m] ==> forall i :: 0 <= i < m ==> InOrder(key(s[..m][i]), key(x), ascending)
  {
    forall i | 0 <= i < m ensures s[..m][i] in t {
      assert s[i] in multiset(s);
    }
    forall x | x in t && x !in s[..m]
      ensures forall i :: 0 <= i < m ==> InOrder(key(s[..m][i]), key(x), ascending)
    {
      assert x in multiset(s);
      var j :| 0 <= j < |s| && s[j] == x;
      assert j >= m;
      forall i | 0 <= i < m ensures InOrder(key(s[..m][i]), key(x), ascending) {
        assert InOrder(key(s[i]), key(s[j]), ascending);
      }
    }
  }

  /** The sort is stable: when no element has a key, nothing moves. */
  lemma {:induction false} SortByAllMissing<T>(s: seq<T>, key: T -> SortKey, ascending: bool)
    requires forall i :: 0 <= i < |s| ==> key(s[i]).Missing?
    ensures SortBy(s, key, ascending) == s
  {
    if |s| > 0 {
      var p := s[..|s| - 1];
      SortByAllMissing(p, key, ascending);
      InsertAllMissing(s[|s| - 1], p, key, ascending);
      assert s == p + [s[|s| - 1]];
    }
  }

  lemma {:induction false} InsertAllMissing<T>(x: T, s: seq<T>, key: T -> SortKey, ascending: bool)
    requires key(x).Missing? && forall i :: 0 <= i < |s| ==> key(s[i]).Missing?
    requires SortedBy(s, key, ascending)
    ensures Insert(x, s, key, ascending) == s + [x]
  {
    if |s| > 0 {
      InsertAllMissing(x, s[1..], key, ascending);
      assert s == [s[0]] + s[1..];
    }
  }
}
