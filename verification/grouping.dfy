/** Counting by key and keeping the largest groups: the shape of the
    "top makes" statistics (an object used as a counter, or a
    `$group`/`$sum` stage, then a sort by count and a limit). Groups are
    kept in order of first appearance. */
module Grouping {
  import opened Sorting

  /** One key and how many times it occurred. */
  datatype Group<K> = Group(key: K, count: nat)

  /** How many times `k` occurs in `ks`. */
  function Occurrences<K(==)>(ks: seq<K>, k: K): (n: nat)
    ensures n <= |ks|
  {
    if |ks| == 0 then 0
    else Occurrences(ks[..|ks| - 1], k) + (if ks[|ks| - 1] == k then 1 else 0)
  }

  /** The count recorded for `k`, or 0 when it has no group. */
  function CountOf<K(==)>(t: seq<Group<K>>, k: K): nat {
    if |t| == 0 then 0 else if t[0].key == k then t[0].count else CountOf(t[1..], k)
  }

  /** Every key has one group and every group counts something. */
  predicate WellFormed<K(==)>(t: seq<Group<K>>) {
    && (forall i, j :: 0 <= i < j < |t| ==> t[i].key != t[j].key)
    && (forall i :: 0 <= i < |t| ==> t[i].count > 0)
  }

  /** The sum of all counts. */
  function Total<K>(t: seq<Group<K>>): nat {
    if |t| == 0 then 0 else t[0].count + Total(t[1..])
  }

  /** Counts one more occurrence of `k`: its group grows, or a new group
      is added at the end. */
  function Bump<K(==,!new)>(t: seq<Group<K>>, k: K): (r: seq<Group<K>>)
    requires WellFormed(t)
    ensures WellFormed(r)
    ensures forall m :: CountOf(r, m) == CountOf(t, m) + (if m == k then 1 else 0)
    ensures Total(r) == Total(t) + 1
  {
    if |t| == 0 then [Group(k, 1)]
    else if t[0].key == k then
      assert forall m :: m != k ==> CountOf(t, m) == CountOf(t[1..], m);
      [Group(k, t[0].count + 1)] + t[1..]
    else
      var rest := Bump(t[1..], k);
      assert forall i :: 0 <= i < |t| - 1 ==> t[1..][i].key != t[0].key;
      assert CountOf(t[1..], t[0].key) == 0 by { AbsentKey(t[1..], t[0].key); }
      assert CountOf(rest, t[0].key) == 0;
      PresentKeys(rest, t[0].key);
      [t[0]] + rest
  }

  /** A key without a group counts 0. */
  lemma {:induction false} AbsentKey<K>(t: seq<Group<K>>, k: K)
    requires forall i :: 0 <= i < |t| ==> t[i].key != k
    ensures CountOf(t, k) == 0
  {
    if |t| > 0 {
      AbsentKey(t[1..], k);
    }
  }

  /** In a well-formed table a key has a group exactly when it counts
      something. */
  lemma {:induction false} PresentKeys<K>(t: seq<Group<K>>, k: K)
    requires WellFormed(t)
    ensures CountOf(t, k) > 0 <==> exists i :: 0 <= i < |t| && t[i].key == k
  {
    if |t| > 0 {
      PresentKeys(t[1..], k);
      if t[0].key != k && CountOf(t, k) == 0 {
        assert forall i :: 1 <= i < |t| ==> t[i].key == t[1..][i - 1].key;
      }
      if t[0].key != k && CountOf(t, k) > 0 {
        var i :| 0 <= i < |t[1..]| && t[1..][i].key == k;
        assert t[i + 1].key == k;
      }
    }
  }

  /** The counter built by visiting `ks` in order. */
  function Tally<K(==,!new)>(ks: seq<K>): (t: seq<Group<K>>)
    ensures WellFormed(t)
    ensures forall k :: CountOf(t, k) == Occurrences(ks, k)
    ensures Total(t) == |ks|
  {
    if |ks| == 0 then [] else Bump(Tally(ks[..|ks| - 1]), ks[|ks| - 1])
  }

  /** Exactly the keys that occur get a group. */
  lemma TallyKeys<K(!new)>(ks: seq<K>, k: K)
    ensures (exists i :: 0 <= i < |Tally(ks)| && Tally(ks)[i].key == k) <==> k in ks
  {
    PresentKeys(Tally(ks), k);
    assert CountOf(Tally(ks), k) == Occurrences(ks, k);
    OccursIffIn(ks, k);
  }

  lemma {:induction false} OccursIffIn<K>(ks: seq<K>, k: K)
    ensures Occurrences(ks, k) > 0 <==> k in ks
  {
    if |ks| > 0 {
      var p := ks[..|ks| - 1];
      OccursIffIn(p, k);
      assert ks == p + [ks[|ks| - 1]];
    }
  }

  /** In a well-formed table the count recorded for a group's key is that
      group's count. */
  lemma {:induction false} CountAt<K>(t: seq<Group<K>>, j: nat)
    requires WellFormed(t) && j < |t|
    ensures CountOf(t, t[j].key) == t[j].count
  {
    if j > 0 {
      CountAt(t[1..], j - 1);
    }
  }

  /** Every group kept by `Top` of a tally carries the number of times its
      key occurs. */
  lemma TopCounts<K(!new)>(ks: seq<K>, top: seq<Group<K>>, n: nat)
    requires top == Top(Tally(ks), n)
    ensures forall i :: 0 <= i < |top| ==> top[i].count == Occurrences(ks, top[i].key)
  {
    var t := Tally(ks);
    forall i | 0 <= i < |top| ensures top[i].count == Occurrences(ks, top[i].key) {
      var j :| 0 <= j < |t| && t[j] == top[i];
      CountAt(t, j);
    }
  }

  function CountKey<K>(g: Group<K>): SortKey {
    Value(g.count as real)
  }

  /** The `n` largest groups, largest first; groups with equal counts keep
      their order. */
  function Top<K(==)>(t: seq<Group<K>>, n: nat): (r: seq<Group<K>>)
    ensures |r| == if n < |t| then n else |t|
    ensures forall i :: 0 <= i < |r| ==> r[i] in t
    ensures forall i, j :: 0 <= i < j < |r| ==> r[i].count >= r[j].count
    ensures forall g :: g in t && g !in r ==> forall i :: 0 <= i < |r| ==> r[i].count >= g.count
    ensures n >= |t| ==> multiset(r) == multiset(t)
    ensures WellFormed(t) ==> forall i, j :: 0 <= i < j < |r| ==> r[i].key != r[j].key
  {
    var s := SortBy(t, CountKey, false);
    var m := if n < |s| then n else |s|;
    SortedPrefix(t, s, m, CountKey, false);
    assert forall i, j :: 0 <= i < j < m ==> InOrder(CountKey(s[..m][i]), CountKey(s[..m][j]), false);
    assert n >= |t| ==> s[..m] == s;
    PermutedKeysDistinct(t, s);
    s[..m]
  }

  /** In a table whose keys are distinct, each group occurs once. */
  lemma {:induction false} OnceEach<K>(t: seq<Group<K>>, g: Group<K>)
    requires forall i, j :: 0 <= i < j < |t| ==> t[i].key != t[j].key
    ensures multiset(t)[g] <= 1
  {
    if |t| > 0 {
      assert t == [t[0]] + t[1..];
      OnceEach(t[1..], g);
      if t[0] == g {
        assert g !in t[1..];
      }
    }
  }

  /** A rearrangement of a table with distinct keys has distinct keys. */
  lemma PermutedKeysDistinct<K>(t: seq<Group<K>>, s: seq<Group<K>>)
    requires multiset(s) == multiset(t)
    ensures (forall i, j :: 0 <= i < j < |t| ==> t[i].key != t[j].key) ==>
              forall i, j :: 0 <= i < j < |s| ==> s[i].key != s[j].key
  {
    if forall i, j :: 0 <= i < j < |t| ==> t[i].key != t[j].key {
      forall i, j | 0 <= i < j < |s| ensures s[i].key != s[j].key {
        if s[i] == s[j] {
          assert multiset{s[i], s[j]} <= multiset(s) by {
            assert s == s[..i] + [s[i]] + s[i + 1..j] + [s[j]] + s[j + 1..];
          }
          OnceEach(t, s[i]);
        } else {
          assert s[i] in multiset(t) && s[j] in multiset(t);
          var a :| 0 <= a < |t| && t[a] == s[i];
          var b :| 0 <= b < |t| && t[b] == s[j];
        }
      }
    }
  }

  /** `top` holds at most `n` distinct keys of `ks`, most frequent first,
      each with the number of times it occurs; when it holds fewer than `n`
      it holds every key, and no key left out occurs more often than a
      key kept. */
  ghost predicate MostFrequentOf<K>(ks: seq<K>, n: nat, top: seq<Group<K>>) {
    && |top| <= n
    && (forall i :: 0 <= i < |top| ==> top[i].key in ks)
    && (forall i :: 0 <= i < |top| ==> top[i].count == Occurrences(ks, top[i].key))
    && (forall i, j :: 0 <= i < j < |top| ==> top[i].key != top[j].key)
    && (forall i, j :: 0 <= i < j < |top| ==> top[i].count >= top[j].count)
    && (|top| < n ==> forall k :: k in ks ==> exists i :: 0 <= i < |top| && top[i].key == k)
    && (forall k :: k in ks && (forall i :: 0 <= i < |top| ==> top[i].key != k) ==>
          forall i :: 0 <= i < |top| ==> top[i].count >= Occurrences(ks, k))
  }

  /** The `n` most frequent keys of `ks`, most frequent first, each with
      the number of times it occurs. */
  function MostFrequent<K(==,!new)>(ks: seq<K>, n: nat): (top: seq<Group<K>>)
    ensures MostFrequentOf(ks, n, top)
  {
    var top := Top(Tally(ks), n);
    TopCounts(ks, top, n);
    TopKeys(ks, top, n);
    top
  }

  /** The keys `Top` keeps from a tally occur; when fewer than `n` are
      kept every key is; a key left out occurs no more often than any
      kept one. */
  lemma TopKeys<K(!new)>(ks: seq<K>, top: seq<Group<K>>, n: nat)
    requires top == Top(Tally(ks), n)
    requires forall i :: 0 <= i < |top| ==> top[i].count == Occurrences(ks, top[i].key)
    ensures forall i :: 0 <= i < |top| ==> top[i].key in ks
    ensures |top| < n ==> forall k :: k in ks ==> exists i :: 0 <= i < |top| && top[i].key == k
    ensures forall k :: k in ks && (forall i :: 0 <= i < |top| ==> top[i].key != k) ==>
              forall i :: 0 <= i < |top| ==> top[i].count >= Occurrences(ks, k)
  {
    forall i | 0 <= i < |top| ensures top[i].key in ks {
      OccursIffIn(ks, top[i].key);
    }
    forall k | k in ks ensures TopKeyFacts(ks, top, n, k) {
      TopKey(ks, top, n, k);
    }
  }

  ghost predicate TopKeyFacts<K(!new)>(ks: seq<K>, top: seq<Group<K>>, n: nat, k: K) {
    && (|top| < n ==> exists i :: 0 <= i < |top| && top[i].key == k)
    && ((forall i :: 0 <= i < |top| ==> top[i].key != k) ==>
          forall i :: 0 <= i < |top| ==> top[i].count >= Occurrences(ks, k))
  }

  lemma TopKey<K(!new)>(ks: seq<K>, top: seq<Group<K>>, n: nat, k: K)
    requires top == Top(Tally(ks), n)
    requires k in ks
    ensures TopKeyFacts(ks, top, n, k)
  {
    var t := Tally(ks);
    TallyKeys(ks, k);
    var j :| 0 <= j < |t| && t[j].key == k;
    CountAt(t, j);
    if |top| < n {
      assert t[j] in multiset(t);
      var i :| 0 <= i < |top| && top[i] == t[j];
    }
    if forall i :: 0 <= i < |top| ==> top[i].key != k {
      assert t[j] !in top;
    }
  }
}
