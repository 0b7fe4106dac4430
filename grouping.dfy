/** SQL `GROUP BY` and Python's "dict of lists keyed by ...": the groups of a
    sequence under a key function, and the fact that the groups partition it. */
module Grouping {
  import opened Common

  function HasKey<T, K(==)>(key: T -> K, k: K): T -> bool
  {
    x => key(x) == k
  }

  /** The group of `k`: the elements of `s` whose key is `k`, in order. */
  function Pick<T, K(==)>(s: seq<T>, key: T -> K, k: K): (r: seq<T>)
    ensures forall i :: 0 <= i < |r| ==> key(r[i]) == k && r[i] in s
    ensures forall i :: 0 <= i < |s| && key(s[i]) == k ==> s[i] in r
  {
    Filter(s, HasKey(key, k))
  }

  lemma PickSnoc<T, K>(s: seq<T>, x: T, key: T -> K, k: K)
    ensures Pick(s + [x], key, k) == Pick(s, key, k) + (if key(x) == k then [x] else [])
  {
    FilterSnoc(s, x, HasKey(key, k));
  }

  /** The distinct keys of `s`, in order of first appearance. */
  function KeysOf<T, K(==)>(s: seq<T>, key: T -> K): (ks: seq<K>)
    ensures Distinct(ks)
    ensures forall i :: 0 <= i < |s| ==> key(s[i]) in ks
    ensures forall j :: 0 <= j < |ks| ==> exists i :: 0 <= i < |s| && key(s[i]) == ks[j]
  {
    if s == [] then []
    else
      var init := s[..|s| - 1];
      var k := key(s[|s| - 1]);
      var ks := KeysOf(init, key);
      assert forall i :: 0 <= i < |init| ==> init[i] == s[i];
      if k in ks then ks else ks + [k]
  }

  /** The keys occurring in `s`, as a set. */
  function KeySet<T, K(==)>(s: seq<T>, key: T -> K): set<K>
  {
    set i | 0 <= i < |s| :: key(s[i])
  }

  /** Listing the keys in order of first appearance counts each distinct
      key once, as `COUNT(DISTINCT ...)` does. */
  lemma KeysOfCount<T, K>(s: seq<T>, key: T -> K)
    ensures |KeysOf(s, key)| == |KeySet(s, key)|
  {
    var ks := KeysOf(s, key);
    forall k | k in KeySet(s, key) ensures k in ks {
      var i :| 0 <= i < |s| && key(s[i]) == k;
    }
    forall k | k in ks ensures k in KeySet(s, key) {
      var j :| 0 <= j < |ks| && ks[j] == k;
      var i :| 0 <= i < |s| && key(s[i]) == ks[j];
    }
    assert (set x | x in ks) == KeySet(s, key);
    DistinctCard(ks);
  }

  lemma KeysOfSnoc<T, K>(s: seq<T>, x: T, key: T -> K)
    ensures KeysOf(s + [x], key)
      == if key(x) in KeysOf(s, key) then KeysOf(s, key) else KeysOf(s, key) + [key(x)]
  {
    assert (s + [x])[..|s + [x]| - 1] == s;
  }

  /** The total size of the groups named by `ks`. */
  function GroupSizes<T, K(==)>(s: seq<T>, key: T -> K, ks: seq<K>): nat
  {
    if ks == [] then 0
    else GroupSizes(s, key, ks[..|ks| - 1]) + |Pick(s, key, ks[|ks| - 1])|
  }

  /** The total of `f` over the groups named by `ks`. */
  function GroupSums<T, K(==)>(s: seq<T>, key: T -> K, ks: seq<K>, f: T -> real): real
  {
    if ks == [] then 0.0
    else GroupSums(s, key, ks[..|ks| - 1], f) + Sum(Pick(s, key, ks[|ks| - 1]), f)
  }

  lemma {:induction false} GroupSizesSnoc<T, K>(s: seq<T>, x: T, key: T -> K, ks: seq<K>)
    ensures GroupSizes(s + [x], key, ks) == GroupSizes(s, key, ks) + Occurrences(ks, key(x))
  {
    if ks != [] {
      GroupSizesSnoc(s, x, key, ks[..|ks| - 1]);
      PickSnoc(s, x, key, ks[|ks| - 1]);
    }
  }

  lemma {:induction false} GroupSumsSnoc<T, K>(s: seq<T>, x: T, key: T -> K, ks: seq<K>, f: T -> real)
    requires Distinct(ks)
    ensures GroupSums(s + [x], key, ks, f) == GroupSums(s, key, ks, f) + (if key(x) in ks then f(x) else 0.0)
  {
    if ks != [] {
      var init, k := ks[..|ks| - 1], ks[|ks| - 1];
      assert ks == init + [k];
      assert Distinct(init);
      GroupSumsSnoc(s, x, key, init, f);
      PickSnoc(s, x, key, k);
      if key(x) == k {
        SumSnoc(Pick(s, key, k), x, f);
        assert key(x) !in init;
      } else {
        assert Pick(s, key, k) + [] == Pick(s, key, k);
      }
    }
  }

  /** Groups over a duplicate-free list of keys covering every element hold
      every element exactly once: their sizes add up to the whole. */
  lemma {:induction false} PartitionSizes<T, K>(s: seq<T>, key: T -> K, ks: seq<K>)
    requires Distinct(ks)
    requires forall i :: 0 <= i < |s| ==> key(s[i]) in ks
    ensures GroupSizes(s, key, ks) == |s|
  {
    if s == [] {
      EmptyGroups(s, key, ks);
    } else {
      var init, x := s[..|s| - 1], s[|s| - 1];
      assert s == init + [x];
      assert forall i :: 0 <= i < |init| ==> init[i] == s[i];
      PartitionSizes(init, key, ks);
      GroupSizesSnoc(init, x, key, ks);
      OccurrencesDistinct(ks, key(x));
    }
  }

  /** ... and the totals of any field over the groups add up to its total. */
  lemma {:induction false} PartitionSums<T, K>(s: seq<T>, key: T -> K, ks: seq<K>, f: T -> real)
    requires Distinct(ks)
    requires forall i :: 0 <= i < |s| ==> key(s[i]) in ks
    ensures GroupSums(s, key, ks, f) == Sum(s, f)
  {
    if s == [] {
      EmptyGroups(s, key, ks);
      EmptySums(s, key, ks, f);
    } else {
      var init, x := s[..|s| - 1], s[|s| - 1];
      assert s == init + [x];
      assert forall i :: 0 <= i < |init| ==> init[i] == s[i];
      PartitionSums(init, key, ks, f);
      GroupSumsSnoc(init, x, key, ks, f);
    }
  }

  lemma {:induction false} EmptyGroups<T, K>(s: seq<T>, key: T -> K, ks: seq<K>)
    requires s == []
    ensures GroupSizes(s, key, ks) == 0
  {
    if ks != [] {
      EmptyGroups(s, key, ks[..|ks| - 1]);
    }
  }

  lemma {:induction false} EmptySums<T, K>(s: seq<T>, key: T -> K, ks: seq<K>, f: T -> real)
    requires s == []
    ensures GroupSums(s, key, ks, f) == 0.0
  {
    if ks != [] {
      EmptySums(s, key, ks[..|ks| - 1], f);
    }
  }
}
