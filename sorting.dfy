/** Ordering of query results: `ORDER BY key ASC` (and, with a negated key,
    `DESC`), and Python's `sorted`. Both are modelled by one stable insertion
    sort on a real-valued key. */
module Sorting {

  predicate Ascending<T>(s: seq<T>, key: T -> real) {
    forall i, j :: 0 <= i < j < |s| ==> key(s[i]) <= key(s[j])
  }

  function Insert<T>(x: T, s: seq<T>, key: T -> real): (r: seq<T>)
    requires Ascending(s, key)
    ensures Ascending(r, key)
    ensures multiset(r) == multiset(s) + multiset{x}
    ensures |r| == |s| + 1
    ensures r[0] == x || (s != [] && r[0] == s[0])
  {
    if s == [] then [x]
    else if key(x) <= key(s[0]) then [x] + s
    else
      assert s == [s[0]] + s[1..];
      [s[0]] + Insert(x, s[1..], key)
  }

  /** `s` ordered by ascending `key`; equal keys keep their relative order. */
  function SortBy<T>(s: seq<T>, key: T -> real): (r: seq<T>)
    ensures Ascending(r, key)
    ensures multiset(r) == multiset(s)
    ensures |r| == |s|
  {
    if s == [] then []
    else
      assert s == [s[0]] + s[1..];
      Insert(s[0], SortBy(s[1..], key), key)
  }

  /** Sorting keeps exactly the elements it was given. */
  lemma SortByMembers<T>(s: seq<T>, key: T -> real, x: T)
    ensures x in SortBy(s, key) <==> x in s
  {
    var r := SortBy(s, key);
    assert x in r <==> x in multiset(r);
    assert x in s <==> x in multiset(s);
  }

  /** A prefix of an ascending sequence is ascending. */
  lemma PrefixAscending<T>(s: seq<T>, key: T -> real, n: nat)
    requires Ascending(s, key) && n <= |s|
    ensures Ascending(s[..n], key)
  {
    assert forall i :: 0 <= i < n ==> s[..n][i] == s[i];
  }

  /** The head of a sorted sequence has the least key. */
  lemma SortByHead<T>(s: seq<T>, key: T -> real)
    ensures SortBy(s, key) == [] <==> s == []
    ensures s != [] ==> SortBy(s, key)[0] in s
    ensures s != [] ==> forall x :: x in s ==> key(SortBy(s, key)[0]) <= key(x)
  {
    var r := SortBy(s, key);
    if s != [] {
      SortByMembers(s, key, r[0]);
      forall x | x in s ensures key(r[0]) <= key(x) {
        SortByMembers(s, key, x);
        var k :| 0 <= k < |r| && r[k] == x;
        assert k == 0 || key(r[0]) <= key(r[k]);
      }
    }
  }

  /** The first `n` elements of `s` ordered by `key` (`ORDER BY ... LIMIT n`). */
  function FirstBy<T>(s: seq<T>, key: T -> real, n: nat): (r: seq<T>)
    ensures |r| == if n <= |s| then n else |s|
    ensures Ascending(r, key)
    ensures forall k :: 0 <= k < |r| ==> r[k] in s
    ensures multiset(r) <= multiset(s)
  {
    var sorted := SortBy(s, key);
    var r := sorted[..if n <= |sorted| then n else |sorted|];
    PrefixAscending(sorted, key, |r|);
    forall k | 0 <= k < |r| ensures r[k] in s {
      SortByMembers(s, key, r[k]);
    }
    assert sorted == r + sorted[|r|..];
    r
  }

  /** When fewer than `n` elements are kept, all are. */
  lemma FirstByAll<T>(s: seq<T>, key: T -> real, n: nat)
    ensures |FirstBy(s, key, n)| < n ==> multiset(FirstBy(s, key, n)) == multiset(s)
  {
    var sorted := SortBy(s, key);
    var r := FirstBy(s, key, n);
    if |r| < n {
      assert r == sorted;
    }
  }

  /** Nothing left out ranks before the last element kept. */
  lemma FirstByDominates<T>(s: seq<T>, key: T -> real, n: nat)
    ensures var r := FirstBy(s, key, n);
      r != [] ==> forall x :: x in s && key(x) < key(r[|r| - 1]) ==> x in r
  {
    var r := FirstBy(s, key, n);
    if r != [] {
      PrefixDominates(s, key, |r|);
    }
  }

  /** In the sort, an element ranked strictly before position `m - 1` sits
      in the first `m`. */
  lemma PrefixDominates<T>(s: seq<T>, key: T -> real, m: nat)
    requires 0 < m <= |s|
    ensures var sorted := SortBy(s, key);
      forall x :: x in s && key(x) < key(sorted[m - 1]) ==> x in sorted[..m]
  {
    var sorted := SortBy(s, key);
    forall x | x in s && key(x) < key(sorted[m - 1]) ensures x in sorted[..m] {
      SortByMembers(s, key, x);
      var k :| 0 <= k < |sorted| && sorted[k] == x;
      assert key(sorted[k]) < key(sorted[m - 1]);
      assert k < m;
      assert sorted[..m][k] == x;
    }
  }

  function Identity(x: real): real { x }

  lemma AscendingTail<T>(s: seq<T>, key: T -> real)
    requires s != [] && Ascending(s, key)
    ensures Ascending(s[1..], key)
  {
    var t := s[1..];
    forall i, j | 0 <= i < j < |t| ensures key(t[i]) <= key(t[j]) {
      assert t[i] == s[i + 1] && t[j] == s[j + 1];
    }
  }

  /** Two ascending lists of the same values start with the same value. */
  lemma AscendingHeads(a: seq<real>, b: seq<real>)
    requires a != [] && b != []
    requires Ascending(a, Identity) && Ascending(b, Identity)
    requires multiset(a) == multiset(b)
    ensures a[0] == b[0]
  {
    assert b[0] in a by { assert b[0] in multiset(b); }
    assert a[0] in b by { assert a[0] in multiset(a); }
    var i :| 0 <= i < |a| && a[i] == b[0];
    var j :| 0 <= j < |b| && b[j] == a[0];
    assert a[0] <= b[0] by { assert i == 0 || Identity(a[0]) <= Identity(a[i]); }
    assert b[0] <= a[0] by { assert j == 0 || Identity(b[0]) <= Identity(b[j]); }
  }

  lemma MultisetTail<T>(s: seq<T>)
    requires s != []
    ensures multiset(s[1..]) == multiset(s) - multiset{s[0]}
  {
    assert s == [s[0]] + s[1..];
  }

  lemma SameHeadAndTail<T>(a: seq<T>, b: seq<T>)
    requires a != [] && b != [] && a[0] == b[0] && a[1..] == b[1..]
    ensures a == b
  {
    assert a == [a[0]] + a[1..];
    assert b == [b[0]] + b[1..];
  }

  /** Two ascending arrangements of the same multiset of reals are equal. */
  lemma {:induction false} SortedUnique(a: seq<real>, b: seq<real>)
    requires Ascending(a, Identity) && Ascending(b, Identity)
    requires multiset(a) == multiset(b)
    ensures a == b
    decreases |a|
  {
    assert |a| == |multiset(a)| == |b|;
    if a != [] {
      AscendingHeads(a, b);
      AscendingTail(a, Identity);
      AscendingTail(b, Identity);
      MultisetTail(a);
      MultisetTail(b);
      SortedUnique(a[1..], b[1..]);
      SameHeadAndTail(a, b);
    }
  }
}
