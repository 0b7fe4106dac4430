/** Python's `statistics.median` on a non-empty list of numbers: the middle
    element of the sorted list, or the mean of the two middle elements when
    the length is even. */
module Statistics {
  import opened Sorting

  function Median(s: seq<real>): real
    requires s != []
  {
    var t := SortBy(s, Identity);
    var n := |t|;
    if n % 2 == 1 then t[n / 2] else (t[n / 2 - 1] + t[n / 2]) / 2.0
  }

  /** The median of an already ascending list, read straight off its middle. */
  function MiddleOfSorted(s: seq<real>): real
    requires s != []
  {
    var n := |s|;
    if n % 2 == 1 then s[n / 2] else (s[n / 2 - 1] + s[n / 2]) / 2.0
  }

  /** Sorting an ascending list changes nothing. */
  lemma SortSorted(s: seq<real>)
    requires Ascending(s, Identity)
    ensures SortBy(s, Identity) == s
  {
    SortedUnique(SortBy(s, Identity), s);
  }

  lemma MedianOfSorted(s: seq<real>)
    requires s != [] && Ascending(s, Identity)
    ensures Median(s) == MiddleOfSorted(s)
  {
    SortSorted(s);
  }

  /** The median depends only on the values, not on their order. */
  lemma MedianPermutation(a: seq<real>, b: seq<real>)
    requires a != [] && multiset(a) == multiset(b)
    ensures b != [] && Median(a) == Median(b)
  {
    assert |b| == |multiset(b)| == |a|;
    SortedUnique(SortBy(a, Identity), SortBy(b, Identity));
  }

  lemma AscendingEnds(t: seq<real>, k: int)
    requires Ascending(t, Identity) && 0 <= k < |t|
    ensures t[0] <= t[k] <= t[|t| - 1]
  {
    if 0 < k {
      assert Identity(t[0]) <= Identity(t[k]);
    }
    if k < |t| - 1 {
      assert Identity(t[k]) <= Identity(t[|t| - 1]);
    }
  }

  /** The median lies between the least and the greatest value. */
  lemma MedianBounds(s: seq<real>)
    requires s != []
    ensures exists i :: 0 <= i < |s| && s[i] <= Median(s)
    ensures exists j :: 0 <= j < |s| && Median(s) <= s[j]
  {
    var t := SortBy(s, Identity);
    var n := |t|;
    var h := n / 2;
    AscendingEnds(t, h);
    if n % 2 == 0 {
      AscendingEnds(t, h - 1);
    }
    assert t[0] in multiset(s) && t[n - 1] in multiset(s) by {
      assert t[0] in multiset(t) && t[n - 1] in multiset(t);
    }
    assert t[0] in s && t[n - 1] in s;
  }

  /** A single value is its own median. */
  lemma MedianSingleton(x: real)
    ensures Median([x]) == x
  {
  }
}
