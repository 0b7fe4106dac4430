/** `GET /api/slippage`: the APT/USDC transactions of the last hour, week or
    month, grouped into fixed-width time bins, one median slippage per bin. */
module Slippage {
  import opened Common
  import opened Time
  import opened Sorting
  import opened Grouping
  import opened Statistics
  import opened AptosTransactions

  const AptCoin: string := "0x1::aptos_coin::AptosCoin"
  const UsdcCoin: string := "0xf22bede237a07e121b56d91a491eb7bcdfd1f5907926a9e58338f964a01b17fa::asset::USDC"

  datatype Range = Hour | Week | Month

  /** The `range` query argument, lower-cased; anything but `hour`, `week`
      or `month` (and no argument at all) means `hour`. */
  function ParseRange(arg: Option<string>): (r: Range)
    ensures r == Week <==> arg.Some? && Lower(arg.value) == "week"
    ensures r == Month <==> arg.Some? && Lower(arg.value) == "month"
    ensures arg.None? ==> r == Hour
  {
    LowerOfLowercase("hour");
    var v := Lower(arg.GetOr("hour"));
    if v == "week" then Week else if v == "month" then Month else Hour
  }

  /** How far back the window reaches, in microseconds. */
  function Window(r: Range): (d: int)
    ensures d > 0
  {
    match r
    case Hour => MicrosPerHour
    case Week => 7 * MicrosPerDay
    case Month => 30 * MicrosPerDay
  }

  /** The bin width in minutes. */
  function BinWidth(r: Range): Width
  {
    match r
    case Hour => 5
    case Week => 5
    case Month => 30
  }

  /** The pair condition: APT against USDC, in either order. */
  predicate IsAptUsdc(t: Txn) {
    (t.coin1 == AptCoin && t.coin2 == UsdcCoin) || (t.coin1 == UsdcCoin && t.coin2 == AptCoin)
  }

  /** The `WHERE` clause: the pair, at or after `start`. */
  function Included(start: int): Txn -> bool
  {
    (t: Txn) => IsAptUsdc(t) && Ticks(t.timestamp) >= start
  }

  function TxnTicks(t: Txn): real {
    Ticks(t.timestamp) as real
  }

  /** The query, ordered by ascending timestamp. */
  function Query(txns: seq<Txn>, start: int): (q: seq<Txn>)
    ensures Ascending(q, TxnTicks)
    ensures multiset(q) == multiset(Filter(txns, Included(start)))
    ensures forall i :: 0 <= i < |q| ==> q[i] in txns && IsAptUsdc(q[i]) && Ticks(q[i].timestamp) >= start
    ensures forall i :: 0 <= i < |txns| && IsAptUsdc(txns[i]) && Ticks(txns[i].timestamp) >= start ==> txns[i] in q
  {
    var f := Filter(txns, Included(start));
    var q := SortBy(f, TxnTicks);
    forall i | 0 <= i < |q| ensures q[i] in f {
      SortByMembers(f, TxnTicks, q[i]);
    }
    forall x | x in f ensures x in q {
      SortByMembers(f, TxnTicks, x);
    }
    assert forall i :: 0 <= i < |txns| && Included(start)(txns[i]) ==> txns[i] in f;
    q
  }

  /** The start of the bin of a transaction. */
  function BinKey(w: Width): Txn -> DateTime
  {
    (t: Txn) => BucketKey(t.timestamp, w)
  }

  type Bins = map<DateTime, seq<Option<real>>>

  /** The slippages of a sequence of transactions, nulls included. */
  function Slippages(s: seq<Txn>): (r: seq<Option<real>>)
    ensures |r| == |s| && forall i :: 0 <= i < |s| ==> r[i] == s[i].slippage
  {
    seq(|s|, i requires 0 <= i < |s| => s[i].slippage)
  }

  /** What the binning loop builds from transactions in order: each bin
      start maps to the slippages of its transactions, in order. */
  function BinsOf(s: seq<Txn>, w: Width): Bins
  {
    if s == [] then map[]
    else
      var m := BinsOf(s[..|s| - 1], w);
      var t := s[|s| - 1];
      var k := BucketKey(t.timestamp, w);
      var m' := if k in m then m else m[k := []];
      m'[k := m'[k] + [t.slippage]]
  }

  /** The transactions of one bin, as `Pick` defines them. */
  function BinSlippages(s: seq<Txn>, w: Width, k: DateTime): seq<Option<real>>
  {
    Slippages(Pick(s, BinKey(w), k))
  }

  /** The bins are exactly the bin starts of the transactions, which the
      dict remembers in order of first insertion. */
  lemma {:induction false} BinsOfKeys(s: seq<Txn>, w: Width)
    ensures forall k :: k in BinsOf(s, w) <==> k in KeysOf(s, BinKey(w))
  {
    if s != [] {
      var init, t := s[..|s| - 1], s[|s| - 1];
      assert s == init + [t];
      BinsOfKeys(init, w);
      KeysOfSnoc(init, t, BinKey(w));
    }
  }

  /** ... and each bin holds its transactions' slippages, in order. */
  lemma {:induction false} BinsOfSpec(s: seq<Txn>, w: Width)
    ensures forall k :: k in BinsOf(s, w) <==> k in KeysOf(s, BinKey(w))
    ensures forall k :: k in BinsOf(s, w) ==> BinsOf(s, w)[k] == BinSlippages(s, w, k)
  {
    BinsOfKeys(s, w);
    if s != [] {
      var init, t := s[..|s| - 1], s[|s| - 1];
      assert s == init + [t];
      BinsOfSpec(init, w);
      var m := BinsOf(init, w);
      var k := BucketKey(t.timestamp, w);
      forall k' | k' in BinsOf(s, w) ensures BinsOf(s, w)[k'] == BinSlippages(s, w, k') {
        PickSnoc(init, t, BinKey(w), k');
        if k' == k {
          if k in m {
            assert m[k] == BinSlippages(init, w, k);
          } else {
            assert k !in KeysOf(init, BinKey(w));
            EmptyPick(init, BinKey(w), k);
          }
          SlippagesSnoc(Pick(init, BinKey(w), k), t);
        } else {
          assert Pick(s, BinKey(w), k') == Pick(init, BinKey(w), k') + [];
        }
      }
    }
  }

  lemma EmptyPick(s: seq<Txn>, key: Txn -> DateTime, k: DateTime)
    requires k !in KeysOf(s, key)
    ensures Pick(s, key, k) == []
  {
  }

  lemma BinsOfSnoc(s: seq<Txn>, t: Txn, w: Width)
    ensures var m := BinsOf(s, w); var k := BucketKey(t.timestamp, w);
      var m' := if k in m then m else m[k := []];
      BinsOf(s + [t], w) == m'[k := m'[k] + [t.slippage]]
  {
    assert (s + [t])[..|s + [t]| - 1] == s;
  }

  lemma SlippagesSnoc(s: seq<Txn>, t: Txn)
    ensures Slippages(s + [t]) == Slippages(s) + [t.slippage]
  {
    assert forall i :: 0 <= i < |s| ==> (s + [t])[i] == s[i];
  }

  /** Every bin holds at least one transaction. */
  lemma BinsNonEmpty(s: seq<Txn>, w: Width, k: DateTime)
    requires k in BinsOf(s, w)
    ensures BinsOf(s, w)[k] != []
  {
    BinsOfSpec(s, w);
    var ks := KeysOf(s, BinKey(w));
    var j :| 0 <= j < |ks| && ks[j] == k;
    var i :| 0 <= i < |s| && BinKey(w)(s[i]) == ks[j];
    assert s[i] in Pick(s, BinKey(w), k);
  }

  /** Every transaction lands in exactly one bin: the bin sizes add up to the
      number of transactions. */
  lemma BinSizesTotal(s: seq<Txn>, w: Width)
    ensures GroupSizes(s, BinKey(w), KeysOf(s, BinKey(w))) == |s|
  {
    PartitionSizes(s, BinKey(w), KeysOf(s, BinKey(w)));
  }

  /** One turn of the binning loop: create the bin if it is new, then
      append the slippage. */
  lemma FillStep(prefix: seq<Txn>, txn: Txn, w: Width, bins: Bins, order: seq<DateTime>)
    requires bins == BinsOf(prefix, w) && order == KeysOf(prefix, BinKey(w))
    ensures var k := BucketKey(txn.timestamp, w);
      var bins' := if k in bins then bins else bins[k := []];
      var order' := if k in bins then order else order + [k];
      bins'[k := bins'[k] + [txn.slippage]] == BinsOf(prefix + [txn], w)
      && order' == KeysOf(prefix + [txn], BinKey(w))
  {
    BinsOfSnoc(prefix, txn, w);
    BinsOfKeys(prefix, w);
    KeysOfSnoc(prefix, txn, BinKey(w));
  }

  /** The binning loop over the query result. */
  method FillBins(transactions: seq<Txn>, w: Width) returns (bins: Bins, order: seq<DateTime>)
    ensures bins == BinsOf(transactions, w)
    ensures order == KeysOf(transactions, BinKey(w))
    ensures forall k :: k in bins <==> k in order
  {
    bins := map[];
    order := [];
    var i := 0;
    while i < |transactions|
      invariant 0 <= i <= |transactions|
      invariant bins == BinsOf(transactions[..i], w)
      invariant order == KeysOf(transactions[..i], BinKey(w))
    {
      var txn := transactions[i];
      var binStart := BucketKey(txn.timestamp, w);
      FillStep(transactions[..i], txn, w, bins, order);
      if binStart !in bins {
        bins := bins[binStart := []];
        order := order + [binStart];
      }
      bins := bins[binStart := bins[binStart] + [txn.slippage]];
      TakeSnoc(transactions, i);
      i := i + 1;
    }
    TakeAll(transactions);
    BinsOfKeys(transactions, w);
  }

  predicate AllPresent(vs: seq<Option<real>>) {
    forall i :: 0 <= i < |vs| ==> vs[i].Some?
  }

  function Unwrap(vs: seq<Option<real>>): (r: seq<real>)
    ensures |r| == |vs| && forall i :: 0 <= i < |vs| && vs[i].Some? ==> r[i] == vs[i].value
  {
    seq(|vs|, i requires 0 <= i < |vs| => vs[i].GetOr(0.0))
  }

  /** `float(median(values))`, or nothing when it raises: on an empty list,
      and on any null (which `sorted` cannot compare, and `float` cannot
      convert). */
  function MedianOf(vs: seq<Option<real>>): (r: Option<real>)
    ensures r.Some? <==> vs != [] && AllPresent(vs)
  {
    if vs != [] && AllPresent(vs) then Some(Median(Unwrap(vs))) else None
  }

  /** One element of `data`. */
  datatype Point = Point(timestamp: DateTime, slippage: real)

  /** Whether every median of the comprehension is defined: if not, the
      comprehension raises and the route answers 500. */
  predicate SeriesDefined(bins: Bins, keys: seq<DateTime>)
    requires forall j :: 0 <= j < |keys| ==> keys[j] in bins
  {
    forall j :: 0 <= j < |keys| ==> MedianOf(bins[keys[j]]).Some?
  }

  /** The comprehension over the sorted bin starts: one point per key, in
      the keys' order, so its timestamps are exactly the keys and strictly
      increase when the keys do; each value is its bin's median. */
  function Series(bins: Bins, keys: seq<DateTime>): (r: seq<Point>)
    requires forall j :: 0 <= j < |keys| ==> keys[j] in bins
    requires SeriesDefined(bins, keys)
    ensures |r| == |keys|
    ensures forall j :: 0 <= j < |keys| ==>
      r[j].timestamp == keys[j] && MedianOf(bins[keys[j]]) == Some(r[j].slippage)
    ensures forall k :: k in Stamps(r) <==> k in keys
    ensures (forall i, j :: 0 <= i < j < |keys| ==> Ticks(keys[i]) < Ticks(keys[j])) ==>
      forall a, b :: 0 <= a < b < |r| ==> Ticks(r[a].timestamp) < Ticks(r[b].timestamp)
  {
    var r := seq(|keys|, j requires 0 <= j < |keys| => Point(keys[j], MedianOf(bins[keys[j]]).value));
    assert forall k :: k in Stamps(r) <==> k in keys by {
      forall k | k in keys ensures k in Stamps(r) {
        var j :| 0 <= j < |keys| && keys[j] == k;
        assert r[j].timestamp == k;
      }
    }
    r
  }

  function KeyTicks(k: DateTime): real {
    Ticks(k) as real
  }

  /** `sorted(bins.keys())`. */
  function SortedKeys(order: seq<DateTime>): seq<DateTime>
  {
    SortBy(order, KeyTicks)
  }

  /** Sorting distinct bin starts leaves them strictly increasing. */
  lemma SortedKeysStrict(order: seq<DateTime>)
    requires Distinct(order)
    ensures forall i, j :: 0 <= i < j < |SortedKeys(order)| ==>
      Ticks(SortedKeys(order)[i]) < Ticks(SortedKeys(order)[j])
  {
    var ks := SortedKeys(order);
    DistinctPermutation(order, ks);
    forall i, j | 0 <= i < j < |ks| ensures Ticks(ks[i]) < Ticks(ks[j]) {
      assert KeyTicks(ks[i]) <= KeyTicks(ks[j]);
      if Ticks(ks[i]) == Ticks(ks[j]) {
        TicksInjective(ks[i], ks[j]);
      }
    }
  }

  /** Every sorted bin start names a bin. */
  lemma SortedKeysInBins(q: seq<Txn>, w: Width)
    ensures forall j :: 0 <= j < |SortedKeys(KeysOf(q, BinKey(w)))| ==>
      SortedKeys(KeysOf(q, BinKey(w)))[j] in BinsOf(q, w)
  {
    var order := KeysOf(q, BinKey(w));
    BinsOfSpec(q, w);
    forall j | 0 <= j < |SortedKeys(order)| ensures SortedKeys(order)[j] in BinsOf(q, w) {
      SortByMembers(order, KeyTicks, SortedKeys(order)[j]);
    }
  }

  /** The `data` the route answers with, for an ordered query result, or
      nothing when a median raises. */
  function SeriesOf(q: seq<Txn>, w: Width): Option<seq<Point>>
  {
    var bins, keys := BinsOf(q, w), SortedKeys(KeysOf(q, BinKey(w)));
    SortedKeysInBins(q, w);
    if SeriesDefined(bins, keys) then Some(Series(bins, keys)) else None
  }

  /** With no null slippage among the transactions, every bin has a median. */
  lemma PresentBin(q: seq<Txn>, w: Width, k: DateTime)
    requires forall i :: 0 <= i < |q| ==> q[i].slippage.Some?
    requires k in BinsOf(q, w)
    ensures MedianOf(BinsOf(q, w)[k]).Some?
  {
    var p := Pick(q, BinKey(w), k);
    assert BinsOf(q, w)[k] == Slippages(p) && p != [] by {
      BinsOfSpec(q, w);
      BinsNonEmpty(q, w, k);
    }
    assert AllPresent(Slippages(p)) by {
      forall m | 0 <= m < |p| ensures p[m].slippage.Some? {
        var i :| 0 <= i < |q| && q[i] == p[m];
      }
    }
  }

  /** A null slippage leaves its bin without a median. */
  lemma NullBin(q: seq<Txn>, w: Width, i: nat)
    requires i < |q| && q[i].slippage.None?
    ensures BucketKey(q[i].timestamp, w) in BinsOf(q, w)
    ensures MedianOf(BinsOf(q, w)[BucketKey(q[i].timestamp, w)]).None?
  {
    var k := BucketKey(q[i].timestamp, w);
    BinsOfSpec(q, w);
    assert BinKey(w)(q[i]) == k;
    var p := Pick(q, BinKey(w), k);
    assert q[i] in p;
    var m :| 0 <= m < |p| && p[m] == q[i];
    assert BinsOf(q, w)[k][m].None?;
  }

  /** The starts of the bins the transactions fall into. */
  function BinStarts(q: seq<Txn>, w: Width): set<DateTime>
  {
    set i | 0 <= i < |q| :: BucketKey(q[i].timestamp, w)
  }

  /** The timestamps of a series. */
  function Stamps(d: seq<Point>): set<DateTime>
  {
    set j | 0 <= j < |d| :: d[j].timestamp
  }

  /** The sorted bin starts are exactly the bin starts of the transactions. */
  lemma SortedKeysCover(q: seq<Txn>, w: Width)
    ensures forall k :: k in SortedKeys(KeysOf(q, BinKey(w))) <==> k in BinStarts(q, w)
  {
    var order := KeysOf(q, BinKey(w));
    var keys := SortedKeys(order);
    forall k ensures k in keys <==> k in BinStarts(q, w) {
      SortByMembers(order, KeyTicks, k);
      if k in BinStarts(q, w) {
        var i :| 0 <= i < |q| && BucketKey(q[i].timestamp, w) == k;
        assert BinKey(w)(q[i]) in order;
      }
      if k in order {
        var j :| 0 <= j < |order| && order[j] == k;
        var i :| 0 <= i < |q| && BinKey(w)(q[i]) == order[j];
      }
    }
  }

  /** The route answers 200 exactly when no selected transaction has a null
      slippage. */
  lemma SeriesDefinedIff(q: seq<Txn>, w: Width)
    ensures SeriesOf(q, w).Some? <==> forall i :: 0 <= i < |q| ==> q[i].slippage.Some?
  {
    var bins, keys := BinsOf(q, w), SortedKeys(KeysOf(q, BinKey(w)));
    SortedKeysInBins(q, w);
    if forall i :: 0 <= i < |q| ==> q[i].slippage.Some? {
      forall j | 0 <= j < |keys| ensures MedianOf(bins[keys[j]]).Some? {
        PresentBin(q, w, keys[j]);
      }
    } else {
      var i :| 0 <= i < |q| && q[i].slippage.None?;
      NullBin(q, w, i);
      SortedKeysCover(q, w);
      assert BucketKey(q[i].timestamp, w) in BinStarts(q, w);
      var j :| 0 <= j < |keys| && keys[j] == BucketKey(q[i].timestamp, w);
      assert MedianOf(bins[keys[j]]).None?;
    }
  }

  /** The points are in strictly increasing time order, and their timestamps
      are exactly the bin starts of the selected transactions. */
  lemma SeriesTimestamps(q: seq<Txn>, w: Width, d: seq<Point>)
    requires SeriesOf(q, w) == Some(d)
    ensures forall a, b :: 0 <= a < b < |d| ==> Ticks(d[a].timestamp) < Ticks(d[b].timestamp)
    ensures Stamps(d) == BinStarts(q, w)
  {
    var keys := SortedKeys(KeysOf(q, BinKey(w)));
    SortedKeysStrict(KeysOf(q, BinKey(w)));
    SortedKeysCover(q, w);
  }

  /** Each point carries the median of the slippages of its bin's
      transactions. */
  lemma SeriesValues(q: seq<Txn>, w: Width, d: seq<Point>)
    requires SeriesOf(q, w) == Some(d)
    ensures forall j :: 0 <= j < |d| ==> MedianOf(BinSlippages(q, w, d[j].timestamp)) == Some(d[j].slippage)
  {
    BinsOfSpec(q, w);
    SortedKeysInBins(q, w);
  }

  /** Each point's slippage lies between the least and the greatest slippage
      of the transactions in its bin. */
  lemma SeriesBounds(q: seq<Txn>, w: Width, d: seq<Point>, j: nat)
    requires SeriesOf(q, w) == Some(d) && j < |d|
    ensures exists i :: (0 <= i < |q| && BucketKey(q[i].timestamp, w) == d[j].timestamp
      && q[i].slippage.Some? && q[i].slippage.value <= d[j].slippage)
    ensures exists i :: (0 <= i < |q| && BucketKey(q[i].timestamp, w) == d[j].timestamp
      && q[i].slippage.Some? && d[j].slippage <= q[i].slippage.value)
  {
    var pt := d[j];
    SeriesValues(q, w, d);
    SeriesDefinedIff(q, w);
    var p := Pick(q, BinKey(w), pt.timestamp);
    var vs := BinSlippages(q, w, pt.timestamp);
    assert MedianOf(vs) == Some(pt.slippage);
    var xs := Unwrap(vs);
    assert pt.slippage == Median(xs);
    MedianBounds(xs);
    var a :| 0 <= a < |xs| && xs[a] <= Median(xs);
    var b :| 0 <= b < |xs| && Median(xs) <= xs[b];
    var ia :| 0 <= ia < |q| && q[ia] == p[a];
    var ib :| 0 <= ib < |q| && q[ib] == p[b];
    assert xs[a] == q[ia].slippage.value;
    assert xs[b] == q[ib].slippage.value;
  }

  /** The facts the route needs about the bins the loop built. */
  lemma BinnedFacts(q: seq<Txn>, w: Width, bins: Bins, keys: seq<DateTime>)
    requires bins == BinsOf(q, w) && keys == SortedKeys(KeysOf(q, BinKey(w)))
    ensures forall j :: 0 <= j < |keys| ==> keys[j] in bins
    ensures SeriesDefined(bins, keys) <==> forall i :: 0 <= i < |q| ==> q[i].slippage.Some?
    ensures SeriesDefined(bins, keys) ==> var d := Series(bins, keys);
      && (forall a, b :: 0 <= a < b < |d| ==> Ticks(d[a].timestamp) < Ticks(d[b].timestamp))
      && Stamps(d) == BinStarts(q, w)
      && (forall j :: 0 <= j < |d| ==> MedianOf(BinSlippages(q, w, d[j].timestamp)) == Some(d[j].slippage))
  {
    SortedKeysInBins(q, w);
    SeriesDefinedIff(q, w);
    if SeriesDefined(bins, keys) {
      var d := Series(bins, keys);
      assert SeriesOf(q, w) == Some(d);
      SeriesTimestamps(q, w, d);
      SeriesValues(q, w, d);
    }
  }

  /** What the route returns on success. */
  datatype SlippageBody = SlippageBody(pair: string, data: seq<Point>)

  /** The ordered query result for a `range` argument at instant `now`. */
  function Selection(txns: seq<Txn>, rangeArg: Option<string>, now: DateTime): seq<Txn>
  {
    Query(txns, Ticks(now) - Window(ParseRange(rangeArg)))
  }

  /** `get_slippage`, with the clock reading `now` as a parameter. */
  method GetSlippage(txns: seq<Txn>, rangeArg: Option<string>, now: DateTime)
    returns (resp: Response<SlippageBody>)
    ensures resp.Ok? || resp.ServerError?
    ensures var q := Selection(txns, rangeArg, now);
      resp.Ok? <==> forall i :: 0 <= i < |q| ==> q[i].slippage.Some?
    ensures resp.Ok? ==> resp.body.pair == "apt-usdc"
    ensures resp.Ok? ==> var d := resp.body.data;
      forall a, b :: 0 <= a < b < |d| ==> Ticks(d[a].timestamp) < Ticks(d[b].timestamp)
    ensures resp.Ok? ==>
      Stamps(resp.body.data) == BinStarts(Selection(txns, rangeArg, now), BinWidth(ParseRange(rangeArg)))
    ensures resp.Ok? ==> var d, q, w := resp.body.data, Selection(txns, rangeArg, now), BinWidth(ParseRange(rangeArg));
      forall j :: 0 <= j < |d| ==> MedianOf(BinSlippages(q, w, d[j].timestamp)) == Some(d[j].slippage)
  {
    var binInterval := BinWidth(ParseRange(rangeArg));
    var transactions := Selection(txns, rangeArg, now);
    var bins, order := FillBins(transactions, binInterval);
    var keys := SortedKeys(order);
    BinnedFacts(transactions, binInterval, bins, keys);
    if !SeriesDefined(bins, keys) {
      return ServerError;
    }
    resp := Ok(SlippageBody("apt-usdc", Series(bins, keys)));
  }
}
