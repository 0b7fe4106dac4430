/** The pool routes: one pool's latest snapshot, the latest snapshot of
    every pool, one pool's history over a window, and the top ten pools by a
    metric. Every query selects from the sequence of stored snapshots. */
module Pools {
  import opened Common
  import opened Time
  import opened Sorting
  import opened AptosPool

  /** The greatest timestamp (as an instant) among the rows for `addr`, the
      `func.max(timestamp) ... group_by(pool_address)` subquery. */
  function MaxStamp(rows: seq<Pool>, addr: string): (m: Option<int>)
    ensures m.None? <==> forall i :: 0 <= i < |rows| ==> rows[i].poolAddress != addr
    ensures m.Some? ==> exists i :: 0 <= i < |rows| && rows[i].poolAddress == addr && Ticks(rows[i].timestamp) == m.value
    ensures m.Some? ==> forall i :: 0 <= i < |rows| && rows[i].poolAddress == addr ==> Ticks(rows[i].timestamp) <= m.value
  {
    if rows == [] then None
    else
      var init, last := rows[..|rows| - 1], rows[|rows| - 1];
      assert forall i :: 0 <= i < |init| ==> init[i] == rows[i];
      var m := MaxStamp(init, addr);
      if last.poolAddress != addr then m
      else if m.Some? && m.value >= Ticks(last.timestamp) then m
      else Some(Ticks(last.timestamp))
  }

  /** The join condition: the row's timestamp is its pool's maximum. */
  predicate IsLatest(rows: seq<Pool>, p: Pool) {
    MaxStamp(rows, p.poolAddress) == Some(Ticks(p.timestamp))
  }

  function LatestIn(rows: seq<Pool>): Pool -> bool {
    (p: Pool) => IsLatest(rows, p)
  }

  /** The latest snapshot of every pool: the rows joined with the subquery,
      in store order. */
  function Latest(rows: seq<Pool>): seq<Pool>
  {
    Filter(rows, LatestIn(rows))
  }

  /** A row is at its pool's maximum exactly when no row of the pool is
      newer. */
  lemma IsLatestIff(rows: seq<Pool>, i: nat)
    requires i < |rows|
    ensures IsLatest(rows, rows[i]) <==>
      forall j :: 0 <= j < |rows| && rows[j].poolAddress == rows[i].poolAddress ==>
        Ticks(rows[j].timestamp) <= Ticks(rows[i].timestamp)
  {
    var p := rows[i];
    var m := MaxStamp(rows, p.poolAddress);
    assert m.Some?;
    if forall j :: 0 <= j < |rows| && rows[j].poolAddress == p.poolAddress ==>
        Ticks(rows[j].timestamp) <= Ticks(p.timestamp) {
      var k :| 0 <= k < |rows| && rows[k].poolAddress == p.poolAddress && Ticks(rows[k].timestamp) == m.value;
      assert m.value <= Ticks(p.timestamp);
    }
  }

  /** The latest rows are those the join condition holds for. */
  lemma LatestMember(rows: seq<Pool>, i: nat)
    requires i < |rows|
    ensures rows[i] in Latest(rows) <==> IsLatest(rows, rows[i])
  {
    if rows[i] in Latest(rows) {
      var k :| 0 <= k < |Latest(rows)| && Latest(rows)[k] == rows[i];
      assert LatestIn(rows)(Latest(rows)[k]);
    }
    if IsLatest(rows, rows[i]) {
      assert LatestIn(rows)(rows[i]);
    }
  }

  /** A row is kept exactly when no row of the same pool is newer; so rows
      tied at the maximum are all kept. */
  lemma LatestKeeps(rows: seq<Pool>, i: nat)
    requires i < |rows|
    ensures rows[i] in Latest(rows) <==>
      forall j :: 0 <= j < |rows| && rows[j].poolAddress == rows[i].poolAddress ==>
        Ticks(rows[j].timestamp) <= Ticks(rows[i].timestamp)
  {
    LatestMember(rows, i);
    IsLatestIff(rows, i);
  }

  /** Every pool with at least one row has a latest row. */
  lemma LatestCovers(rows: seq<Pool>, i: nat)
    requires i < |rows|
    ensures exists k :: 0 <= k < |Latest(rows)| && Latest(rows)[k].poolAddress == rows[i].poolAddress
  {
    var m := MaxStamp(rows, rows[i].poolAddress);
    var j :| 0 <= j < |rows| && rows[j].poolAddress == rows[i].poolAddress && Ticks(rows[j].timestamp) == m.value;
    assert LatestIn(rows)(rows[j]);
    assert rows[j] in Latest(rows);
  }

  /** `get_pool`'s formatting: a null integer or float column becomes 0,
      and then every falsy value (a numeric 0 included) becomes ''. */
  function FormatCurrent(d: Dict): (r: Dict)
    ensures r.Keys == d.Keys
  {
    map c | c in d :: if d[c] == Null && c.IsIntOrFloat() then Int(0) else if Falsy(d[c]) then Text("") else d[c]
  }

  /** The other routes' formatting: a null integer or float column becomes
      0 and any other null becomes ''; every other value is kept. */
  function FormatListed(d: Dict): (r: Dict)
    ensures r.Keys == d.Keys
  {
    map c | c in d :: if d[c] == Null && c.IsIntOrFloat() then Int(0) else if d[c] == Null then Text("") else d[c]
  }

  /** Since `to_dict` has no nulls, the listing format changes nothing. */
  lemma FormatListedToDict(p: Pool)
    ensures FormatListed(ToDict(p)) == ToDict(p)
  {
    var d := ToDict(p);
    assert forall c :: c in d ==> FormatListed(d)[c] == d[c];
  }

  /** On a serialised row, `get_pool`'s format blanks exactly the falsy
      values. */
  lemma FormatCurrentToDict(p: Pool, c: Column)
    ensures FormatCurrent(ToDict(p))[c] == if Falsy(ToDict(p)[c]) then Text("") else ToDict(p)[c]
  {
  }

  function HasAddress(addr: string): Pool -> bool {
    (p: Pool) => p.poolAddress == addr
  }

  function PoolTicks(p: Pool): real {
    Ticks(p.timestamp) as real
  }

  function NegPoolTicks(p: Pool): real {
    -PoolTicks(p)
  }

  /** `filter_by(pool_address=...).order_by(timestamp.desc())`. */
  function NewestFirst(rows: seq<Pool>, addr: string): (r: seq<Pool>)
    ensures multiset(r) == multiset(Filter(rows, HasAddress(addr)))
    ensures Ascending(r, NegPoolTicks)
  {
    SortBy(Filter(rows, HasAddress(addr)), NegPoolTicks)
  }

  /** `get_pool`: the newest snapshot of the pool, formatted. For an unknown
      pool `first_or_404` raises inside the `try`, and its handler answers
      500. */
  function GetPool(rows: seq<Pool>, addr: string): (resp: Response<Dict>)
    ensures resp.Ok? || resp.ServerError?
    ensures resp.Ok? <==> exists i :: 0 <= i < |rows| && rows[i].poolAddress == addr
    ensures resp.Ok? ==> exists i :: (0 <= i < |rows| && rows[i].poolAddress == addr
      && IsLatest(rows, rows[i]) && resp.body == FormatCurrent(ToDict(rows[i])))
  {
    var r := NewestFirst(rows, addr);
    NewestFirstHead(rows, addr);
    if r == [] then ServerError else Ok(FormatCurrent(ToDict(r[0])))
  }

  /** The head of the newest-first query is a latest row of the pool, and
      the query is empty exactly when the pool has no rows. */
  lemma NewestFirstHead(rows: seq<Pool>, addr: string)
    ensures NewestFirst(rows, addr) == [] <==> forall i :: 0 <= i < |rows| ==> rows[i].poolAddress != addr
    ensures NewestFirst(rows, addr) != [] ==> exists i :: (0 <= i < |rows|
      && rows[i] == NewestFirst(rows, addr)[0] && rows[i].poolAddress == addr && IsLatest(rows, rows[i]))
  {
    var f := Filter(rows, HasAddress(addr));
    SortByHead(f, NegPoolTicks);
    if exists i :: 0 <= i < |rows| && rows[i].poolAddress == addr {
      var i :| 0 <= i < |rows| && rows[i].poolAddress == addr;
      assert HasAddress(addr)(rows[i]);
    }
    if f != [] {
      var top := NewestFirst(rows, addr)[0];
      assert top.poolAddress == addr;
      var i :| 0 <= i < |rows| && rows[i] == top;
      forall j | 0 <= j < |rows| && rows[j].poolAddress == addr
        ensures Ticks(rows[j].timestamp) <= Ticks(top.timestamp)
      {
        assert HasAddress(addr)(rows[j]);
        assert NegPoolTicks(top) <= NegPoolTicks(rows[j]);
      }
      LatestKeeps(rows, i);
      assert LatestIn(rows)(rows[i]) by {
        var k :| 0 <= k < |Latest(rows)| && Latest(rows)[k] == rows[i];
      }
    }
  }

  /** An unknown pool is answered with 500, although 404 is documented. */
  lemma GetPoolUnknownAddress()
    ensures GetPool([], "0x1") == ServerError
  {
  }

  /** A pool whose TVL is 0 is shown with TVL '' by `get_pool`. */
  lemma ZeroTvlBlanked(p: Pool)
    requires p.tvl == 0.0
    ensures ToDict(p)[Tvl] == Num(0.0)
    ensures FormatCurrent(ToDict(p))[Tvl] == Text("")
  {
    ToDictAt(p, Tvl);
  }

  /** `get_pool` as documented: 404 for an unknown pool, and only nulls
      replaced, so every value of the newest row is shown as serialised. */
  function GetPoolIntended(rows: seq<Pool>, addr: string): (resp: Response<Dict>)
    ensures resp.Ok? || resp.NotFound?
    ensures resp.NotFound? <==> forall i :: 0 <= i < |rows| ==> rows[i].poolAddress != addr
    ensures resp.Ok? ==> exists i :: (0 <= i < |rows| && rows[i].poolAddress == addr
      && IsLatest(rows, rows[i]) && resp.body == ToDict(rows[i]))
  {
    var r := NewestFirst(rows, addr);
    NewestFirstHead(rows, addr);
    if r == [] then NotFound
    else
      FormatListedToDict(r[0]);
      Ok(FormatListed(ToDict(r[0])))
  }

  /** `get_current_pools`: every latest row, serialised. */
  function GetCurrentPools(rows: seq<Pool>): (r: seq<Dict>)
    ensures |r| == |Latest(rows)|
    ensures forall k :: 0 <= k < |r| ==> r[k] == ToDict(Latest(rows)[k])
  {
    var latest := Latest(rows);
    forall k | 0 <= k < |latest| ensures FormatListed(ToDict(latest[k])) == ToDict(latest[k]) {
      FormatListedToDict(latest[k]);
    }
    seq(|latest|, k requires 0 <= k < |latest| => FormatListed(ToDict(latest[k])))
  }

  /** The `for pool in ...: result.append(pool_dict)` loop of the history and
      top routes. */
  method FormatRows(pools: seq<Pool>) returns (result: seq<Dict>)
    ensures |result| == |pools|
    ensures forall k :: 0 <= k < |pools| ==> result[k] == ToDict(pools[k])
  {
    result := [];
    for i := 0 to |pools|
      invariant |result| == i
      invariant forall k :: 0 <= k < i ==> result[k] == ToDict(pools[k])
    {
      var poolDict := FormatListed(ToDict(pools[i]));
      FormatListedToDict(pools[i]);
      result := result + [poolDict];
    }
  }

  /** The history window for a `range` argument: exactly `day`, `week` or
      `month`, compared case-sensitively; the default is `1day`. */
  function HistoryWindow(rangeArg: Option<string>): (w: Option<int>)
    ensures w.Some? <==> rangeArg.Some? && rangeArg.value in {"day", "week", "month"}
    ensures rangeArg == Some("day") ==> w == Some(MicrosPerDay)
    ensures rangeArg == Some("week") ==> w == Some(7 * MicrosPerDay)
    ensures rangeArg == Some("month") ==> w == Some(30 * MicrosPerDay)
  {
    var timeRange := rangeArg.GetOr("1day");
    if timeRange == "day" then Some(MicrosPerDay)
    else if timeRange == "week" then Some(7 * MicrosPerDay)
    else if timeRange == "month" then Some(30 * MicrosPerDay)
    else None
  }

  /** The history window with `day`, one of the documented values, as the default. */
  function HistoryWindowIntended(rangeArg: Option<string>): (w: Option<int>)
    ensures rangeArg.None? ==> w == Some(MicrosPerDay)
    ensures rangeArg.Some? ==> w == HistoryWindow(rangeArg)
  {
    HistoryWindow(Some(rangeArg.GetOr("day")))
  }

  function InHistory(addr: string, start: int): Pool -> bool {
    (p: Pool) => p.poolAddress == addr && Ticks(p.timestamp) >= start
  }

  /** The history query: the pool's rows at or after `start`, oldest first. */
  function HistoryQuery(rows: seq<Pool>, addr: string, start: int): (q: seq<Pool>)
    ensures Ascending(q, PoolTicks)
    ensures multiset(q) == multiset(Filter(rows, InHistory(addr, start)))
    ensures forall k :: 0 <= k < |q| ==> q[k] in rows && q[k].poolAddress == addr && Ticks(q[k].timestamp) >= start
    ensures forall i :: 0 <= i < |rows| && rows[i].poolAddress == addr && Ticks(rows[i].timestamp) >= start ==> rows[i] in q
  {
    var f := Filter(rows, InHistory(addr, start));
    var q := SortBy(f, PoolTicks);
    forall k | 0 <= k < |q| ensures q[k] in f {
      SortByMembers(f, PoolTicks, q[k]);
    }
    forall x | x in f ensures x in q {
      SortByMembers(f, PoolTicks, x);
    }
    assert forall i :: 0 <= i < |rows| && InHistory(addr, start)(rows[i]) ==> rows[i] in f;
    q
  }

  /** `get_pool_history`, with the clock reading `now` as a parameter. */
  method GetPoolHistory(rows: seq<Pool>, addr: string, rangeArg: Option<string>, now: DateTime)
    returns (resp: Response<seq<Dict>>)
    ensures resp.Ok? || resp.BadRequest?
    ensures resp.BadRequest? <==> HistoryWindow(rangeArg).None?
    ensures rangeArg.None? ==> resp.BadRequest?
    ensures resp.Ok? ==> var q := HistoryQuery(rows, addr, Ticks(now) - HistoryWindow(rangeArg).value);
      |resp.body| == |q| && forall k :: 0 <= k < |q| ==> resp.body[k] == ToDict(q[k])
  {
    var window := HistoryWindow(rangeArg);
    if window.None? {
      return BadRequest;
    }
    var startDate := Ticks(now) - window.value;
    var poolHistory := HistoryQuery(rows, addr, startDate);
    var result := FormatRows(poolHistory);
    resp := Ok(result);
  }

  datatype Metric = TvlMetric | VolumeDayMetric | FeesDayMetric

  /** The `metric` argument, lower-cased (default `tvl`). */
  function ParseMetric(arg: Option<string>): (m: Option<Metric>)
    ensures m == Some(TvlMetric) <==> Lower(arg.GetOr("tvl")) == "tvl"
    ensures m == Some(VolumeDayMetric) <==> Lower(arg.GetOr("tvl")) == "volume_day"
    ensures m == Some(FeesDayMetric) <==> Lower(arg.GetOr("tvl")) == "fees_day"
    ensures arg.None? ==> m == Some(TvlMetric)
  {
    LowerOfLowercase("tvl");
    var metric := Lower(arg.GetOr("tvl"));
    if metric == "tvl" then Some(TvlMetric)
    else if metric == "volume_day" then Some(VolumeDayMetric)
    else if metric == "fees_day" then Some(FeesDayMetric)
    else None
  }

  function MetricOf(p: Pool, m: Metric): real {
    match m
    case TvlMetric => p.tvl
    case VolumeDayMetric => p.volumeDay
    case FeesDayMetric => p.feesDay
  }

  function Descending(m: Metric): Pool -> real {
    (p: Pool) => -MetricOf(p, m)
  }

  function HasProvider(provider: string): Pool -> bool {
    (p: Pool) => p.provider == provider
  }

  /** The latest rows, kept to the provider when a non-empty one is given. */
  function LatestFor(rows: seq<Pool>, provider: Option<string>): (r: seq<Pool>)
    ensures forall k :: 0 <= k < |r| ==> r[k] in Latest(rows)
    ensures provider.Some? && provider.value != "" ==> forall k :: 0 <= k < |r| ==> r[k].provider == provider.value
    ensures forall x :: x in Latest(rows) && (provider.Some? && provider.value != "" ==> x.provider == provider.value) ==> x in r
  {
    var latest := Latest(rows);
    if provider.Some? && provider.value != "" then
      var r := Filter(latest, HasProvider(provider.value));
      assert forall x :: x in latest && x.provider == provider.value ==> HasProvider(provider.value)(x);
      r
    else latest
  }

  function Min(a: int, b: int): int {
    if a <= b then a else b
  }

  /** `order_by(metric.desc()).limit(10)`: the candidates by descending
      metric, the first ten. */
  function TopPools(rows: seq<Pool>, m: Metric, provider: Option<string>): (r: seq<Pool>)
    ensures |r| == Min(10, |LatestFor(rows, provider)|)
    ensures forall k :: 0 <= k < |r| ==> r[k] in LatestFor(rows, provider)
    ensures multiset(r) <= multiset(LatestFor(rows, provider))
  {
    FirstBy(LatestFor(rows, provider), Descending(m), 10)
  }

  /** The rows returned come in non-increasing order of the metric. */
  lemma TopPoolsOrdered(rows: seq<Pool>, m: Metric, provider: Option<string>)
    ensures var r := TopPools(rows, m, provider);
      forall a, b :: 0 <= a < b < |r| ==> MetricOf(r[a], m) >= MetricOf(r[b], m)
  {
    var r := TopPools(rows, m, provider);
    forall a, b | 0 <= a < b < |r| ensures MetricOf(r[a], m) >= MetricOf(r[b], m) {
      assert Descending(m)(r[a]) <= Descending(m)(r[b]);
    }
  }

  /** Taking the ten highest by a metric leaves out nothing that beats the
      last one taken. */
  lemma FirstByMetric(cands: seq<Pool>, m: Metric)
    ensures var r := FirstBy(cands, Descending(m), 10);
      r != [] ==> forall x :: x in cands && MetricOf(x, m) > MetricOf(r[|r| - 1], m) ==> x in r
  {
    var key := Descending(m);
    FirstByDominates(cands, key, 10);
    var r := FirstBy(cands, key, 10);
    if r != [] {
      MetricDominates(cands, r, m);
    }
  }

  lemma MetricDominates(cands: seq<Pool>, r: seq<Pool>, m: Metric)
    requires r != []
    requires forall x :: x in cands && Descending(m)(x) < Descending(m)(r[|r| - 1]) ==> x in r
    ensures forall x :: x in cands && MetricOf(x, m) > MetricOf(r[|r| - 1], m) ==> x in r
  {
    forall x | x in cands && MetricOf(x, m) > MetricOf(r[|r| - 1], m) ensures x in r {
      assert Descending(m)(x) < Descending(m)(r[|r| - 1]);
    }
  }

  /** No candidate left out beats the last row returned, and when fewer
      than ten are returned, all candidates are. */
  lemma TopPoolsDominate(rows: seq<Pool>, m: Metric, provider: Option<string>)
    ensures var cands, r := LatestFor(rows, provider), TopPools(rows, m, provider);
      |r| < 10 ==> multiset(r) == multiset(cands)
    ensures var cands, r := LatestFor(rows, provider), TopPools(rows, m, provider);
      r != [] ==> forall x :: x in cands && MetricOf(x, m) > MetricOf(r[|r| - 1], m) ==> x in r
  {
    TopPoolsAll(rows, m, provider);
    FirstByMetric(LatestFor(rows, provider), m);
  }

  /** Fewer than ten rows returned means every candidate was. */
  lemma TopPoolsAll(rows: seq<Pool>, m: Metric, provider: Option<string>)
    ensures var cands, r := LatestFor(rows, provider), TopPools(rows, m, provider);
      |r| < 10 ==> multiset(r) == multiset(cands)
  {
    FirstByAll(LatestFor(rows, provider), Descending(m), 10);
  }

  /** `get_top_pools`. */
  method GetTopPools(rows: seq<Pool>, metricArg: Option<string>, provider: Option<string>)
    returns (resp: Response<seq<Dict>>)
    ensures resp.Ok? || resp.BadRequest?
    ensures resp.BadRequest? <==> ParseMetric(metricArg).None?
    ensures resp.Ok? ==> var top := TopPools(rows, ParseMetric(metricArg).value, provider);
      |resp.body| == |top| && forall k :: 0 <= k < |top| ==> resp.body[k] == ToDict(top[k])
  {
    var metric := ParseMetric(metricArg);
    if metric.None? {
      return BadRequest;
    }
    var topPools := TopPools(rows, metric.value, provider);
    var result := FormatRows(topPools);
    resp := Ok(result);
  }
}
