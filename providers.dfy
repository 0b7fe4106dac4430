/** The provider rollup: the latest snapshot of every pool, optionally kept
    to one provider, grouped by provider into sums, means and a count. */
module Providers {
  import opened Common
  import opened Time
  import opened Grouping
  import opened AptosPool
  import opened Pools

  /** One entry of the `providers` list: a provider and its group of
      latest rows, with each aggregate column a function of the group. */
  datatype Rollup = Rollup(provider: string, rows: seq<Pool>)
  {
    function TotalTvl(): real { Sum(rows, PoolTvl) }
    function TotalVolume1d(): real { Sum(rows, PoolVolumeDay) }
    function TotalVolume7d(): real { Sum(rows, PoolVolumeWeek) }
    function TotalVolume30d(): real { Sum(rows, PoolVolumeMonth) }
    function AvgFees1d(): real { Avg(rows, NonNull(PoolFeesDay)) }
    function AvgFees7d(): real { Avg(rows, NonNull(PoolFeesWeek)) }
    function AvgFees30d(): real { Avg(rows, NonNull(PoolFeesMonth)) }
    function TotalPools(): nat { |rows| }
    /** `sum(tvl) / count(pool_address)`. */
    function AvgTvlPerPool(): real { Quotient(TotalTvl(), TotalPools()) }
    function AvgSlippage1d(): real { Avg(rows, Slippage1d) }
    function AvgSlippage7d(): real { Avg(rows, Slippage7d) }
    function AvgSlippage30d(): real { Avg(rows, Slippage30d) }
  }

  datatype ProvidersBody = ProvidersBody(timestamp: DateTime, providers: seq<Rollup>)

  function ValueOf<T>(g: T -> Option<real>): T -> real {
    x => OrZero(g(x))
  }

  /** How many rows of `s` hold a value in the nullable column `g`. */
  function PresentCount<T>(s: seq<T>, g: T -> Option<real>): nat {
    if s == [] then 0 else (if g(s[0]).Some? then 1 else 0) + PresentCount(s[1..], g)
  }

  /** The total of the values present in the nullable column `g`. */
  function PresentSum<T>(s: seq<T>, g: T -> Option<real>): real {
    if s == [] then 0.0 else OrZero(g(s[0])) + PresentSum(s[1..], g)
  }

  /** A total over a count; NULL (nothing counted) reads as 0. */
  function Quotient(total: real, count: nat): real {
    if count == 0 then 0.0 else total / count as real
  }

  /** SQL `AVG` as the database evaluates it: a running total and count of
      the values present, divided at the end. */
  function AvgState<T>(s: seq<T>, g: T -> Option<real>, total: real, count: nat): real
    decreases |s|
  {
    if s == [] then Quotient(total, count)
    else AvgState(s[1..], g, total + OrZero(g(s[0])), count + if g(s[0]).Some? then 1 else 0)
  }

  /** SQL `AVG` of column `g` over `s`; NULLs are skipped, and a group with
      no value gives NULL, reported as 0. */
  function Avg<T>(s: seq<T>, g: T -> Option<real>): real
  {
    AvgState(s, g, 0.0, 0)
  }

  /** The running evaluation divides the total of the values present by
      their count. */
  lemma {:induction false} AvgStateSpec<T>(s: seq<T>, g: T -> Option<real>, total: real, count: nat)
    ensures AvgState(s, g, total, count) == Quotient(total + PresentSum(s, g), count + PresentCount(s, g))
    decreases |s|
  {
    if s != [] {
      AvgStateSpec(s[1..], g, total + OrZero(g(s[0])), count + if g(s[0]).Some? then 1 else 0);
    }
  }

  /** `AVG` times the number of values present is their total. */
  lemma AvgScaled<T>(s: seq<T>, g: T -> Option<real>)
    requires PresentCount(s, g) > 0
    ensures Avg(s, g) * PresentCount(s, g) as real == PresentSum(s, g)
  {
    AvgStateSpec(s, g, 0.0, 0);
  }

  /** With no value present, nothing is counted and `AVG` reports 0. */
  lemma {:induction false} AvgAllNull<T>(s: seq<T>, g: T -> Option<real>)
    requires forall i :: 0 <= i < |s| ==> g(s[i]).None?
    ensures PresentCount(s, g) == 0 && Avg(s, g) == 0.0
  {
    if s != [] {
      assert forall i :: 0 <= i < |s[1..]| ==> s[1..][i] == s[i + 1];
      AvgAllNull(s[1..], g);
    }
    AvgStateSpec(s, g, 0.0, 0);
  }

  /** With every value present, the count and total are the plain ones. */
  lemma {:induction false} NonNullAllPresent<T>(s: seq<T>, g: T -> Option<real>)
    requires forall i :: 0 <= i < |s| ==> g(s[i]).Some?
    ensures PresentCount(s, g) == |s| && PresentSum(s, g) == Sum(s, ValueOf(g))
  {
    if s != [] {
      assert forall i :: 0 <= i < |s[1..]| ==> s[1..][i] == s[i + 1];
      NonNullAllPresent(s[1..], g);
      assert s == [s[0]] + s[1..];
      SumAppend([s[0]], s[1..], ValueOf(g));
      assert Sum([s[0]], ValueOf(g)) == ValueOf(g)(s[0]);
    }
  }

  /** A non-null column read as a column that always holds a value. */
  function NonNull<T>(f: T -> real): T -> Option<real> {
    x => Some(f(x))
  }

  lemma {:induction false} SumNonNull<T>(s: seq<T>, f: T -> real)
    ensures Sum(s, ValueOf(NonNull(f))) == Sum(s, f)
  {
    if s != [] {
      SumNonNull(s[..|s| - 1], f);
    }
  }

  /** Over a non-empty group, `AVG` of a non-null column times the row count
      is the column's total. */
  lemma AvgNonNull<T>(s: seq<T>, f: T -> real)
    requires s != []
    ensures Avg(s, NonNull(f)) * |s| as real == Sum(s, f)
  {
    NonNullAllPresent(s, NonNull(f));
    SumNonNull(s, f);
    AvgScaled(s, NonNull(f));
  }

  /** Over a group where every value of `g` is present, `AVG` is the plain
      mean: times the row count it is the total. */
  lemma AvgAllPresent<T>(s: seq<T>, g: T -> Option<real>)
    requires s != []
    requires forall i :: 0 <= i < |s| ==> g(s[i]).Some?
    ensures Avg(s, g) * |s| as real == Sum(s, ValueOf(g))
  {
    NonNullAllPresent(s, g);
    AvgScaled(s, g);
  }

  function PoolTvl(p: Pool): real { p.tvl }
  function PoolVolumeDay(p: Pool): real { p.volumeDay }
  function PoolVolumeWeek(p: Pool): real { p.volumeWeek }
  function PoolVolumeMonth(p: Pool): real { p.volumeMonth }
  function PoolFeesDay(p: Pool): real { p.feesDay }
  function PoolFeesWeek(p: Pool): real { p.feesWeek }
  function PoolFeesMonth(p: Pool): real { p.feesMonth }
  function Slippage1d(p: Pool): Option<real> { p.medianSlippage1d }
  function Slippage7d(p: Pool): Option<real> { p.medianSlippage7d }
  function Slippage30d(p: Pool): Option<real> { p.medianSlippage30d }
  function ProviderOf(p: Pool): string { p.provider }

  /** TVL per pool times the pool count is the TVL total. */
  lemma RollupTvlPerPool(r: Rollup)
    requires r.rows != []
    ensures r.TotalPools() >= 1 && r.AvgTvlPerPool() * r.TotalPools() as real == r.TotalTvl()
  {
  }

  /** Each fee average times the pool count is the fee total. */
  lemma RollupFees(r: Rollup)
    requires r.rows != []
    ensures r.AvgFees1d() * r.TotalPools() as real == Sum(r.rows, PoolFeesDay)
    ensures r.AvgFees7d() * r.TotalPools() as real == Sum(r.rows, PoolFeesWeek)
    ensures r.AvgFees30d() * r.TotalPools() as real == Sum(r.rows, PoolFeesMonth)
  {
    AvgNonNull(r.rows, PoolFeesDay);
    AvgNonNull(r.rows, PoolFeesWeek);
    AvgNonNull(r.rows, PoolFeesMonth);
  }

  /** Every row has a value in column `g`. */
  predicate AllReported(s: seq<Pool>, g: Pool -> Option<real>) {
    forall i :: 0 <= i < |s| ==> g(s[i]).Some?
  }

  /** No row has a value in column `g`. */
  predicate NoneReported(s: seq<Pool>, g: Pool -> Option<real>) {
    forall i :: 0 <= i < |s| ==> g(s[i]).None?
  }

  /** The slippage averages skip the pools without a slippage: each
      average times the number of slippages reported is their total. */
  lemma RollupSlippage(r: Rollup)
    ensures PresentCount(r.rows, Slippage1d) > 0 ==>
      r.AvgSlippage1d() * PresentCount(r.rows, Slippage1d) as real == PresentSum(r.rows, Slippage1d)
    ensures PresentCount(r.rows, Slippage7d) > 0 ==>
      r.AvgSlippage7d() * PresentCount(r.rows, Slippage7d) as real == PresentSum(r.rows, Slippage7d)
    ensures PresentCount(r.rows, Slippage30d) > 0 ==>
      r.AvgSlippage30d() * PresentCount(r.rows, Slippage30d) as real == PresentSum(r.rows, Slippage30d)
  {
    ColumnScaled(r, Slippage1d);
    ColumnScaled(r, Slippage7d);
    ColumnScaled(r, Slippage30d);
  }

  /** One nullable column of a rollup: the average skips the nulls. */
  lemma ColumnScaled(r: Rollup, g: Pool -> Option<real>)
    ensures PresentCount(r.rows, g) > 0 ==>
      Avg(r.rows, g) * PresentCount(r.rows, g) as real == PresentSum(r.rows, g)
  {
    if PresentCount(r.rows, g) > 0 {
      AvgScaled(r.rows, g);
    }
  }

  /** A provider none of whose pools reports a slippage over a period gets
      0 for that period. */
  lemma RollupSlippageNull(r: Rollup)
    ensures NoneReported(r.rows, Slippage1d) ==> r.AvgSlippage1d() == 0.0
    ensures NoneReported(r.rows, Slippage7d) ==> r.AvgSlippage7d() == 0.0
    ensures NoneReported(r.rows, Slippage30d) ==> r.AvgSlippage30d() == 0.0
  {
    ColumnAllNull(r, Slippage1d);
    ColumnAllNull(r, Slippage7d);
    ColumnAllNull(r, Slippage30d);
  }

  /** One nullable column of a rollup, every value null. */
  lemma ColumnAllNull(r: Rollup, g: Pool -> Option<real>)
    ensures NoneReported(r.rows, g) ==> Avg(r.rows, g) == 0.0
  {
    if NoneReported(r.rows, g) {
      AvgAllNull(r.rows, g);
    }
  }

  /** A provider all of whose pools report a slippage over a period gets
      their plain mean for that period. */
  lemma RollupSlippageAll(r: Rollup)
    requires r.rows != []
    ensures AllReported(r.rows, Slippage1d) ==>
      r.AvgSlippage1d() * r.TotalPools() as real == Sum(r.rows, ValueOf(Slippage1d))
    ensures AllReported(r.rows, Slippage7d) ==>
      r.AvgSlippage7d() * r.TotalPools() as real == Sum(r.rows, ValueOf(Slippage7d))
    ensures AllReported(r.rows, Slippage30d) ==>
      r.AvgSlippage30d() * r.TotalPools() as real == Sum(r.rows, ValueOf(Slippage30d))
  {
    ColumnAllPresent(r, Slippage1d);
    ColumnAllPresent(r, Slippage7d);
    ColumnAllPresent(r, Slippage30d);
  }

  /** One nullable column of a rollup, every value present. */
  lemma ColumnAllPresent(r: Rollup, g: Pool -> Option<real>)
    requires r.rows != []
    ensures AllReported(r.rows, g) ==>
      Avg(r.rows, g) * r.TotalPools() as real == Sum(r.rows, ValueOf(g))
  {
    if AllReported(r.rows, g) {
      AvgAllPresent(r.rows, g);
    }
  }

  /** The rollups of the groups named by `ks`, one per key, in order. */
  function Rollups(rows: seq<Pool>, ks: seq<string>): seq<Rollup>
  {
    seq(|ks|, j requires 0 <= j < |ks| => Rollup(ks[j], Pick(rows, ProviderOf, ks[j])))
  }

  /** The rows the rollup is over: the latest rows, kept to `providerName`
      when it is given and non-empty. */
  function Selected(rows: seq<Pool>, providerName: Option<string>): seq<Pool> {
    LatestFor(rows, providerName)
  }

  /** `GROUP BY provider`: one rollup per provider of `sel`, in order of
      first appearance. */
  function RollupsOf(sel: seq<Pool>): seq<Rollup> {
    Rollups(sel, KeysOf(sel, ProviderOf))
  }

  function ProviderNames(rs: seq<Rollup>): set<string> {
    set j | 0 <= j < |rs| :: rs[j].provider
  }

  function RowProviders(s: seq<Pool>): set<string> {
    set i | 0 <= i < |s| :: s[i].provider
  }

  /** Each rollup holds exactly its provider's rows, and has at least one. */
  lemma RollupsGroups(sel: seq<Pool>)
    ensures var rs := RollupsOf(sel);
      forall j :: 0 <= j < |rs| ==> rs[j].rows == Pick(sel, ProviderOf, rs[j].provider) && rs[j].TotalPools() >= 1
  {
    var ks := KeysOf(sel, ProviderOf);
    forall j | 0 <= j < |ks| ensures Pick(sel, ProviderOf, ks[j]) != [] {
      var i :| 0 <= i < |sel| && ProviderOf(sel[i]) == ks[j];
      assert sel[i] in Pick(sel, ProviderOf, ks[j]);
    }
  }

  /** No provider has two rollups. */
  lemma RollupsDistinct(sel: seq<Pool>)
    ensures var rs := RollupsOf(sel);
      forall a, b :: 0 <= a < b < |rs| ==> rs[a].provider != rs[b].provider
  {
    var ks := KeysOf(sel, ProviderOf);
    assert forall j :: 0 <= j < |ks| ==> RollupsOf(sel)[j].provider == ks[j];
  }

  /** The providers with a rollup are exactly the providers of the rows:
      none is missing and none appears without rows. */
  lemma RollupsCover(sel: seq<Pool>)
    ensures ProviderNames(RollupsOf(sel)) == RowProviders(sel)
  {
    var ks := KeysOf(sel, ProviderOf);
    var rs := RollupsOf(sel);
    assert forall j :: 0 <= j < |ks| ==> rs[j].provider == ks[j];
    forall x | x in RowProviders(sel) ensures x in ProviderNames(rs) {
      var i :| 0 <= i < |sel| && sel[i].provider == x;
      assert ProviderOf(sel[i]) in ks;
    }
    forall x | x in ProviderNames(rs) ensures x in RowProviders(sel) {
      var j :| 0 <= j < |rs| && rs[j].provider == x;
      var i :| 0 <= i < |sel| && ProviderOf(sel[i]) == ks[j];
    }
  }

  /** Rows of a single provider give at most one rollup, and exactly one
      when there is a row. */
  lemma RollupsSingle(sel: seq<Pool>, name: string)
    requires forall i :: 0 <= i < |sel| ==> sel[i].provider == name
    ensures var rs := RollupsOf(sel);
      |rs| <= 1 && (forall j :: 0 <= j < |rs| ==> rs[j].provider == name) && (sel != [] ==> |rs| == 1)
  {
    var ks := KeysOf(sel, ProviderOf);
    forall j | 0 <= j < |ks| ensures ks[j] == name {
      var i :| 0 <= i < |sel| && ProviderOf(sel[i]) == ks[j];
    }
    OccurrencesAll(ks, name);
    OccurrencesDistinct(ks, name);
    if sel != [] {
      assert ProviderOf(sel[0]) in ks;
    }
  }

  /** `get_providers`, with the clock reading `now` as a parameter. */
  function GetProviders(rows: seq<Pool>, providerName: Option<string>, now: DateTime): (body: ProvidersBody)
    ensures body.timestamp == now
    ensures ProviderNames(body.providers) == RowProviders(Selected(rows, providerName))
    ensures forall a, b :: 0 <= a < b < |body.providers| ==> body.providers[a].provider != body.providers[b].provider
    ensures forall j :: 0 <= j < |body.providers| ==>
      body.providers[j].rows == Pick(Selected(rows, providerName), ProviderOf, body.providers[j].provider)
      && body.providers[j].TotalPools() >= 1
  {
    var sel := Selected(rows, providerName);
    RollupsCover(sel);
    RollupsDistinct(sel);
    RollupsGroups(sel);
    ProvidersBody(now, RollupsOf(sel))
  }

  /** With a provider name given, at most one entry, and it is for that
      provider; exactly one when the provider has a latest row. */
  lemma ProvidersFiltered(rows: seq<Pool>, name: string, now: DateTime)
    requires name != ""
    ensures var rs := GetProviders(rows, Some(name), now).providers;
      |rs| <= 1 && (forall j :: 0 <= j < |rs| ==> rs[j].provider == name)
      && ((exists k :: 0 <= k < |Latest(rows)| && Latest(rows)[k].provider == name) ==> |rs| == 1)
  {
    var sel := Selected(rows, Some(name));
    RollupsSingle(sel, name);
    if exists k :: 0 <= k < |Latest(rows)| && Latest(rows)[k].provider == name {
      var k :| 0 <= k < |Latest(rows)| && Latest(rows)[k].provider == name;
      assert Latest(rows)[k] in sel;
    }
  }

  function PoolsOf(r: Rollup): real { r.TotalPools() as real }
  function TvlOf(r: Rollup): real { r.TotalTvl() }

  lemma {:induction false} RollupsTotals(rows: seq<Pool>, ks: seq<string>)
    ensures Sum(Rollups(rows, ks), PoolsOf) == GroupSizes(rows, ProviderOf, ks) as real
    ensures Sum(Rollups(rows, ks), TvlOf) == GroupSums(rows, ProviderOf, ks, PoolTvl)
  {
    if ks != [] {
      var init := ks[..|ks| - 1];
      var rs := Rollups(rows, ks);
      assert rs[..|rs| - 1] == Rollups(rows, init);
      RollupsTotals(rows, init);
    }
  }

  /** The pool counts add up to the number of selected rows, and the TVL
      totals to their total TVL: no row is counted twice or left out. */
  lemma ProvidersTotals(rows: seq<Pool>, providerName: Option<string>, now: DateTime)
    ensures var rs, sel := GetProviders(rows, providerName, now).providers, Selected(rows, providerName);
      Sum(rs, PoolsOf) == |sel| as real && Sum(rs, TvlOf) == Sum(sel, PoolTvl)
  {
    var sel := Selected(rows, providerName);
    var ks := KeysOf(sel, ProviderOf);
    RollupsTotals(sel, ks);
    PartitionSizes(sel, ProviderOf, ks);
    PartitionSums(sel, ProviderOf, ks, PoolTvl);
  }
}
