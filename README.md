# aptos-api, modelled in Dafny

aptos-api is a Flask service over two tables of Aptos DeFi data:

- `aptos_pools` holds one snapshot row per pool and sampling instant;
- `aptos_transactions` holds individual swaps.

The service has these parts:

- HTTP routes that answer with JSON.
- One pool's newest snapshot (`/api/pool/<addr>/current`).
- Every pool's newest snapshot (`/api/pools`).
- One pool's history over a day, a week or a month (`/api/pool/<addr>/history`).
- The ten pools with the highest TVL, daily volume or daily fees (`/top`).
- A per-provider rollup of the newest snapshots (`get_providers`).
- The median slippage of the APT/USDC pair in fixed-width time bins (`/api/slippage`).
- A Socket.IO side:
  - clients join and leave rooms (`overall_stats`, or a pool's address);
  - broadcast loops publish the overall statistics and each pool's newest figures to those rooms.

## The model

- **Store.** A table is a sequence of records: `AptosPool.Pool` and `AptosTransactions.Txn`. Every SQL query is a function over that sequence.
  - `WHERE` is `Common.Filter`.
  - `ORDER BY` is a stable insertion sort (`Sorting.SortBy`).
  - `LIMIT 10` is `Sorting.FirstBy`.
  - `GROUP BY` is `Grouping.KeysOf`: the distinct keys in order of first appearance, with `Grouping.Pick` for each key's rows.
  - The max-timestamp subquery joined back to the table is `Pools.Latest`.
- **Records.** A column that may be null is an `Option`. `to_dict` yields a map from column to a JSON value (`Common.Value`).
  - `Value` has a `Null` case, so the route-level null substitutions can be stated and shown to do nothing.
- **Timestamps.** A timestamp is `Time.DateTime`: whole hours since the epoch, plus minute, second and microsecond. Python's `replace(minute=…, second=0, microsecond=0)` is then a field update, and `Time.Ticks`, the instant in microseconds, orders timestamps.
- **Clock.** The wall clock (`datetime.now`, `time.time()`) is a parameter.
- **Responses.** A route's answer is `Common.Response`: `Ok(body)`, `BadRequest` (400), `NotFound` (404) or `ServerError` (500).
- **Imperative code.**
  - The slippage binning loop is a method with a `while` loop (`Slippage.FillBins`). It is proved against the function `Slippage.BinsOf`, and the properties of the bins are proved about that function.
  - The `for … append` loops of the history and top routes are `Pools.FormatRows`.
- **The Socket.IO server.** It is the class `RealTime.Hub`:
  - its room map and the sequence of messages sent are fields that its handler methods update;
  - one iteration of each broadcast loop is a step method;
  - the payload computations are functions over the rows.

## Model

| member | source | states |
|---|---|---|
| AptosPool.ToDict | models/aptos_pool.py:28-47 | every one of the 17 columns is a key; no value is null; numeric columns are numbers and text columns are text |
| AptosPool.Field | models/aptos_pool.py:30-46 | the value `to_dict` gives a column is never null, a number for numeric columns and text for text columns |
| AptosPool.NamesDistinct | models/aptos_pool.py:29-47 | no two columns share a key, so the dict has exactly one key per column |
| AptosPool.ToDictNulls | models/aptos_pool.py:30-46 | `id` is kept and the timestamp is its ISO rendering; an absent slippage becomes 0 |
| AptosPool.ReadIdentity | models/aptos_pool.py:30-43 | id, timestamp, provider, address, tokens and state read back unchanged |
| AptosPool.ReadAmounts | models/aptos_pool.py:36-42 | tvl, volumes and fees read back as the same numbers |
| AptosPool.ReadSlippages | models/aptos_pool.py:44-46 | each slippage reads back as its value, or 0 when absent |
| AptosPool.ToDictRoundTrip | models/aptos_pool.py:28-47 | reading the dict back gives the row, except that an absent slippage comes back as 0 |
| AptosPool.ToDictInjective | models/aptos_pool.py:28-47 | two rows serialise alike exactly when they agree once absent slippages count as 0 |
| AptosTransactions.ToDict | models/aptos_transactions.py:25-45 | every one of the 18 columns is a key; no value is null; numbers are numbers, integers integers, text text |
| AptosTransactions.Field | models/aptos_transactions.py:27-44 | the value of a column is never null |
| AptosTransactions.NamesDistinct | models/aptos_transactions.py:26-45 | no two columns share a key |
| AptosTransactions.ToDictNulls | models/aptos_transactions.py:27-44 | an absent slippage or volume is 0, an absent decimal_x is 0, an absent provider or pool_name is '', an absent created_at is '', and a timestamp is its ISO rendering |
| AptosTransactions.ReadRequired | models/aptos_transactions.py:27-32 | the required columns read back unchanged |
| AptosTransactions.ReadOptional | models/aptos_transactions.py:33-44 | provider, pool_name and decimal_x read back as their value or ''/0; created_at as its value or nothing |
| AptosTransactions.ReadNumbers | models/aptos_transactions.py:34-42 | every nullable amount reads back as its value, or 0 when absent |
| AptosTransactions.ToDictRoundTrip | models/aptos_transactions.py:25-45 | reading the dict back loses only the difference between absent and 0 or '' |
| AptosTransactions.ToDictInjective | models/aptos_transactions.py:25-45 | two rows serialise alike exactly when they agree up to that difference |
| Common.Lower | routes/slippage.py:28 | the model's lower-casing keeps the length and maps character by character; it is exact for the ASCII keywords the routes compare |
| Common.LowerOfLowercase | routes/pools.py:162 | lower-casing a lower-case default (`tvl`, `hour`) changes nothing |
| Time.BucketKey | routes/slippage.py:72-76 | the bin start keeps the hour, floors the minute to a multiple of the width and zeroes seconds and microseconds |
| Time.BucketBounds | routes/slippage.py:72-76 | bin start ≤ timestamp < bin start + width minutes |
| Time.SameBucket | routes/slippage.py:72-76 | two timestamps share a bin exactly when they share the hour and the minute's quotient by the width |
| Time.BucketIdempotent | routes/slippage.py:72-76 | a bin start is its own bin start |
| Time.TicksInjective | routes/slippage.py:87 | distinct timestamps are distinct instants, so sorting bin starts by instant is a total order |
| Sorting.SortBy | routes/slippage.py:66 | `order_by`: the result is ascending by the key and a permutation of the input |
| Sorting.SortByMembers | routes/slippage.py:66 | sorting keeps exactly the same elements |
| Sorting.SortByHead | routes/pools.py:29 | the first element of the sort has the smallest key of all the rows |
| Sorting.FirstBy | routes/pools.py:193 | `order_by(...).limit(n)`: min(n, size) elements, ascending by the key, forming a sub-multiset of the input, so no row is repeated beyond its own multiplicity |
| Sorting.FirstByDominates | routes/pools.py:193 | nothing left out ranks before the last element kept |
| Sorting.FirstByAll | routes/pools.py:193 | when fewer than n elements are kept, they are all the input, each as often as it occurs |
| Sorting.PrefixDominates | routes/pools.py:193 | in the sort, anything ranked strictly before position m - 1 lies in the first m |
| Sorting.AscendingHeads | routes/slippage.py:85 | two ascending lists of the same values start alike |
| Sorting.SortedUnique | routes/slippage.py:85 | two ascending permutations of the same numbers are equal |
| Grouping.Pick | routes/providers.py:79 | a group holds exactly the rows with its key |
| Grouping.KeysOf | routes/slippage.py:77-78 | the dict's keys: distinct, every row's key, and no key without a row |
| Grouping.KeysOfCount | events/real_time.py:37-38 | listing the distinct keys counts each key exactly once: their number is the size of the set of keys |
| Grouping.PartitionSizes | routes/slippage.py:69-79 | the group sizes add up to the number of rows |
| Grouping.PartitionSums | routes/providers.py:56-79 | per-group sums add up to the sum over all rows |
| Statistics.MedianOfSorted | routes/slippage.py:85 | `median`: the middle value of the sorted list when the count is odd, the mean of the two middle values when even |
| Statistics.MedianPermutation | routes/slippage.py:85 | the median does not depend on the order of the values |
| Statistics.MedianBounds | routes/slippage.py:85 | the median lies between the least and the greatest value |
| Statistics.MedianSingleton | routes/slippage.py:85 | the median of one value is that value |
| Slippage.ParseRange | routes/slippage.py:28-30 | lower-cased `week` or `month` pick that range; anything else, or no argument, is `hour`; never an error |
| Slippage.Window | routes/slippage.py:33-42 | the window reaches back a positive span: one hour, 7 days or 30 days |
| Slippage.Query | routes/slippage.py:45-66 | exactly the APT/USDC transactions (either order) at or after the window start, in ascending time |
| Slippage.BinsOfKeys | routes/slippage.py:69-79 | the bins are exactly the bin starts of the transactions |
| Slippage.BinsOfSpec | routes/slippage.py:69-79 | each bin holds the slippages of exactly its transactions, in order |
| Slippage.BinsNonEmpty | routes/slippage.py:77-79 | no bin is empty |
| Slippage.BinsOfSnoc | routes/slippage.py:77-79 | one more transaction creates its bin if new and appends its slippage |
| Slippage.BinSizesTotal | routes/slippage.py:69-79 | every transaction lands in exactly one bin: bin sizes sum to the count |
| Slippage.FillStep | routes/slippage.py:72-79 | one turn of the loop creates the bin when new and appends the slippage, keeping bins and insertion order equal to their definitions |
| Slippage.FillBins | routes/slippage.py:69-79 | the loop builds `BinsOf` and records the bin starts in insertion order |
| Slippage.MedianOf | routes/slippage.py:85 | `float(median(...))` is defined exactly on a non-empty list with no null |
| Slippage.Series | routes/slippage.py:82-88 | one point per sorted key, in the keys' order: its timestamps are exactly the keys, strictly ascending when the keys are, and each value is the median of its bin |
| Slippage.SortedKeysStrict | routes/slippage.py:87 | the sorted bin starts are strictly increasing |
| Slippage.SortedKeysInBins | routes/slippage.py:87 | every sorted key names a bin |
| Slippage.SortedKeysCover | routes/slippage.py:82-88 | the sorted keys are exactly the transactions' bin starts |
| Slippage.PresentBin | routes/slippage.py:85 | with no null slippage every bin has a median |
| Slippage.NullBin | routes/slippage.py:85 | a null slippage leaves its bin without a median |
| Slippage.SeriesDefinedIff | routes/slippage.py:82-95 | the route answers 200 exactly when no selected transaction has a null slippage |
| Slippage.SeriesTimestamps | routes/slippage.py:82-88 | points come in strictly ascending time, one per distinct bin start |
| Slippage.SeriesValues | routes/slippage.py:85 | each point's value is the median of its bin's slippages |
| Slippage.SeriesBounds | routes/slippage.py:85 | each point's value lies between the least and the greatest slippage in its bin |
| Slippage.BinnedFacts | routes/slippage.py:69-88 | the facts the route combines about the loop's bins and the comprehension |
| Slippage.GetSlippage | routes/slippage.py:15-95 | 200 or 500; 200 exactly when no selected slippage is null; pair `apt-usdc`; strictly ascending points, one per bin start, each the bin's median |
| Pools.MaxStamp | routes/pools.py:56-59 | the subquery: none exactly when the pool has no row, else the greatest timestamp of its rows |
| Pools.IsLatestIff | routes/pools.py:56-66 | the join condition holds for a row exactly when no row of its pool is newer |
| Pools.LatestMember | routes/pools.py:62-66 | the latest rows are exactly the rows the join condition holds for |
| Pools.LatestKeeps | routes/pools.py:56-66 | a row is kept exactly when no row of its pool is newer, so ties at the maximum are all kept |
| Pools.LatestCovers | routes/pools.py:56-66 | every pool with a row has a latest row |
| Pools.FormatCurrent | routes/pools.py:32-35 | `get_pool`'s comprehension keeps the key set |
| Pools.FormatListed | routes/pools.py:72-77 | the listing comprehension keeps the key set |
| Pools.FormatListedToDict | routes/pools.py:72-77 | on a serialised row the listing comprehension changes nothing |
| Pools.FormatCurrentToDict | routes/pools.py:32-35 | on a serialised row `get_pool`'s comprehension blanks exactly the falsy values |
| Pools.NewestFirst | routes/pools.py:29 | the pool's rows, newest first |
| Pools.NewestFirstHead | routes/pools.py:29 | the query is empty exactly when the pool has no rows, else its head is a latest row of the pool |
| Pools.GetPool | routes/pools.py:27-41 | 200 or 500; 200 exactly when the pool has a row, with a latest row of the pool formatted by `get_pool`'s comprehension |
| Pools.GetPoolUnknownAddress | routes/pools.py:29-41 | an unknown pool is answered with 500 |
| Pools.ZeroTvlBlanked | routes/pools.py:33 | a TVL of 0 is serialised as 0 and shown as '' |
| Pools.GetPoolIntended | routes/pools.py:23-29 | 200 or 404; 404 exactly when the pool has no row; 200 with a latest row exactly as serialised |
| Pools.GetCurrentPools | routes/pools.py:54-79 | one dict per latest row, in order, each the row's `to_dict` |
| Pools.FormatRows | routes/pools.py:129-136 | the append loop yields each row's `to_dict`, in order |
| Pools.HistoryWindow | routes/pools.py:106-117 | a window exactly for `day`, `week`, `month` (case-sensitive) giving 1, 7 and 30 days; the default `1day` has none |
| Pools.HistoryWindowIntended | routes/pools.py:95-106 | with `day`, one of the documented values, as the default: no argument means one day, and any given argument is treated as before |
| Pools.HistoryQuery | routes/pools.py:119-123 | exactly the pool's rows at or after the start, in ascending time |
| Pools.GetPoolHistory | routes/pools.py:104-142 | 200 or 400; 400 exactly for a range other than day/week/month, so always without an argument; 200 with the window's rows serialised in order |
| Pools.ParseMetric | routes/pools.py:162-173 | the lower-cased metric (default `tvl`) picks tvl, volume_day or fees_day; anything else is none |
| Pools.LatestFor | routes/pools.py:176-191 | latest rows only, all with the provider when a non-empty one is given, and none of those left out |
| Pools.TopPools | routes/pools.py:193-195 | min(10, candidates) rows, a sub-multiset of the latest snapshots for the provider: distinct candidates, none repeated |
| Pools.TopPoolsOrdered | routes/pools.py:193 | the rows are non-increasing in the metric |
| Pools.FirstByMetric | routes/pools.py:193 | the ten highest by a metric leave out nothing that beats the last one taken |
| Pools.MetricDominates | routes/pools.py:193 | ranking by the negated metric is ranking by the metric, highest first |
| Pools.TopPoolsDominate | routes/pools.py:176-195 | no candidate left out has a higher metric than the last row; under ten rows means all candidates |
| Pools.TopPoolsAll | routes/pools.py:193-195 | when fewer than ten rows come back, they are all the candidates, each as often as it occurs |
| Pools.GetTopPools | routes/pools.py:161-207 | 200 or 400; 400 exactly for an unknown metric; 200 with the top rows serialised in order |
| Providers.AvgStateSpec | routes/providers.py:60-67 | the running average is the sum over the count of the non-null values |
| Providers.AvgScaled | routes/providers.py:65-67 | `AVG` times the number of non-null values is their sum |
| Providers.AvgAllNull | routes/providers.py:101-103 | an average over only nulls is reported as 0 |
| Providers.NonNullAllPresent | routes/providers.py:60-62 | with no null, the non-null count is the row count and the non-null sum is the plain sum |
| Providers.SumNonNull | routes/providers.py:60-62 | summing a non-nullable column as nullable is summing it |
| Providers.AvgNonNull | routes/providers.py:60-62 | the average of a non-nullable column times the row count is its sum |
| Providers.AvgAllPresent | routes/providers.py:65-67 | with every value present, the average times the count is the plain sum |
| Providers.RollupTvlPerPool | routes/providers.py:63-64 | a rollup has at least one pool, and `avg_tvl_per_pool` times `total_pools` is `total_tvl` |
| Providers.RollupFees | routes/providers.py:60-62 | each fee average times `total_pools` is the provider's fee total |
| Providers.RollupSlippage | routes/providers.py:65 | each of the 1-day, 7-day and 30-day slippage averages skips nulls: times the number of reported slippages it is their sum |
| Providers.ColumnScaled | routes/providers.py:65-67 | `AVG` over one nullable column of a group skips nulls: times the non-null count it is the non-null sum |
| Providers.RollupSlippageNull | routes/providers.py:65-101 | for each of the three periods, a provider none of whose pools reports a slippage gets 0 |
| Providers.ColumnAllNull | routes/providers.py:65-67 | `AVG` over one nullable column of a group that is null throughout is reported as 0 |
| Providers.RollupSlippageAll | routes/providers.py:65 | for each of the three periods, a provider all of whose pools report one gets their plain mean |
| Providers.ColumnAllPresent | routes/providers.py:65-67 | `AVG` over one nullable column of a group with every value present is the plain mean |
| Providers.RollupsGroups | routes/providers.py:68-79 | each rollup is over exactly its provider's selected rows, at least one |
| Providers.RollupsDistinct | routes/providers.py:79 | no provider has two entries |
| Providers.RollupsCover | routes/providers.py:48-82 | the providers listed are exactly the providers of the selected rows |
| Providers.RollupsSingle | routes/providers.py:75-79 | rows of one provider give at most one entry, for it, and one when there is a row |
| Providers.GetProviders | routes/providers.py:46-107 | timestamp is now; one entry per provider of the latest rows (after the filter), each over exactly its rows and with at least one pool |
| Providers.ProvidersFiltered | routes/providers.py:75-79 | with a provider name, at most one entry, for that provider, and exactly one when it has a latest row |
| Providers.RollupsTotals | routes/providers.py:63-79 | the rollups' pool counts and TVL totals are the group sizes and group sums |
| Providers.ProvidersTotals | routes/providers.py:56-79 | `total_pools` values sum to the number of selected rows and `total_tvl` values to their TVL |
| RealTime.Joined | events/real_time.py:14-24 | `join_room` adds the client to the room and changes no other room |
| RealTime.Left | events/real_time.py:19-30 | `leave_room` removes the client from the room and changes no other room |
| RealTime.LeaveAfterJoin | events/real_time.py:14-19 | leaving after joining removes the client and leaves the other members as they were |
| RealTime.JoinIdempotent | events/real_time.py:14 | joining twice is joining once |
| RealTime.OverallStatsOf | events/real_time.py:34-46 | sums of tvl and volume_day over every stored row; the two `COUNT(DISTINCT ...)` values are the numbers of distinct addresses and distinct providers; the clock as timestamp |
| RealTime.AddressesSnoc | events/real_time.py:37-38 | one more row adds its address and provider to the distinct sets |
| RealTime.OverallStatsSnoc | events/real_time.py:34-45 | one more row adds its amounts, and counts a pool or provider once more only when it is new |
| RealTime.OverallStatsBounds | events/real_time.py:37-45 | no more pools or providers than rows, and at least one of each once a row exists |
| RealTime.PoolPayload | events/real_time.py:53-61 | a payload exactly when the pool has a row, carrying a latest row's address, tvl, volume_day and fees_day and the clock |
| RealTime.Hub.Join | events/real_time.py:14 | the room map becomes `Joined`, nothing is sent |
| RealTime.Hub.Leave | events/real_time.py:19 | the room map becomes `Left`, nothing is sent |
| RealTime.Hub.HandleConnect | events/real_time.py:7-10 | one `connection_response` to the connecting client only |
| RealTime.Hub.EmitOverallStatsOnce | events/real_time.py:33-49 | exactly one `overall_stats` message, to the members of the `overall_stats` room |
| RealTime.Hub.EmitPoolDataOnce | events/real_time.py:52-64 | one `pool_update` to the pool's room when the pool has a row, otherwise nothing sent |
| RealTime.Hub.HandleSubscribeOverallStats | events/real_time.py:12-15 | joins `overall_stats` first, so the first message reaches the subscriber |
| RealTime.Hub.HandleUnsubscribeOverallStats | events/real_time.py:17-19 | the client is no longer in `overall_stats` |
| RealTime.Hub.HandleSubscribePool | events/real_time.py:21-25 | joins the room named by the raw address first, so any update reaches the subscriber; a message without `pool_address` changes nothing |
| RealTime.Hub.HandleUnsubscribePool | events/real_time.py:27-30 | the client is no longer in the pool's room; a message without `pool_address` changes nothing |

## Left out

- Database access, sessions, `yield_per` and `first_or_404` internals are not modelled. A query is a function over the rows.
- SQL gives no order for a join or a `GROUP BY` without `ORDER BY`. The model keeps store order, and groups in first-appearance order.
- The order among rows tied on the sort key (top ten, history, newest snapshot) follows a stable sort over store order. The source leaves it unspecified.
- `float(...)` is the identity on reals, and `round(..., 2)` / `round(..., 8)` are omitted. Values are exact.
- `isoformat()` is kept abstract (`Value.Iso`).
- Timestamps are taken to be in UTC.
- `datetime.now` and `time.time()` are parameters (`now`, `clock`).
- `str.lower` is modelled for ASCII letters and the Kelvin sign, which is exact for the keyword comparisons the routes make. Other non-ASCII case mappings are not modelled.
- The `while True` loops, `socketio.sleep(5)` and the concurrency between them are not modelled. One iteration is a step method.
  - Each subscribe really starts a loop that never ends and is not stopped by unsubscribing.
- Socket.IO delivery is abstract: a message's recipients are its room's members at the time of the emit, or the requesting client.
  - Disconnects are not modelled.
  - `error_handler` only prints.
  - A `subscribe_pool` message without `pool_address` is modelled as changing nothing.
- Logging calls and error-message strings are omitted. Only the status is modelled.
- An exception raised by the database is not modelled, so the generic 500 handlers appear only where the model itself reaches them. Those places are:
  - `get_pool` on an unknown pool;
  - `get_slippage` when a median meets a null.
- app.py, config.py and example/websocket_example.py are not part of this model. They hold framework wiring, configuration and a client script.
- Slippage.Window: the contract states only that the window is positive. The exact spans are the definition itself.
- Pools.FormatCurrent, Pools.FormatListed: their own contracts state only the key set. What they do to values is stated by FormatCurrentToDict and FormatListedToDict, on the dicts the routes actually format.
- Providers.GetProviders: the rollup's aggregate fields are member functions of `Rollup` over the provider's rows. Their meaning is stated by the Rollup* lemmas rather than by the route's own contract.

## Where the documentation and the code disagree (the code is followed)

- `get_pool` documents a 404 for an unknown pool, but returns 500.
- `get_pool_history` documents `day` as a range, but its default `1day` is rejected.
- The overall statistics are computed over every stored snapshot, not only the newest snapshot of each pool. They are emitted even to an empty room.
- The pool update's `timestamp` is the clock at emission, not the snapshot's timestamp.
- SQL `AVG` skips nulls rather than treating them as 0. A group with only nulls reports 0.

## Findings

| source | as written | input that shows it | evidently intended | confidence | as-written member | corrected member |
|---|---|---|---|---|---|---|
| routes/pools.py:29-41 | `first_or_404` raises inside the `try`, and the broad `except` answers 500 | any address with no row, e.g. `0x1` on an empty table | 404 for an unknown pool, as the docstring says | not executed | Pools.GetPoolUnknownAddress | Pools.GetPoolIntended |
| routes/pools.py:33 | `value or ''` turns every falsy value into '' | a newest snapshot with tvl 0 is shown with tvl '' | only nulls replaced, as in the other routes, so 0 stays 0 | not executed | Pools.ZeroTvlBlanked | Pools.GetPoolIntended |
| routes/pools.py:106-117 | the default range `1day` is not among the accepted values | a history request without `range` | the documented value `day` as default | not executed | Pools.GetPoolHistory | Pools.HistoryWindowIntended |
