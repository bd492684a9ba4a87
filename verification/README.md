# fadvisor: a verified model

fadvisor prices the nodes and pods of a Kubernetes cluster from a cloud's price list and from metrics kept in
Prometheus. This project models its six stateful or arithmetic parts in Dafny and proves what they guarantee and, where
a guarantee fails, exactly when. `dafny verify dfyconfig.toml` checks all of it.

**Sharded range queries** (`Series`, `Merge`, `Windows`, `ShardFold`, `RangeQuery`, `ShardedQuery`). A window with more
points than the server allows is cut into shards, which are queried concurrently and folded together in the order they
arrive, by a sorted merge that drops repeated timestamps. The server is a function from instants to the series that
exist then; the order of arrival is an arbitrary permutation. The sharded query yields exactly the unsharded result
restricted to the instants the shards cover, and the shards do not always cover the window: each is one step narrower
than the limit, but their number is the point count over the limit.

**The in-flight limiter** (`Limiter`). A transition system over any number of requests, with one step for each critical
section, and the client class whose methods take those steps. Entering `Wait` enqueues and unlocks in one step, and a
wakeup only comes from a `Signal`, as in Go.

**Time series checkpoints** (`CheckpointTable`, `CheckpointSave`, `CheckpointLoad`, `CheckpointRoundTrip`,
`Checkpoints`, `Reloads`, `CheckpointExamples`, with `Text` and `Decimal`). A cache is written as a table of strings
whose header cells are rewritten in place while rows are emitted, and is read back by prefix and running offset.
Containers and workloads share the code here and differ in a `Layout`; the workload loader does not advance past the
memory request block, and neither does the model. Both loaders refuse a header of at most four columns, although
workload tables have only three key columns, so that a workload table needs two sample columns.

**The gauge emitter** (`Emitter`). The mark-and-sweep loop over the nodes, its remembered keys and the three gauge
vectors, over any sequence of successful and failed rounds. Keys are labels joined by commas and are split again to
delete; a tuple with a comma in a label is therefore never deleted, which the theorems account for exactly. Of the five
labels only the provider id is free text, so that is where a comma can come from.

**Node and pod prices** (`ExtReal`, `NodeCost`, `PodCost`, `Exported`). A node's price is split into prices for a core
and a GB, printed with six decimals, and put together again by the emitter. Numbers are reals extended with the
infinities and NaN, following sections 7.2 and 7.3 of IEEE 754-2019. The breakdown takes the instance's cores but the
node's own memory, as the code does.

**Price cache, owners and costers** (`ProviderID`, `Cvm`, `PriceCache`, `Exporter`, `Owner`, `WorkloadIndex`,
`Costers`). The cache of instance prices under refreshes, node additions and deletions, fed by chunked calls, and how
its prices reach the gauges; the search for a root owner and the workload index built on it; and the two costers, which
charge for the hours once and twice.

A method marked here as computing a function is proved equal to it; the properties are proved of the function.

## Model

| member | source | states |
|---|---|---|
| Merge.MergeSortedTimeSeries | pkg/datasource-providers/prom/ctx.go:160-216 | the loops of the program (two inner runs, two leftovers) compute the recursive merge `Merged`, with the first series' labels |
| Merge.MergeMeaning | pkg/datasource-providers/prom/ctx.go:160-216 | on time-sorted inputs with repeats the result is strictly increasing and answers at each time with the first occurrence, the first series winning ties |
| Merge.MergeIsTheOnlyUnion | pkg/datasource-providers/prom/ctx.go:160-216 | the merged timestamps are the union of both inputs' timestamps, and the meaning above determines the result (if and only if) |
| Windows.PointCountIsExact | pkg/datasource-providers/prom/ctx.go:347-350 | the counting loop's result: instant k lies in the window just when k is below the count |
| Windows.ShardCountRoundsUp | pkg/datasource-providers/prom/ctx.go:351-356 | the shard count is the point count over the limit, rounded up |
| Windows.ComputeWindowShards | pkg/datasource-providers/prom/ctx.go:346-378 | the loops produce the shards `Shards`, each from one cut to the next |
| Windows.ShardsFollowTheGrid | pkg/datasource-providers/prom/ctx.go:358-376 | every shard starts on the step grid and has at most the limit's points; every shard but the last has exactly that many and ends where the next begins, even when End is off the grid |
| Windows.ShardsHoldThePrefix | pkg/datasource-providers/prom/ctx.go:346-378 | a grid instant is in some shard just when its index is below `Covered` |
| Windows.CoverageIsExact | pkg/datasource-providers/prom/ctx.go:346-378 | the shards reach min(P, N(M-1)+1) of the P instants; they cover the window if and only if (P-1)/M + (P-1)%M <= M-1, and otherwise lose exactly the excess at the end |
| Windows.TwentyPointsLoseOne | pkg/datasource-providers/prom/ctx.go:346-378 | a concrete window in which the last point is in no shard |
| ShardFold.SortMeaning | pkg/datasource-providers/prom/ctx.go:138-141 | sorting is a permutation, orders by time and keeps the first of equal timestamps first |
| ShardFold.DrainOne | pkg/datasource-providers/prom/ctx.go:136-146 | one shard's results are absorbed into the map, whatever the order of its keys |
| ShardFold.Drain | pkg/datasource-providers/prom/ctx.go:126-147 | draining the channel computes the fold of the successes and collects the errors |
| ShardFold.ErrorsReported | pkg/datasource-providers/prom/ctx.go:130-134 | errors are collected just when some shard failed |
| ShardFold.FoldByMetric | pkg/datasource-providers/prom/ctx.go:127-147 | the folded map holds exactly the metrics some shard reports, each with the fold of its own series |
| ShardFold.FoldSeriesMeaning | pkg/datasource-providers/prom/ctx.go:136-146 | a folded series answers at each time with the earliest arrival that knows it, and is strictly increasing when two shards report it |
| ShardFold.SeriesOrderFree | pkg/datasource-providers/prom/ctx.go:126-147 | agreeing series fold to the same result in any order |
| ShardFold.ArrivalOrderIsIrrelevant | pkg/datasource-providers/prom/ctx.go:126-147 | shard results that agree at shared instants fold to the same map in every order of arrival |
| RangeQuery.ConvertPromResultsToTimeSeriesMap | pkg/datasource-providers/prom/ctx.go:277-328 | every metric of a matrix or vector maps to the points of its last series, each at the whole second it is in, counted toward zero; other kinds are errors |
| RangeQuery.ConvertPromResultsToTimeSeries | pkg/datasource-providers/prom/ctx.go:225-275 | the series of a matrix or vector that are not nil, in order, with a sample for each point at the whole second it is in; other kinds are errors |
| RangeQuery.QueryShard | pkg/datasource-providers/prom/ctx.go:92-121 | what one goroutine sends on the channel |
| RangeQuery.QueryByShards | pkg/datasource-providers/prom/ctx.go:87-158 | the call fails just when some shard does, and lists each folded series once |
| RangeQuery.ListSeries | pkg/datasource-providers/prom/ctx.go:149-151 | the result list names every series of the map once |
| ShardedQuery.StepOfASecond | pkg/datasource-providers/prom/ctx.go:292-294 | with steps of a second or more and a start not before the epoch, no two instants truncate to the same second |
| ShardedQuery.KeptMetrics | pkg/datasource-providers/prom/ctx.go:126-147 | a metric is in the result just when it exists at a covered instant |
| ShardedQuery.ShardedIsRestriction | pkg/datasource-providers/prom/ctx.go:46-216 | for every data set, window, limit and order of arrival, the folded shards are exactly the unsharded result restricted to the covered instants |
| ShardedQuery.LosslessExactlyWhen | pkg/datasource-providers/prom/ctx.go:46-216 | with two shards or more, sharded equals unsharded for all data if and only if the shards cover the window and no two instants share a second |
| ShardedQuery.ShardsAreServed | pkg/datasource-providers/prom/ctx.go:361-376 | no shard asks for more points than the limit, so every shard is answered |
| ShardedQuery.MatrixLists | pkg/datasource-providers/prom/ctx.go:225-252 | an unsharded answer lists exactly the samples of the window |
| ShardedQuery.OneShardIsEnough | pkg/datasource-providers/prom/ctx.go:53-69 | a window within the limit is covered and answered by the single query |
| ShardedQuery.QueryRangeSync | pkg/datasource-providers/prom/ctx.go:46-71 | the query as callers see it: it fails just when the window, or some shard, is not answered; what it lists is read off from the answers, each series once; and against a server that enforces at least the client's limit it lists every series that exists at a covered instant once, in order of time, with a sample in the second of each such instant and no other |
| Limiter.StepKeepsInv | pkg/datasource-providers/prom/prom.go:224-238 | every step keeps: counter = running + woken + waiting, and slots in use = min(counter, maximum); and it uses up rank |
| Limiter.LimitHoldsInEveryRun | pkg/datasource-providers/prom/prom.go:219-238 | in every reachable state the limit holds, no slot idles while a request waits, and the counter is exact |
| Limiter.EveryRunEnds | pkg/datasource-providers/prom/prom.go:219-238 | a run over n requests has at most 3n steps; with a maximum of at least one it is stuck exactly when all requests are done and the counter is zero |
| Limiter.NextStep | pkg/datasource-providers/prom/prom.go:219-238 | with a maximum of at least one, some step is possible until all requests are done |
| Limiter.NoSlotNoProgress | pkg/datasource-providers/prom/prom.go:224-231 | with a maximum of zero or less no request ever runs |
| Limiter.SpuriousWakeupBreaksTheLimit | pkg/datasource-providers/prom/prom.go:224-231 | the `if` around Wait is sound only without spurious wakeups: one such wakeup lets two calls run under a maximum of one |
| Limiter.RateLimitClient.constructor | pkg/datasource-providers/prom/prom.go:143-162 | the counter starts at zero |
| Limiter.RateLimitClient.IncreaseInFlight | pkg/datasource-providers/prom/prom.go:224-229 | the first critical section: count in, then run or wait |
| Limiter.RateLimitClient.ReturnFromWait | pkg/datasource-providers/prom/prom.go:227-231 | a woken request goes on without looking at the counter again |
| Limiter.RateLimitClient.DecreaseInFlightSignal | pkg/datasource-providers/prom/prom.go:233-238 | count out and wake one waiter if there is one |
| Limiter.RateLimitClient.Serve | pkg/datasource-providers/prom/prom.go:219-238 | under any scheduler all requests finish |
| Text.SplitUndoesJoin | pkg/cost-exporter/store/prometheus/prom_emitter.go:92-97 | splitting undoes joining, and gives as many parts, if and only if no part contains the separator |
| Text.JoinUndoesSplit | pkg/cost-exporter/store/prometheus/prom_emitter.go:95-97 | joining undoes splitting, and no piece has the separator |
| Text.JoinInjective | pkg/cost-exporter/store/prometheus/prom_emitter.go:92-97 | the joined key tells comma-free labels apart |
| Decimal.FormatIntParses | pkg/cost-comparator/comparator.go:395-401 | a printed timestamp parses back to itself |
| Decimal.Float642StrParses | pkg/cost-comparator/comparator_reporter.go:267-269 | a printed sample parses back to its value rounded to five decimals, and never reads "null" |
| Decimal.Rounded5IsNear | pkg/cost-comparator/comparator_reporter.go:267-269 | a value to five decimals is a multiple of the fifth, within half of it |
| CheckpointSave.MeasureWidths | pkg/cost-comparator/comparator.go:800-862 | the widths are the greatest sample counts over the cache |
| CheckpointSave.WidthInAnyOrder | pkg/cost-comparator/comparator.go:800-862 | they do not depend on the order in which the cache is ranged over |
| CheckpointSave.EmitBlock | pkg/cost-comparator/comparator.go:898-907 | one block of one row: cells, padding with null, and the header cells rewritten in place with this row's timestamps |
| CheckpointSave.EmitRow | pkg/cost-comparator/comparator.go:896-957 | one row with all its blocks |
| CheckpointSave.EmitRows | pkg/cost-comparator/comparator.go:892-961 | all rows; afterwards every header cell shows the timestamp of the last row with that sample |
| CheckpointSave.Checkpoint | pkg/cost-comparator/comparator.go:793-985 | the saved lines are the table `Table` of the entries, in the order the cache was ranged over; rows of equal length with their keys, and a column for every sample of the first series of every metric |
| CheckpointTable.TableShape | pkg/cost-comparator/comparator.go:865-975 | the table is rectangular, blocks stand in header order, nulls only trail within a block, and every header cell carries its last timestamp |
| CheckpointExamples.ContainerColumns | pkg/cost-comparator/comparator.go:865-975 | the two lines saved for any container with one sample of every metric, written out |
| CheckpointExamples.WorkloadColumns | pkg/cost-comparator/comparator.go:1058-1180 | the two lines saved for any workload with one sample of every metric, written out |
| CheckpointExamples.PrintedSamples | pkg/cost-comparator/comparator_reporter.go:267-269 | samples as they are printed: five decimals, halves to even |
| CheckpointExamples.PrintedTimes | pkg/cost-comparator/comparator.go:898-907 | timestamps as they are printed |
| CheckpointTable.HeaderSplits | pkg/cost-comparator/comparator.go:871-891 | the dash-separated pieces of a header cell, also for negative timestamps |
| CheckpointLoad.CollectHeaders | pkg/cost-comparator/comparator.go:324-352 | the header cells of every metric are found by prefix |
| CheckpointLoad.LoadBlock | pkg/cost-comparator/comparator.go:392-411 | one block of one row: cells that are null or do not parse are skipped, timestamps come from the header |
| CheckpointLoad.LoadLine | pkg/cost-comparator/comparator.go:390-526 | one row with the running offset, advanced past every block but the forgotten one |
| CheckpointLoad.LoadCheckpoint | pkg/cost-comparator/comparator.go:305-537 | loading refuses headers of at most four columns and otherwise decodes every row; equals `LoadTable` |
| CheckpointRoundTrip.HeadersFound | pkg/cost-comparator/comparator.go:332-361 | in a saved header each prefix finds exactly its own block |
| CheckpointRoundTrip.TableIsReadable | pkg/cost-comparator/comparator.go:305-330 | no row of a saved table is indexed out of range |
| CheckpointRoundTrip.LoadOfTable | pkg/cost-comparator/comparator.go:305-526 | loading a saved table gives back its keys and for every metric the series in the skewed columns |
| CheckpointRoundTrip.HeaderTimeOf | pkg/cost-comparator/comparator.go:393-401 | a negative timestamp is read back as zero, any other as itself |
| CheckpointRoundTrip.TimesSurviveExactlyWhen | pkg/cost-comparator/comparator.go:793-985 | timestamps survive if and only if they are not negative and agree across rows, index by index |
| Checkpoints.ContainerRoundTrip | pkg/cost-comparator/comparator.go:305-537 | a container checkpoint loads just when it has a sample; same keys, values to five decimals, timestamps of the last row with that sample |
| Checkpoints.ReloadedIsKept | pkg/cost-comparator/comparator.go:793-985 | it comes back unchanged but for the rounding if and only if timestamps are not negative and agree, metric by metric and index by index |
| Reloads.ReloadContainers | pkg/cost-comparator/comparator.go:272-287 | saving and then loading the container cache, as two runs of the comparator do: refused just when no first series has a sample; every first series comes back with its values to five decimals; and with its timestamps just when these are not negative and match, metric by metric and index by index |
| Checkpoints.WorkloadLoad | pkg/cost-comparator/comparator.go:539-783 | a workload checkpoint loads just when it has two sample columns; what every metric is read as |
| Reloads.ReloadWorkloads | pkg/cost-comparator/comparator.go:289-303 | saving and then loading the workload cache: refused just when there are not two columns of samples; what every metric is read as; and, with no memory requests or nothing after them, every first series comes back just when the timestamps match and are not negative |
| Checkpoints.ReadFromMemRequest | pkg/cost-comparator/comparator.go:689-771 | the first metric after the memory requests that has columns begins with the memory requests, under its own headers, and holds nothing else unless it has more columns than they |
| Reloads.ContainerReloadsExactlyWhen | pkg/cost-comparator/comparator.go:305-537 | a container checkpoint loads and gives every first series back, up to the rounding, if and only if there is a sample and all timestamps are not negative and match |
| Checkpoints.WorkloadRoundTrips | pkg/cost-comparator/comparator.go:539-783 | a workload checkpoint loads and gives everything back if and only if it has two columns of samples and every series is read as it was saved |
| Checkpoints.WorkloadRoundTripsWhenHarmless | pkg/cost-comparator/comparator.go:539-783 | with no memory request columns, or none after them, that is so if and only if there are two columns and the timestamps are not negative and agree |
| Checkpoints.OneColumnIsRefused | pkg/cost-comparator/comparator.go:555-557 | a concrete workload with one sample in all, whose checkpoint is written and then refused |
| Reloads.WorkloadReloadsExactlyWhen | pkg/cost-comparator/comparator.go:539-783 | for workloads with given sample counts, the saved table loads and gives every first series back, for all matching timestamps, if and only if there are two columns of samples or more, and no memory requests or nothing after them |
| NodeCost.ComputeNodeBreakdownCost | pkg/cloudproviders/qcloud/qcloud.go:646-793 | the step-by-step computation gives `BreakdownCost`, and never fails once the configuration is read; the priced node has the node's names, its instance's or its own type and cores, and, for configured prices that are numbers, the bill of its instance as its cost and its shares in the configured proportion, to six decimals, as its hourly costs, with every case of nothing to split |
| NodeCost.GetNodesCost | pkg/cloudproviders/qcloud/qcloud.go:621-644 | the result holds the last real node of every name, priced so from what is cached under the id that its provider id names; virtual nodes are ignored; it fails just without a configuration |
| ExtReal.SpecialCases | pkg/cloudproviders/qcloud/qcloud.go:731-777 | the invalid operations and divisions by zero that the NaN checks look for |
| NodeCost.BreakdownConserves | pkg/cloudproviders/qcloud/qcloud.go:731-777 | the unit prices are numbers that add up to the price in the configured proportion if and only if the configured prices do not make the node free, or the price is zero |
| NodeCost.BreakdownIsTheOnlyOne | pkg/cloudproviders/qcloud/qcloud.go:731-777 | no other unit prices add up to the price in that proportion |
| PodCost.ServerlessPodPrice | pkg/cloudproviders/qcloud/qcloud.go:181-285 | costs and cores print exactly; for configured prices that are numbers the printed hourly costs are the shares of the quoted total in their proportion, to six decimals, with every case of nothing to split; fails just when the quote or the configuration does |
| PodCost.HourlyCostsAddUp | pkg/cloudproviders/qcloud/qcloud.go:224-282 | for every finite configuration: the printed hourly costs add up to the price within e(cpu + ramGB), or within e*cpu when RAM has no default price and cores are charged alone, e half a unit of the sixth decimal; and what is printed where there are no cores to charge or the default prices make the pod free |
| Exported.GaugesAreNumbers | pkg/cost-exporter/store/prometheus/prom_emitter.go:113-139 | for any node text the RAM gauge is finite, the CPU gauge is finite if and only if the field or the configured price is, and the total if and only if the CPU gauge is |
| Exported.ExportShowsFields | pkg/cost-exporter/store/prometheus/prom_emitter.go:113-134 | what each gauge is for any node text: the field, 0 where it is missing, and what stands in where it is infinite or NaN; and the total of these |
| Exported.GaugesShowBill | pkg/cost-exporter/store/prometheus/prom_emitter.go:113-134 | the gauges of any real node at configured prices that are numbers: those prices where there is no bill, and otherwise the shares of the bill to six decimals |
| Exported.ProviderGaugesAreFiniteExactlyWhen | pkg/cost-exporter/store/prometheus/prom_emitter.go:113-139 | every gauge of every node, however priced, is finite if and only if the configured CPU price is: the RAM price is guarded, the CPU price is not |
| Exported.UnpricedNode | pkg/cost-exporter/store/prometheus/prom_emitter.go:113-116 | a concrete node without a known price whose CPU gauge and total are not finite when the configured CPU price is not |
| Exported.ExportedTotal | pkg/cloudproviders/qcloud/qcloud.go:522-793 | the exported total of a priced node is its price within e(cpu + ramGB + ramPrice + e), or within e*cpu without a default RAM price; a node with no default price to split by is exported with total 0 |
| Exported.DefaultTotal | pkg/cloudproviders/qcloud/qcloud.go:494-519 | a node without a known price is exported at exactly the configured prices, with the stated cost |
| Emitter.RemainingExactlyWhen | pkg/cost-exporter/store/prometheus/prom_emitter.go:99-164 | a time series is exported just when its node was in the last successful round, or was in some round and has a comma in a label; with the value given last |
| Emitter.NothingLeaksExactlyWhen | pkg/cost-exporter/store/prometheus/prom_emitter.go:99-164 | exactly the last round's nodes are exported if and only if every node that ever had a comma in a label is still there |
| Emitter.AProviderIDWithACommaLeaks | pkg/cost-exporter/store/prometheus/prom_emitter.go:144-164 | a concrete node, with a comma in its provider id, that GetNodesCost returns and that stays exported after it is gone |
| Emitter.KeySplits | pkg/cost-exporter/store/prometheus/prom_emitter.go:92-97 | a key splits into five labels if and only if none has a comma, and then into the ones joined |
| Emitter.CostMetricEmitter.constructor | pkg/cost-exporter/store/prometheus/prom_emitter.go:76-91 | no time series, no keys |
| Emitter.CostMetricEmitter.Set | pkg/cost-exporter/store/prometheus/prom_emitter.go:136-138 | one time series is set in all three vectors |
| Emitter.CostMetricEmitter.DeleteLabelValues | pkg/cost-exporter/store/prometheus/prom_emitter.go:148-159 | five labels delete that time series from all three vectors; any other number changes nothing |
| Emitter.CostMetricEmitter.Mark | pkg/cost-exporter/store/prometheus/prom_emitter.go:111-142 | the mark loop, in any order of nodes: every node is exported under its name twice, its type, its region and its provider id |
| Emitter.CostMetricEmitter.Sweep | pkg/cost-exporter/store/prometheus/prom_emitter.go:144-164 | the sweep, deleting while ranging, in any order of keys |
| Emitter.CostMetricEmitter.Round | pkg/cost-exporter/store/prometheus/prom_emitter.go:99-164 | a successful round leads to the next state, in which its nodes are exported so and the round has nothing else; a failed answer changes nothing |
| Emitter.CostMetricEmitter.Start | pkg/cost-exporter/store/prometheus/prom_emitter.go:87-174 | after any sequence of successful and failed rounds the three vectors hold what the successful ones have left, the nodes of the last one among them with their gauges, and the last round's keys are remembered, unmarked |
| ProviderID.ParsedIDs | pkg/cloudproviders/qcloud/price_cache.go:96-108 | the instance id put into a provider id comes out, parsing twice is parsing once, and only the empty id parses to the empty one |
| ProviderID.ParseIDExactlyWhen | pkg/cloudproviders/qcloud/price_cache.go:96-108 | the instance id is the second name after the first qcloud:/// that is followed by two, wherever that is in the provider id, or else all of it |
| Cvm.ChunksPartition | pkg/cloudsdk/qcloud/cvm/cvm.go:323-329 | the chunks are the ids in order, none empty or above the limit, all but the last full |
| Cvm.GetCVMInstances | pkg/cloudsdk/qcloud/cvm/cvm.go:314-339 | the chunk loop collects the answers of all chunks, or fails |
| Cvm.DescribedFailsExactlyWhen | pkg/cloudsdk/qcloud/cvm/cvm.go:333-337 | the call fails just when the answer to some chunk is an error |
| Cvm.ChunkingIsInvisible | pkg/cloudsdk/qcloud/cvm/cvm.go:314-339 | against a cloud that answers a list as it does its parts, the result is that of one call with all ids |
| Cvm.PricedExactlyWhen | pkg/cloudsdk/qcloud/cvm/cvm.go:368-420 | an instance is priced just when it was described and its own quote succeeded |
| Cvm.PricedByTheCloud | pkg/cloudsdk/qcloud/cvm/cvm.go:368-416 | the same in terms of what the cloud is asked: instance type, charge type and zone, empty where missing, and what it answers |
| Cvm.GetCVMInstancesPrice | pkg/cloudsdk/qcloud/cvm/cvm.go:362-422 | the pricing loop, which skips what cannot be priced, gives `Priced` |
| PriceCache.RefreshedDomain | pkg/cloudproviders/qcloud/price_cache.go:47-94 | after a refresh the cached ids are (cached before, or priced now) and listed; a new price replaces the old one, a failed quote keeps it |
| PriceCache.CachedExactlyWhen | pkg/cloudproviders/qcloud/price_cache.go:47-193 | after any run of events a price is cached if and only if some event brought it and no later one removed the id or brought another |
| PriceCache.TencentCloud.constructor | pkg/cloudproviders/qcloud/qcloud.go:121-135 | the cache starts empty |
| PriceCache.TencentCloud.GetInstancePrice | pkg/cloudproviders/qcloud/price_cache.go:140-144 | after any run of events: the price that the id's own history leaves |
| PriceCache.TencentCloud.GetQuotes | pkg/cloudproviders/qcloud/price_cache.go:67-74 | describe, then price; fails when either does |
| PriceCache.TencentCloud.RefreshInstancePricingCache | pkg/cloudproviders/qcloud/price_cache.go:47-94 | the refresh acts on every id as `After` says; an error changes nothing |
| PriceCache.TencentCloud.Store | pkg/cloudproviders/qcloud/price_cache.go:77-86 | quotes with an instance id replace what was cached, the last one winning |
| PriceCache.TencentCloud.Prune | pkg/cloudproviders/qcloud/price_cache.go:87-91 | exactly the ids that are not listed are dropped |
| PriceCache.TencentCloud.OnNodeAdd | pkg/cloudproviders/qcloud/price_cache.go:168-193 | the first quote is cached under the node's id; virtual nodes, nil and failures change nothing |
| PriceCache.TencentCloud.OnNodeDelete | pkg/cloudproviders/qcloud/price_cache.go:157-166 | the node's id is dropped and no other |
| PriceCache.TencentCloud.Run | pkg/cloudproviders/qcloud/price_cache.go:125-193 | after any run of events every id is cached as if it were the only one |
| Exporter.Round | pkg/cloudproviders/qcloud/qcloud.go:522-793 | price cache, provider and emitter together: after any run of cache events and any earlier rounds, a good round exports the last real node of every name under the name twice, the type of its instance or else its own, its region and its provider id, with the gauges that its instance's own history bills it at, and adds nothing else |
| Owner.RootExactlyWhen | pkg/util/owner/owner.go:15-46 | the answer is the object without owners at the end of a chain on which each next object is the one that the server has under the first resource that has it, by the first owner's name and kind in the namespace; if and only if there is one |
| Owner.RootIsShared | pkg/util/owner/owner.go:15-46 | every object on the chain has the same answer; a root is its own root |
| Owner.TerminatesExactlyWhen | pkg/util/owner/owner.go:15-46 | on a server with finitely many objects the search ends if and only if no object comes twice on the chain, and then within as many steps as there are objects |
| Owner.CycleNeverEnds | pkg/util/owner/owner.go:15-46 | a chain that comes back to an object goes on for ever |
| Owner.FindRootOwner | pkg/util/owner/owner.go:15-46 | the same, as the contract of the search |
| Owner.FirstOwnerExactlyWhen | pkg/util/owner/owner.go:19-40 | one step: the first owner's resources are tried in order, by its name in the object's namespace |
| Owner.UpExactlyWhen | pkg/util/owner/owner.go:15-46 | k steps lead to the end of a chain of k such owners |
| WorkloadIndex.InitWorkloadsSpec | pkg/cost-comparator/comparator.go:170-220 | the index has an entry for kind, namespace and name just when some pod's root has these, is no job or cron job in any case of letters, and has its replicas known unless it is a pod; it is the first such pod's spec, with those replicas as an unsigned 64-bit number |
| WorkloadIndex.IndexIsUnique | pkg/cost-comparator/comparator.go:170-220 | that determines the index |
| Costers.SumPick | pkg/cost-comparator/coster/serverless_coster.go:27-55 | sums do not depend on the order of the maps |
| Costers.ServerlessTotalCost | pkg/cost-comparator/coster/serverless_coster.go:22-66 | the nested loops compute the total over all kinds but daemon sets, in any case of letters, once by the hours; unpriced workloads cost nothing; the platform price is added |
| Costers.WorkloadCosting | pkg/cost-comparator/coster/recommended_coster.go:107-127 | price by hours, 0 for what cannot be priced |
| Costers.RecommenderTotalCost | pkg/cost-comparator/coster/recommended_coster.go:25-105 | the four totals, each by the hours twice, over the workloads that have the spec in question, each with the platform price added |
| Costers.HoursCountTwice | pkg/cost-comparator/coster/recommended_coster.go:47-56 | over equal specs the recommender's workload cost is the hours times the serverless coster's cost, for any prices and pricing errors |
| Costers.CostersAgreeExactlyWhen | pkg/cost-comparator/coster/serverless_coster.go:22-66 | the two agree if and only if the time span is 3600 s, or the cost is zero or NaN, or it is infinite and the time span positive |

## Left out

- A limit of zero points (the code divides by zero) or a negative one, and a step that is not positive (the counting
  loop does not end): both are preconditions of the window functions.
- A describe limit of zero or less, with which the chunk loop does not advance or slices backwards: a precondition.
- `common.TimeSeries` and `Metric.String()` are not part of this model: sorting is a stable insertion sort, and the
  rendered metric string is identified with the label set. Series are values, so that `SortSampleAsc` sorting the stored
  series in place is seen only through the result of the merge.
- The order of a matrix's labels and of the result list, which come from map iteration: compared as sets.
- Times finer than a millisecond: window bounds and steps are whole milliseconds here, the unit of Prometheus
  timestamps, where the source has nanoseconds.
- An oracle that changes while a query is under way; the goroutines of a query share no state but the channel, and are
  modelled by the order in which they send.
- A matrix value whose Go type is not its stated type: the failed type assertion is not a case of the model.
- Request contexts and timeouts in the limiter, and `Do` itself: only the bracket around an abstract call.
- Goroutines that never finish their call.
- CSV quoting and files: a checkpoint is a sequence of rows. The CSV reader's rejection of rows of unequal length is a
  precondition of loading, and so are columns that carry a metric's prefix but stand among the key columns, at which
  the code would index out of range.
- Exponents, hexadecimal numerals, NaN and infinities in checkpoint cells, and the 64-bit range of timestamps.
- The levels of nested maps (kind, name, container) are keys of one flat map, so that empty inner maps are not seen. This
  holds for the caches and for the workload index; the costers keep the nesting.
- A nil series in a cache, at which the code would fail while emitting its row.
- CheckpointLoad.LoadCheckpoint: requires readable lines, because out-of-range indexing is a run-time panic in the code.
- Owner.FindRootOwner: requires that the chain ends, because on a cycle the code recurses without end;
  TerminatesExactlyWhen says when that is.
- Parsing of API versions, the REST mapper and the dynamic client: one function gives the resources of a kind or an
  error, another fetches an object.
- WorkloadIndex.InitWorkloadsSpec: the pod template is carried along uninterpreted, because Pod2Spec is only a conversion.
- Negative zero, the rounding and overflow of machine floats, and with them the effect of the order of addition: sums
  and products are exact.
- Texts in price fields other than those the provider itself prints, such as numerals out of range.
- Configuration read twice within one pricing of a node: taken to be the same.
- NodeCost.ComputeNodeBreakdownCost: instance and price fields that the code dereferences without a check are taken to
  be present, because a missing one is a panic. Where a configured price is infinite or NaN the costs are only said to
  be those of `BreakdownCost`; `Exported.GaugesAreNumbers` says which of the gauges are then numbers.
- Which node is virtual and which region it is in: fields of the node here.
- Locks of the price cache: each of its methods' updates is one step, and a refresh may be given any list of nodes, also
  an outdated one.
- `GetAllZoneInstanceConfigInfos` and the standard price table: only whether renewing it failed.
- Retries, rate limits and credentials of the cloud clients.
- In the recommender, the totals over the original specs and per kind, which are computed and never read.
- The serverful coster and the platform prices, which are easy folds; platform prices are a parameter.
- Percentile estimation and recommended specs, which depend on libraries that are not part of this model.
- PromQL templates, unique metric keys (dash-joined and not injective), reports, informers, leader election and flags.
