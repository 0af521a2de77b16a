# Verification model of the o11y SDK

A Dafny model of the stateful and combinatorial parts of the `o11y` Go SDK: the protocols that
instrument live clients, the bookkeeping that turns event streams into gauges, the label guards, the
text and log transformations and the shutdown sequence. `dafny verify dfyconfig.toml` checks it all.

What changes in place in the Go code is a class or a method with a loop here, proved against a
function or a relation; the properties are lemmas about those. Goroutines racing over shared state are
state machines whose steps are the code's atomic actions, and their theorems hold in every state of
every run.

| files | what they model |
|---|---|
| `pool_names`, `redis_wrap`, `redis_wrap_inv`, `redis_wrap_guarantees`, `redis_wrap_names` | default pool names and the Wrap / Unwrap / GC-cleanup protocol of `redis/client.go` |
| `resty_wrap` | the twin protocol of `resty/client.go` |
| `mongo_pool`, `mongo_pool_events`, `mongo_pool_truth`, `mongo_tracker` | pool gauges from the event stream; the gauges read off the stream alone; the gauges against the connections really open; the tracker's objects |
| `budget`, `point_merge`, `otlp_points`, `otlp_limiter`, `prom_buckets`, `prom_limiter`, `limiters_agree`, `cap_laws`, `prom_cap_laws` | the cardinality limiter, OTLP and Prometheus, what makes the two export alike, and what each rule's Max bounds |
| `label_names`, `label_claims`, `resource_guard` | label normalisation, reserved keys, Resource guards, `target_info` |
| `log_groups`, `log_baggage` | log grouping, trace identifiers, baggage shadowing |
| `cql_text`, `cql_comments`, `cql_targets`, `cql_names`, `cql_statements` | CQL comment stripping, statement parsing, batch targets; which names each form of statement gives back |
| `repeat` | the bounded suppressor of repeated messages |
| `batch_forwarder` | the JetStream batch forwarder, its reader and Stop |
| `lifecycle` | Shutdown, ForceFlush and deadline shares |

## Where the code and its documentation differ

- `mongo/pool_metrics.go:325-335` says that a misattributed close stays within one connection and
  heals as the pools drain. It does not: when the close of a connection that never became ready takes
  another pool's ready entry, each later checkout and check-in of the connection that is still open
  raises the idle gauge by one more, and draining the pool leaves it there
  (`MongoPool.MisattributedCloseDriftsForever`). `MongoPool.GaugesOnAnyStream` gives the error for
  every event stream; `MongoPoolTruth.StrayCloseIsHarmlessExactly` says which failed handshakes and
  late closes cause one.
- `NormalizePrometheusLabelName` and its streaming comparison differ for targets that start with a
  digit or with `key_` and a digit, and only for those (`LabelNames.StreamingAgreesExactly`). No label
  the SDK reserves is of that kind (`LabelNames.TablesArePlain`).
- The contract of a cap, at most Max distinct real values beside the overflow label
  (`internal/metricscap/reader.go:132-135`), holds of strings. Attribute values of other types count as
  one value together and come out however many they are (`CapLaws.NonStringsAreNotCapped`). On the
  Prometheus side it fails where a rule is restricted to a scope called `other` while another rule caps
  the scope label itself (`PromCapLaws.CappedScopeEscapesTheCap`), and holds otherwise.
- A CQL identifier with an odd number of backticks inside double quotes parses as nothing
  (`CqlTargets.QuotedNameRoundTrips`), and `CqlNames.TableIsReadBackExactly` has the exact condition for
  a name in a statement. A slash right behind the opening of a block comment closes it: a body holding
  no closing is stripped to one space exactly when it does not start with a slash
  (`CqlText.CommentLeavesOneSpaceExactly`), though some of the other bodies still leave the tokens alone.

## Model

| member | source | states |
|---|---|---|
| PoolNames.Allocator.Free | redis/client.go:59-70 | The search over held names answers exactly whether the name is unheld and prefixes no held per-shard name |
| PoolNames.Allocator.Acquire | redis/client.go:45-54 | Terminates with the least number whose name is free, at most the count of held names plus one, and holds that name once |
| PoolNames.Allocator.Hold | redis/client.go:73-77 | Adds one hold on the name and changes no other |
| PoolNames.Allocator.Release | redis/client.go:80-86 | Gives back one hold of this name, none of any other, and goes no lower than zero |
| PoolNames.BlocksAtMostOne | redis/client.go:59-70 | A held name stands in the way of at most one number of a base |
| PoolNames.BlockedNumbersAreBounded | redis/client.go:45-70 | Pigeonhole: k blocked numbers need k held names |
| PoolNames.SomeNumberIsFree | redis/client.go:45-54 | Among one more number than there are held names one is free, so the search ends |
| PoolNames.DecimalReadsBack | redis/client.go:45-54 | The numeral in a pool name has digits from 0 to 9 and no leading zero, and reads back by place value as the number |
| RedisWrapInvariant.NextKeepsInv | redis/client.go:88-117 | Every atomic step of Wrap, Unwrap, cleanup, allocation and collection keeps the protocol's invariant |
| RedisWrapInvariant.RunKeepsInv | redis/client.go:385-483 | The invariant holds in every state of every run of any number of threads |
| RedisWrapGuarantees.AtMostOneEmittingGeneration | redis/client.go:385-483 | Two emitting hook generations of one client are the same one, and it is the table's entry, also when dead clients' addresses are reused |
| RedisWrapGuarantees.WrapLeavesAGeneration | redis/client.go:416-483 | A Wrap that returns without a pre-commit error leaves its client an emitting, named, registered table entry |
| RedisWrapNames.NamingTakesTheLowestFreeName | redis/client.go:422-428 | In every run the step that names an entry takes the caller's own name as it is, or the lowest number on the base that is neither held nor prefixes a held per-shard name; it adds one hold of that name and touches no other entry |
| RedisWrapNames.DefaultNamesAreApart | redis/client.go:30-40 | In no state of any run do two entries that were given default names own the same one |
| RedisWrapNames.CommittedNameIsTheRequested | redis/client.go:422-478 | A Wrap that is about to commit has recorded exactly the name the caller chose, or a number on the default base |
| RedisWrapNames.WrapEndsWithAGenerationOrFails | redis/client.go:385-486 | A Wrap ends either from its client's emitting table entry, or having named an entry, torn it down and taken it out of the table |
| RedisWrapNames.TornDownEntriesAreOff | redis/client.go:494-546 | When an Unwrap or a cleanup unlocks its own client's entry, or a failed Wrap the one it failed on, that entry is out of the table, silent, unregistered, and owns and records no name |
| RedisWrapNames.NoEntryMeansSilent | redis/client.go:502-506 | An Unwrap that finds no entry has no emitting generation to turn off |
| RedisWrapGuarantees.UnlockedEntries | redis/client.go:88-117 | A table entry with a free mutex is not disabled and named exactly when committed; one out of the table is disabled, unregistered and nameless |
| RedisWrapGuarantees.HeldCountsOwners | redis/client.go:422-428 | `held` counts the entries owning each name, unlocked entries own what they record, and no name is released that is not held |
| RedisWrapGuarantees.OnlyUnwrapSilencesALiveClient | redis/client.go:494-546 | A live client's generation stops emitting only through its own Unwrap, never through a cleanup or a stale-entry teardown |
| RedisWrapGuarantees.CollectedClientIsCleanedUp | redis/client.go:534-546 | A table entry of a collected client still has its cleanup pending or under way |
| RedisWrapGuarantees.QuietStatesAreClean | redis/client.go:436-483 | With no operation running, every table entry is fully committed, everything else is off, and the allocator holds exactly the recorded names |
| RestyWrap.NextKeepsInv | resty/client.go:64-146 | Every atomic step of Wrap, cleanup, allocation and collection keeps the invariant of the table |
| RestyWrap.HooksAreInstalledOnce | resty/client.go:64-119 | However often and concurrently a client is wrapped, hooks are installed on it at most once, and exactly once when a Wrap returns |
| RestyWrap.LiveEntriesStay | resty/client.go:135-146 | A live client's entry never leaves the table |
| RestyWrap.WrapNeverGivesUp | resty/client.go:64-119 | A Wrap ends only by returning with its client's hooks installed once; one that unlocks before that tries again |
| RestyWrap.CleanupRemovesItsEntry | resty/client.go:135-146 | A cleanup about to unlock its collected client's entry has taken it out of the table |
| RestyWrap.CollectedClientIsCleanedUp | resty/client.go:114-146 | A table entry of a collected client was committed and still has its cleanup pending or under way |
| MongoPool.StepKeepsBooks | mongo/pool_metrics.go:176-221 | One event of any kind keeps gauges equal to what the state holds, up to the stated drift of idle |
| MongoPool.GaugesOnAnyStream | mongo/pool_metrics.go:264-304 | On every event stream used is the checked-out total, pending and configured sizes are the state's, and idle is ready less checked-out plus the number of unbacked checkouts, less what a last close found missing |
| MongoPoolEvents.GaugesReadOffTheStream | mongo/pool_metrics.go:176-221 | Read off the events alone: pending is the fold of started, checked-out and failed checkouts since the last close, never below zero, timeouts is the number of timed-out checkouts, and the two sizes are the last ones reported since then, or zero |
| MongoPoolEvents.PendingIsStartsLessFinishesExactly | mongo/pool_metrics.go:196-206 | Pending is starts less finishes since the last close if and only if no checkout finished before one had started, and above that otherwise |
| MongoPoolEvents.ConnectionsReadOffTheStream | mongo/pool_metrics.go:368-413 | What is held ready and checked out under an id is the fold of that id's events since the last close |
| MongoPool.IdleIsExactUnlessUnbacked | mongo/pool_metrics.go:378-385 | As long as no last pool closes with more checked out than ready, idle is ready less checked-out exactly when no checkout found ready at most checked-out, and above it otherwise |
| MongoPool.LastCloseZeroesExactly | mongo/pool_metrics.go:444-472 | The last close zeroes used, pending and sizes always, and idle if and only if the drift equals what was missing |
| MongoPool.LateEventsAreHarmless | mongo/pool_metrics.go:387-413 | However many closes and check-ins arrive after the state is gone, they change nothing |
| MongoPool.MisattributedCloseDriftsForever | mongo/pool_metrics.go:323-335 | Concrete stream on which idle ends n too high after n uses of one connection, and stays so once everything is closed |
| MongoPoolTruth.TotalOfExactly | mongo/pool_metrics.go:336-366 | A counter that agrees with the open connections on every id has their number as its total |
| MongoPoolTruth.TakenOutIsBacked | mongo/pool_metrics.go:378-385 | Checking out a connection that really is idle always finds ready above checked-out, whichever pools share the state |
| MongoPoolTruth.StepTracks | mongo/pool_metrics.go:346-413 | Every possible action of every pool, a last close over open connections and late closes included, keeps ready equal to the open connections by id and checked-out at most those in use |
| MongoPoolTruth.GaugesAddUpToTheOpenConnections | mongo/pool_metrics.go:176-221 | In every run of any number of pools with colliding ids, which close before their connections and are created again, used plus idle is the number of open connections the address still has, used at most and idle at least the true one, both zero when nothing is open; a close of a connection not open must come under an id no open one has |
| MongoPoolTruth.LastPoolTakesEverythingWithIt | mongo/pool_metrics.go:451-472 | In every such run the last pool's close brings all gauges to zero, whatever is open |
| MongoPoolTruth.StrayCloseIsHarmlessExactly | mongo/pool_metrics.go:397-413 | After any run, the close of a connection that never became ready, or whose pool is gone, keeps the sum right if and only if no open connection of any pool has its id, and takes one off it otherwise |
| MongoPoolTruth.WorldAfterIsRun | mongo/pool_metrics.go:176-221 | What the pools do reaches the tracker as the event stream of their ids |
| MongoPoolTruth.UnambiguousIdsAreExact | mongo/pool_metrics.go:368-413 | While no two open connections come under one id and no gone one is checked in under an id in use, used and idle are the true counts, pools closing and created again included |
| MongoPoolTruth.OnePoolIsExact | mongo/pool_metrics.go:368-413 | With one pool that never uses an id twice, failed handshakes and late closes included, used and idle are the true counts after every event |
| MongoTracker.LiveConnections.Insert | mongo/pool_metrics.go:347-350 | Counts one more connection under the id, in the map and in the total |
| MongoTracker.LiveConnections.Remove | mongo/pool_metrics.go:354-366 | Drops one connection under the id, reports exactly whether there was one, and keeps map and total together |
| MongoTracker.PoolState.SetOptions | mongo/pool_metrics.go:270-304 | Moves the two size gauges to the configured or remembered sizes as specified, touching no other address |
| MongoTracker.PoolState.CloseConnection | mongo/pool_metrics.go:404-413 | Unwinds the connection from used or idle as specified, and ignores one that was never ready |
| MongoTracker.PoolState.ClosePool | mongo/pool_metrics.go:455-472 | Takes exactly what the state has on the gauges off them |
| MongoTracker.PoolTracker.Handle | mongo/pool_metrics.go:176-230 | One event moves its address's state and gauges as `MongoPool.Handle` says and no other address's; a disabled tracker does nothing |
| Budgets.Bucket.Observe | internal/metricscap/reader.go:155-166 | The in-place admission is the specification's one |
| Budgets.LabelsAreFixed | internal/metricscap/reader.go:129-166 | Over any run at most Max values are admitted and every exported label is what the final state gives: admitted stays admitted, collapsed stays collapsed |
| Budgets.AdmittedAreTheFirstDistinct | internal/metricscap/reader.go:129-166 | A value is admitted if and only if fewer than Max distinct values came before its first occurrence |
| PointMerge.MergePoints | internal/metricscap/reader.go:417-430 | The merge loop with its index map puts out, per key in order of first appearance, the combination of exactly the points with that key |
| PointMerge.MergedKeys | internal/metricscap/reader.go:417-430 | The output has the input's keys, each once |
| PointMerge.MergedConserves | internal/metricscap/reader.go:465-479 | Any quantity that combining adds up has the same total before and after |
| PointMerge.MergedOfDistinct | internal/metricscap/reader.go:417-430 | Points with distinct keys come out unchanged |
| PointMerge.MergedCommutes | internal/metricscap/reader.go:278-291 | Merging commutes with any translation of points that carries keys and combination |
| OtlpPoints.RewriteAttributes | internal/metricscap/reader.go:398-415 | The loop over a set's attributes rewrites the capped one by one observation, as specified |
| OtlpPoints.AddCountsInPlace | internal/metricscap/reader.go:442-446 | Adds the source's bucket counts into the destination up to its length, and nothing else |
| OtlpPoints.RewriteMetric | internal/metricscap/reader.go:345-396 | Rewriting all points and merging them by kind is the specified rewrite, and leaves the bucket in its specified state |
| OtlpPoints.RewritingIsRelabelling | internal/metricscap/reader.go:398-415 | Rewriting while the budget fills gives what the final admission map gives on every point |
| OtlpPoints.RewriteIsAQuotient | internal/metricscap/reader.go:345-479 | The output is the merge of the points by the final admission map: sets pairwise distinct, and exactly the relabelled ones |
| OtlpPoints.HistogramTotalsAreConserved | internal/metricscap/reader.go:417-458 | Total Count and Sum are the same before and after |
| OtlpPoints.BucketTotalsAreConserved | internal/metricscap/reader.go:439-446 | With equally many buckets in every point each bucket's total is conserved |
| OtlpPoints.SumTotalIsConserved | internal/metricscap/reader.go:465-479 | The total of a sum metric is conserved |
| OtlpPoints.CombinedHistogram | internal/metricscap/reader.go:439-458 | A merged point has the first's set and bounds, the least minimum and greatest maximum any recorded, all exemplars in order, and the summed count and sum |
| OtlpPoints.CombinedSum | internal/metricscap/reader.go:465-479 | Merged sum points add up under the first one's set, with every exemplar in order |
| OtlpPoints.CombinedGauge | internal/metricscap/reader.go:481-495 | Of merged gauge points the last stands |
| OtlpLimiter.Limiter.BucketFor | internal/metricscap/reader.go:109-120 | The bucket of the rule's budget, created on first use with the rule's Max, all others unchanged |
| OtlpLimiter.Limiter.Rewrite | internal/metricscap/reader.go:80-107 | The loops over scopes, metrics and matching rules do the specified rewrite in place |
| OtlpLimiter.RewriteIsIdempotent | internal/metricscap/reader.go:80-93 | A second Rewrite of a result changes nothing, with any rules and shared budgets and whatever was admitted in between |
| OtlpLimiter.RewriteUsesTheFinalBudgets | internal/metricscap/reader.go:80-107 | Every metric comes out relabelled and merged, one stage for each matching rule in order, under the budgets as the whole Rewrite leaves them |
| OtlpLimiter.SharedBudgetsAgree | internal/metricscap/reader.go:109-120 | For any two metrics in the input and any matching rule of each that share a BudgetKey, both stages relabel by one and the same budget, so a value gets the same label, and overflows, in both or in neither |
| CapLaws.AtMostMaxValuesComeOut | internal/metricscap/reader.go:109-135 | Over all the metrics a rule without a BudgetKey names, at most Max distinct values come out under its key beside the overflow label; stated on the attribute sets put out |
| CapLaws.AtMostMaxValuesStay | internal/metricscap/reader.go:129-166 | When at most Max distinct values go in, every metric the rule names comes out with exactly the values it had under the key |
| CapLaws.NoMoreThanTheCapComesOut | internal/metricscap/reader.go:109-120 | Over all the rules and metrics that share a budget, no more distinct values come out than the Max of the rule that drew on it first |
| CapLaws.FittingValuesComeOutUnchanged | internal/metricscap/reader.go:109-166 | And when what reaches the budget fits that Max, each metric keeps its values |
| CapLaws.NonStringsAreNotCapped | internal/metricscap/reader.go:398-415 | Values that are not strings share one slot and all come out, whatever Max is |
| CapLaws.UnnamedMetricsAreUntouched | internal/metricscap/reader.go:95-107 | A metric whose name and scope no rule matches comes out as it went in |
| CapLaws.ExportsRunTogether | internal/metricscap/reader.go:80-93 | Two exports through one limiter give what one export of both does, so the caps bound all exports together |
| PromBuckets.MergeByBound | internal/metricscap/reader.go:322-343 | For any two lists: index by bound, add or append, then sort is the specified merge |
| PromBuckets.MergedBucketsKeepEverything | internal/metricscap/reader.go:322-343 | For any two lists, repeated and unsorted bounds included, the merged bounds never fall and each bound records what the two lists record there together |
| PromBuckets.MergedBucketsIsTheMerge | internal/metricscap/reader.go:322-343 | On sorted lists it is the two-way merge of sorted lists |
| PromBuckets.MergeBucketsRecords | internal/metricscap/reader.go:325-339 | The two-way merge records at each bound the sum of what the two lists recorded there, and no other bound |
| PromBuckets.MergedIsSorted | internal/metricscap/reader.go:340-342 | Merged bounds rise strictly |
| PromBuckets.SortedIsDetermined | internal/metricscap/reader.go:340-342 | A sorted bucket list is determined by what it records at each bound |
| PromBuckets.CumulativeCommutes | internal/metricscap/reader.go:322-343 | On equal rising bounds, merging cumulative lists is accumulating the merged counts |
| PromLimiter.RewriteFamilySeries | internal/metricscap/reader.go:231-239 | The loop over a family's series, relabelling those in scope, then merging, is the specified rewrite |
| PromLimiter.PrometheusLimiter.Rewrite | internal/metricscap/reader.go:221-265 | The loops over families and rules, with buckets created on first use, do the specified rewrite in place |
| PromLimiter.LimitersAgree | internal/metricscap/reader.go:221-343 | For any rules, sharing budgets or not, on any metrics in scopes told apart by their labels, the Prometheus limiter makes of the rendered families the rendering of the OTLP merges applied rule by rule, down to each cumulative bucket and every budget left behind |
| LimitersAgreement.ScrapeUsesTheFinalBudgets | internal/metricscap/reader.go:221-265 | Every scope of every metric in a scrape comes out relabelled and merged rule by rule under the budgets as the whole scrape leaves them |
| LimitersAgreement.SameBudgetsSameExport | internal/metricscap/reader.go:80-93 | An export and a scrape that leave the same budgets behind give a scope's points of a metric the same result, whatever order each met the values in |
| PromCapLaws.AtMostMaxValuesComeOut | internal/metricscap/reader.go:221-265 | In a scrape, over the families a rule without a BudgetKey names, at most Max distinct values come out under its label in the series of its scope beside the overflow label, unless the scope label itself is capped and some rule is about a scope called `other` |
| PromCapLaws.CappedScopeEscapesTheCap | internal/metricscap/reader.go:221-265 | Concrete rules of that kind, of Max one, under which two values come out |
| PromCapLaws.AtMostMaxValuesStay | internal/metricscap/reader.go:221-276 | When at most Max distinct values go in, every family comes out with exactly the values it had in the series the rule is about |
| PromCapLaws.NoMoreThanTheCapComesOut | internal/metricscap/reader.go:254-265 | Over all the rules and families that share a budget, no more distinct values come out than the Max of the rule that drew on it first |
| PromCapLaws.UnnamedFamiliesAreUntouched | internal/metricscap/reader.go:225-229 | A family no rule names comes out as it went in |
| PromCapLaws.ScrapesRunTogether | internal/metricscap/reader.go:221-242 | Two scrapes through one limiter give what one scrape of both does |
| PromLimiter.MergedSeriesRise | internal/metricscap/reader.go:322-343 | Every series of the rewritten family is the rendering of a merged point; its cumulative buckets are nondecreasing and, with exactly what that point counts beyond the last bound, end at the merged sample count |
| PromLimiter.CounterTotalsAreConserved | internal/metricscap/reader.go:302-315 | A family of counters, or of untyped values, keeps its total |
| PromLimiter.CombinedGaugeSeries | internal/metricscap/reader.go:306-319 | Of merged gauge or summary series the last stands, with its timestamp |
| LabelNames.NormalizeLabelName | internal/metrics/reserved.go:199-229 | The loop with its builder produces the normalised label |
| LabelNames.NormalizedIsALabel | internal/metrics/reserved.go:199-229 | An unreserved key becomes a label without double underscores or leading digit that keeps the key's alphanumerics in order |
| LabelNames.NormalizeIsIdempotent | internal/metrics/reserved.go:199-229 | Normalising again changes nothing, for every key, nested reserved ones included |
| LabelNames.OwnLabelExactly | internal/metrics/reserved.go:199-229 | An unreserved key is its own label if and only if it consists of ASCII letters, digits and single underscores and starts with no digit |
| LabelNames.NormalizeOneMore | internal/metrics/reserved.go:206-220 | One more character at the end of a key adds itself when it is an ASCII letter or digit, else an underscore unless one stands there already |
| LabelNames.NormalizeOfOne | internal/metrics/reserved.go:206-227 | A letter is its own label, a digit gets `key_` before it, anything else becomes an underscore |
| LabelNames.NormalizedMatchLen | internal/metrics/reserved.go:159-180 | The allocation-free walk finds the longest common prefix of the target and the squashed key it never builds, and whether the key ran out within it |
| LabelNames.NormalizedEquals | internal/metrics/reserved.go:142-145 | True exactly when the squashed key is the target |
| LabelNames.NormalizedHasPrefix | internal/metrics/reserved.go:149-152 | True exactly when the squashed key starts with the prefix |
| LabelNames.StreamingAgreesExactly | internal/metrics/reserved.go:142-229 | For a squashed target, streaming and materialised comparison agree on all keys if and only if the target starts neither with a digit nor with `key_` and a digit |
| LabelNames.GroupByFirst | internal/metrics/reserved.go:57-82 | The table groups exactly the reserved labels by their first byte |
| LabelNames.DispatchLosesNothing | internal/metrics/reserved.go:84-116 | Looking only at the group of the key's first byte finds a reserved label exactly when the normalised key is one |
| LabelNames.IsReservedAttributeKey | internal/metrics/reserved.go:84-116 | True if and only if the key is empty, has the double-underscore shape, has no alphanumeric, or normalises to a scope label or a reserved one |
| LabelNames.IsReservedByThePackage | internal/metrics/reserved.go:54-116 | The same for the table the package builds from its own labels |
| LabelNames.TablesArePlain | internal/metrics/reserved.go:57-82 | Every label the package reserves starts with a lower-case letter other than k, as the dispatch needs |
| LabelClaims.FirstKeyLastValue | options.go:414-468 | Attributes added one by one under a label guard end as the first claimant of each label, each with its last value |
| ResourceGuard.Config.AddOne | options.go:414-452 | An attribute is taken or refused with one warning exactly as the guard says |
| ResourceGuard.Config.Append | options.go:454-468 | Replaces the same key in place, refuses an alias of another, appends otherwise |
| ResourceGuard.Config.WithResourceAttributes | options.go:414-452 | Any number of calls together equal the specified fold |
| ResourceGuard.OptionCallsAddUp | options.go:414-468 | On each label the first acceptable key is kept, with the last value given for it |
| ResourceGuard.ResourceKeyOwner | internal/metrics/resourcekeys.go:66-80 | Finds the owned key whose label the key would share, and whether it is an identity key |
| ResourceGuard.EnvResourceAttributes | internal/metrics/resourcekeys.go:130-192 | The loop with its table of seen labels keeps and drops what the guard specifies |
| ResourceGuard.KeptEnv | internal/metrics/resourcekeys.go:130-192 | Kept keys have labels of their own, apart from the caller's, every environment key is kept or dropped, never both |
| ResourceGuard.EnvKeyIsKeptExactly | internal/metrics/resourcekeys.go:130-192 | An environment attribute is kept if and only if its key is one of the SDK's, or acceptable with a label that no other key of the caller's and no attribute kept before it has |
| ResourceGuard.SimpleKeysHaveOwnLabels | internal/metrics/resourcekeys.go:59-64 | Two keys the SDK owns never share a label, and each is a valid one |
| ResourceGuard.MergePrecedence | o11y.go:826-861 | Identity values and the caller's values always reach the Resource unchanged |
| ResourceGuard.EnvValuesReachTheResource | o11y.go:826-861 | A kept environment attribute that neither detectors, caller nor identity set has the environment's value in the Resource, and no environment key is there that was neither kept nor set by one of those |
| ResourceGuard.FinalLabelsAreApart | o11y.go:826-861 | For every environment, option sequence and identity no two keys of the final Resource render as the same label, and each renders as a valid one |
| ResourceGuard.DroppedKeysStayNeutral | internal/metrics/resourcekeys.go:194-206 | Merging the raw environment under the neutralised Resource leaves every dropped key empty and everything else as the guarded Resource has it |
| ResourceGuard.TargetInfoLabels | internal/metrics/targetinfo.go:53-78 | The loop returns the first valid attribute per label |
| ResourceGuard.TargetInfoIsFirstPerLabel | internal/metrics/targetinfo.go:53-78 | Each label has the value of the first valid attribute rendering to it |
| ResourceGuard.TargetInfoLabelsAreAllThere | internal/metrics/targetinfo.go:53-78 | Labels never repeat and every valid key's label is there |
| ResourceGuard.TargetInfoDropsNothing | internal/metrics/targetinfo.go:53-78 | On a guarded Resource there is one label per attribute with its own value: nothing is dropped |
| ResourceGuard.SdkPolicyIsOk | internal/metrics/resourcekeys.go:21-52 | The SDK's own keys and labels satisfy what the guards rely on |
| LogGroups.Regroup | internal/log/handler.go:93-124 | The loop from the innermost group outward nests the record's attributes, below the identifiers |
| LogGroups.ResolveAttrIsInvisible | internal/log/handler.go:270-318 | Resolving changes nothing a reader sees, leaves no LogValuer at any depth, and reports a change exactly when there was one |
| LogGroups.RegroupingIsNativeGrouping | internal/log/handler.go:93-124 | Re-nesting at Handle time renders as opening the groups beneath would have |
| LogGroups.DerivedStandsFor | internal/log/handler.go:131-168 | After any derivations, base and held groups together surround every record as native slog would |
| LogGroups.IdentifiersStayAboveTheGroups | internal/log/handler.go:70-168 | For every derivation history and record the output is the native tree with the identifiers inserted above every group, at the stated place |
| LogGroups.ValidSpanPutsBothFieldsOnTop | internal/log/handler.go:70-87 | Under a valid span context traceId and spanId are top-level fields whatever groups are open, and without them the native output remains |
| LogGroups.WithoutSpanTheHandlerIsInvisible | internal/log/handler.go:70-78 | Without a valid span context output is the native one, for any base |
| LogGroups.OutsideGroupsNestTheIdentifiers | internal/log/handler.go:36-37 | Groups opened on the base beforehand surround all this handler writes |
| LogBaggage.SuppressShadowed | internal/log/handler.go:333-354 | Strikes out in place exactly the baggage whose keys the attribute occupies at its own level |
| LogBaggage.Handle | internal/log/handler.go:191-235 | The record handed on is the resolved record followed by the baggage that is not shadowed, as specified |
| LogBaggage.BaggageNeverShadows | internal/log/handler.go:191-268 | The record keeps all it showed; the baggage added is exactly that whose keys are borne, shown or not, by no attribute of the record's own level and none installed since the innermost group was opened |
| LogBaggage.PresetKeysAreTheLevels | internal/log/handler.go:243-268 | The keys a logger keeps are those its attributes since the innermost group bear, and no others |
| LogBaggage.DerivationsPassThrough | internal/log/handler.go:243-268 | Deriving through this handler surrounds records as deriving the base would |
| CqlText.CopyQuoted | cassandra/attributes.go:84-93 | Copies a quoted run verbatim up to its closing quote |
| CqlText.StripComments | cassandra/attributes.go:79-116 | The index loop terminates and computes the stripped statement |
| CqlText.StripIsIdempotent | cassandra/attributes.go:79-116 | Stripping a stripped statement changes nothing |
| CqlText.StripSplits | cassandra/attributes.go:79-116 | After whitespace outside quotes and comments, stripping works on the two halves separately |
| CqlText.FieldsAreTheTokens | cassandra/attributes.go:48-50 | Fields are the maximal runs without whitespace, in order and with nothing lost |
| CqlText.CommentsDoNotChangeTokens | cassandra/attributes.go:79-116 | A block comment put after whitespace outside quotes and comments leaves the tokens as they were |
| CqlText.CommentLeavesOneSpaceExactly | cassandra/attributes.go:103-109 | A comment whose body holds no closing leaves one space and nothing else, whatever follows, if and only if the body does not start with a slash |
| CqlComments.LineCommentLeavesASpace | cassandra/attributes.go:94-102 | A comment from `--` or `//` to the end of the line leaves one space, whatever is in it |
| CqlComments.LineCommentsDoNotChangeTheParse | cassandra/attributes.go:48-55 | Such a comment at the start or after whitespace outside quotes and comments leaves operation, keyspace and table as they were |
| CqlComments.UnendedCommentsEndTheStatement | cassandra/attributes.go:94-109 | A comment that never ends leaves nothing behind it, and the parse is that of what stands before it |
| CqlComments.WhiteSpaceSeparatesExactly | cassandra/attributes.go:48-50 | A character between two words separates them if and only if it is one of Unicode's white space characters |
| CqlTargets.CommentsDoNotChangeTheParse | cassandra/attributes.go:48-55 | Operation, keyspace and table are unchanged by such a comment |
| CqlTargets.ParsingIgnoresStripping | cassandra/attributes.go:48-55 | Stripping first makes no difference to the parse |
| CqlTargets.QuotedNameRoundTrips | cassandra/attributes.go:229-241 | A quoted name is read back if and only if it has an even number of backticks |
| CqlTargets.TickedNameRoundTrips | cassandra/attributes.go:229-241 | A name between backticks is read back if and only if it has an even number of double quotes |
| CqlTargets.QualifiedNameRoundTrips | cassandra/attributes.go:196-241 | A quoted keyspace, dots included, and a quoted table in one token are told apart whatever clause follows, and each is read back if its backticks pair and dropped if not |
| CqlNames.QuotedIsCopied | cassandra/attributes.go:84-93 | A string literal, a quoted name or one between backticks is left alone by the scanner whatever it holds and whatever follows |
| CqlNames.TableIsReadBackExactly | cassandra/attributes.go:48-55 | Behind the keyword of any SELECT, INSERT, UPDATE or DELETE the parse reports a quoted table if and only if it has no whitespace, dot or clause character and its backticks pair |
| CqlNames.QualifiedIsReadBackExactly | cassandra/attributes.go:48-55 | The same for a quoted keyspace and table, where the keyspace may hold dots |
| CqlStatements.NameIsReportedExactly | cassandra/attributes.go:123-241 | A table named plainly, in quotes or between backticks behind the keyword of any SELECT, INSERT, UPDATE or DELETE, of a TRUNCATE with or without TABLE, or of a CREATE, DROP or ALTER TABLE with or without IF NOT EXISTS, is reported if and only if it has no whitespace, dot or clause character and its quotes of the other kind pair; the keyspace of a CREATE, DROP or ALTER KEYSPACE likewise |
| CqlStatements.DottedIsReportedExactly | cassandra/attributes.go:123-241 | In the same forms a keyspace and table joined by a dot are reported as both halves under the same condition, where the keyspace may hold dots |
| CqlStatements.OperationIsReported | cassandra/attributes.go:48-55 | The operation is the statement's first word in upper case |
| CqlStatements.UpperForgetsCase | cassandra/attributes.go:123-156 | Upper-casing is the same for text and its lower-case form, and leaves text without lower-case letters as it is |
| CqlTargets.AfterKeywordIsTheFirst | cassandra/attributes.go:149-156 | The target is the token after the first occurrence of the keyword |
| CqlTargets.TableHasNoDot | cassandra/attributes.go:196-210 | A parsed table never contains a dot |
| CqlTargets.JoinedKeyIsInjective | cassandra/batch.go:187-201 | The joined comparison key confuses no two targets whose tables have no dot |
| CqlTargets.ResolveTargets | cassandra/batch.go:164-208 | The pass with its conflict flags finds the one keyspace shared by all statements and the one table in it, or neither |
| CqlTargets.BatchTargets | cassandra/batch.go:164-208 | For every batch: the keyspace is the one every statement's own parse works in, the session's standing in where it names none, and the table the one every statement addresses in one keyspace, or each is empty; an empty batch reports the session's keyspace |
| Repeat.Suppressor.SuppressedAt | internal/repeat/repeat.go:45-70 | Purge, evict and record do one step of the specified relation |
| Repeat.Suppressor.EvictOldest | internal/repeat/repeat.go:57-67 | The scan removes an oldest entry and nothing else |
| Repeat.TableIsBounded | internal/repeat/repeat.go:45-70 | The table never exceeds maxEntries |
| Repeat.LastPassIsTheLast | internal/repeat/repeat.go:68-69 | No call after the one taken for a message's last pass let the message through |
| Repeat.SuppressedWasLetThrough | internal/repeat/repeat.go:49-51 | A suppressed message was let through less than one window earlier |
| Repeat.EscapeTakesMaxOthers | internal/repeat/repeat.go:57-68 | With a nondecreasing clock a message passes again inside its window only after maxEntries distinct others passed at or after its own last pass |
| Repeat.WithoutEvictionTheBoundIsInvisible | internal/repeat/repeat.go:45-70 | Runs that never find the table full decide as the unbounded suppressor does |
| Repeat.FewMessagesNeverNotice | internal/repeat/repeat.go:26-32 | No more distinct messages than maxEntries is enough for that |
| Repeat.WindowsThatFitNeverNotice | internal/repeat/repeat.go:45-70 | So is fewer than maxEntries others let through within one window before each call, however many messages there are in all |
| Repeat.OnlyTheWindowIsKept | internal/repeat/repeat.go:52-69 | After a call that let its message through the table holds it, and else only messages let through less than a window before, each with the time it last passed |
| BatchForwarder.RunKeepsInv | nats/jetstream.go:537-602 | The invariant of forwarder, channel, reader and Stop holds after every run |
| BatchForwarder.InOrderWithoutLoss | nats/jetstream.go:548-561 | Delivered, buffered and in-hand messages are in order a prefix of what the upstream sent: all the forwarder received, but for one at most once Stop was called |
| BatchForwarder.ClosedMeansComplete | nats/jetstream.go:540-552 | Without Stop the channel is closed only when everything was forwarded, and never before the fetch context is released |
| BatchForwarder.FetchIsReleasedExactly | nats/jetstream.go:541-602 | The fetch context is released exactly when the forwarder has got to closing the channel or Stop past that step, and without Stop never before the whole batch was forwarded |
| BatchForwarder.EndMeansAllRead | nats/jetstream.go:574 | Without Stop a reader that sees the end has received the whole batch |
| BatchForwarder.WaitsExactly | nats/jetstream.go:548-560 | The forwarder has no step exactly when it is done, or, before Stop, with nothing to receive from an open upstream or nowhere to put what it holds |
| BatchForwarder.StepsAreBounded | nats/jetstream.go:543-561 | Whatever the others do, the forwarder's steps are bounded by what had arrived and two per message arriving since |
| BatchForwarder.StopReleasesTheForwarder | nats/jetstream.go:593-602 | After Stop the forwarder takes boundedly many steps and always has one until it has exited |
| BatchForwarder.SmallBatchNeedsNoReader | nats/jetstream.go:521-526 | A closed upstream with at most bufSize messages is drained to the end though nobody reads |
| BatchForwarder.UnreadMeansItFits | nats/jetstream.go:521-526 | And only then: an unread, unstopped forwarder that finished had at most bufSize messages |
| Lifecycle.ShutdownBudget | o11y.go:335-345 | Whatever the two clock readings, the derived context has a deadline exactly when the given one has, and never a later one |
| Lifecycle.DerivedDeadline | o11y.go:335-345 | With a deadline and more than one component, the derived deadline is the caller's own, or before it and later than the second reading by the even share of the time left at the first, rounded down; it is the caller's own exactly when that share is not positive or reaches it |
| Lifecycle.CloserGetsItsShare | o11y.go:197-200 | In every run the closer that starts is the next in order, has before the deadline at least the even share of what is left among those still to run, and the last has the whole of it |
| Lifecycle.NextShare | o11y.go:335-345 | For any two clock readings, a component that returns before its derived context ends leaves each of the rest a truncated share smaller by at most the time between the readings, and no smaller when it ends within its share of the first |
| Lifecycle.PunctualComponentsMeetTheDeadline | o11y.go:196-206 | For any clock readings, components that return before their derived contexts end all end by the overall deadline; when each also ends within its share the shares never shrink and each context lasts at least the even split of the whole time |
| Lifecycle.EachCloserOnceInOrder | o11y.go:185-210 | Under any interleaving closers are started in order, each once, and a Shutdown call returns only after all of them |
| Lifecycle.CloserDeadlinesStayWithin | o11y.go:197-200 | No closer runs under a later deadline than Shutdown's |
| Lifecycle.WaitGroupCoversFlushes | o11y.go:239-254 | The wait group counts exactly the flushes that have not returned, and the running count those still at work |
| Lifecycle.RunAddsNoFlush | o11y.go:240-244 | Once Shutdown is marked as started flushes only drain |
| Lifecycle.FlushesFinishBeforeClosers | o11y.go:186-200 | A Shutdown with a deadline starts no closer under a flush it found running before the wait share ends or its context is cancelled; the wait share is at least an even one among the wait and the closers |

## Left out

- The SDKs, drivers and exporters underneath (OpenTelemetry, Prometheus, go-redis, resty, mongo, gocql, NATS): environment steps, event streams or abstract functions.
- Integer widths: counts, sizes, byte totals and durations are unbounded; `int64`/`uint64` wrap-around is not modelled. Floating-point sums and bounds are reals.
- Aliasing of slices (`slices.Clip`, `Record.Clone`): attribute lists are values, so one handler writing into another's array is not expressible.
- Stateful LogValuers: a LogValuer stands for one value; how often it is called is modelled only as its absence after resolving.
- Strings are sequences of characters and upper-casing is ASCII only; invalid UTF-8 and Unicode case folding are not part of the model.
- Nil receivers, nil clients and nil events, and error and warning texts; warnings are counted.
- Weak pointers and the garbage collector: a client dies when no operation holds it, and its address may then be reused; steps are atomic and sequentially consistent.
- Best-effort hook installation in `redis.Wrap`: a failed installation commits like a successful one, as in the code, and its returned error is not modelled.
- Fairness: a pending cleanup in `redis` or `resty` is shown to be pending or under way, not that the runtime ever runs it.
- Several addresses in one theorem about gauges: the theorems are per address, and `MongoTracker.PoolTracker.Handle` shows that addresses do not touch each other.
- PromBuckets.MergeByBound: sorts stably; the code's sort does not, so among repeated bounds its order may differ.
- PromLimiter.LimitersAgree: a metric's points share one list of rising bounds and have string attributes whose keys render as themselves, every series carries its scope's labels, which differ between scopes (two scopes told apart by nothing that is rendered are excluded), no rule caps one of those labels, and a scope a rule leaves alone has one point per attribute set.
- LimitersAgreement.SameBudgetsSameExport: which inputs leave the same budgets behind is not characterised; the limiters meet values in different orders, so under one shared, full budget they may admit different ones.
- Prometheus series are identified by their label sets, not by the joined key string.
- OtlpPoints.BucketTotalsAreConserved: needs equally many buckets in every point; the code drops a source's extra buckets.
- CqlText.CommentsDoNotChangeTokens: the comment follows whitespace; elsewhere the space left behind may split a token. Which bodies starting with a slash leave the tokens alone is not characterised.
- The connection create-time histogram of the mongo tracker, and the baggage restored into the contexts of fetched messages.
- The results of closers and flushers, their joined errors and `messageBatch.Error`; ForceFlush's two stages are one piece of work between its locked sections.
- Facades for HTTP servers, gin, minio and elasticsearch, redaction, certificate and URL handling, view allow-lists and option plumbing: thin wrappers or data.
- CqlStatements.NameIsReportedExactly: a plain name that spells IF, NOT or EXISTS where the parser skips those words, or TABLE right behind TRUNCATE, is taken for the keyword, as in the code; what is reported then is not stated.
- CapLaws.AtMostMaxValuesStay: no rule that draws on another budget caps the same key of the same metric; where one does, its overflow label reaches this rule as a value.
- MongoPoolTruth.GaugesAddUpToTheOpenConnections: counts a connection as open until the last pool the tracker knows of closes; a pool whose creation was never announced and that outlives that close is not part of the runs.
