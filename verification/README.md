# A verified model of the NeuroSwarm runtime's stateful cores

NeuroSwarm routes prompts of many agent sessions to the key-value cache slots of a llama-server, meters what
happens, tunes a few serving knobs from measurements, and keeps requests within budgets. This project models the
four parts of it that keep state or search, in Dafny 4.11, and proves what they promise over every run.

`dafny verify dfyconfig.toml` checks the whole project.

## The slot layer

`TokenChunks`, `PrefixHistory`, `FlatTrie`, `TrieTheorems`, `RadixTrie`: the chunk-keyed trie that answers which slot
holds the longest live prefix of a token sequence. `RadixTrie.ChunkTrie` is the heap structure with its in-place
walks; its ghost index is a flat map from chunk paths to entries (`FlatTrie`), and its ghost log is the list of
inserts and invalidations so far. `PrefixHistory.Live` reads the log alone: a path is live for a slot when the slot's
insert is the latest through that path, is unexpired, and has not been invalidated since. The theorems relate the two.

`Recency`, `SlotRegistry`, `LruRuns`, `RegistryRuns`, `RegistrySizes`, `OkfSlotAffinity`: the two-map registry of
sessions with eviction of the least recently used, and the ordered table from block hashes to slots. `LruRuns` and
`OkfSlotAffinity` rest on one definition of "most recent distinct"; `RegistryRuns` covers runs of all four registry
operations; `RegistrySizes` compares registries of different sizes under the same run.

`SlotRouter`: the composition, and the range of every slot it ever emits.

## The metrics pipeline

`Samples`, `Series`, `WindowAggregator`: nearest-rank percentiles, histogram and summary series, sliding windows.
`MetricState` is the registry as a value, `MetricRegistry` the object; `RegistryHistory` says which series a metric
gets, and what each of them tells, over runs of updates and registrations, `RegistryDefinitions` which definition, names,
labels and bounds apply; `BufferRuns` treats any bounded buffer in
front of any store, `MetricBufferRuns` instantiates it with the registry, `MetricBuffer` is the object. `Replay` applies
lists of updates.

## The tuner

`Policy`, `Tuner`: the rules, their clamps, and the iteration of decide and apply. `EvolveCycle` is one apply, measure,
roll back cycle over the policy file, its snapshot, the gateway overrides and the history, with a planned failure of
either kind at every step inside the `try`; `EvolveTheorems` says what single cycles and runs of cycles keep.

## Budgets

`Budget`, `Estimator`, `BudgetOptimizer`, `AffordGate`: categories and their validation, cost and energy projections,
the degrade ladder, and the choice of an affordable model tier. `LadderOutcome` gives plan and limits after any steps of
the ladder in closed form, from how often each kind of step occurred; `LadderTheorems` says with it, from the categories
and the plan that come in, which requests are refused.

`Options`, `LowerCase`, `Rounding`, `Powers`, `Sets`, `Suffixes` and `FirstDistinct` are small helpers.

## Conventions

- Every locked method of the original is one atomic step. Time is an argument. The trie asks for a clock that does
  not run backwards (`trie.clock <= now`); the LRU run theorems ask for one that moves strictly forward.
- An error the original raises is a result here: `None` for a `ValueError` or `KeyError`, `keyError` for `popitem` on an
  empty dictionary, `Raised` for what leaves `run_cycle`.
- Numbers that are floats in the original are reals.

## Where the code does something other than what its text says

- A match can report more tokens than the query has (`TrieTheorems.OverlongExactly`, `Overlong`), can count a tail that
  no inserted sequence shares with the query when the walk stopped early (`TailAnswerExactly`, `TailUnsound`), can answer
  a tail with a slot that was never given those tokens (`TailSlotExactly`, `WrongSlot`), and can answer a slot whose time
  has run out, because the branch that appends a tail to a chunk-aligned query does not look at the clock
  (`ExpiredAnswerExactly`, `ExpiredAnswer`).
- A larger registry holds whatever a smaller one holds only as long as nobody asks for a particular slot
  (`RegistrySizes.HitsGrowWithSlots`, `HintsBreakInclusion`).
- The registry's snapshot comments its bucket map as cumulative; the stored counts already are, so the map adds them up
  twice (`Series.ReportedExactly`, `Series.DoubleCounted`).
- A metric that is registered by its first update permits no labels from then on, so only that update's labels count
  (`RegistryHistory.OnlyFirstLabelsCount`, `SecondLabelsLost`).
- A summary keeps at most `max_samples` values except when `max_samples` is below two (`Series.SummaryCapExactly`).
- `run_cycle` decides without a baseline, so its cycles never move the escalation confidence (`EvolveTheorems.RunTame`).
- A failed apply restores the policy file but not the gateway overrides, unless the failure came after the rollback had
  rewritten them (`EvolveTheorems.OverridesAgreeExactly`, `StaleOverrides`); an interrupt is not caught by the handler
  at all, so it can leave the new policy without a record of it (`PolicyRestoredExactly`, `InterruptKeepsChange`); a
  history append that fails late can leave a record of a change that was undone (`HistoryTellsPolicy`, `Overclaimed`).
- The tier search is not optimal, and more budget can lower its choice, when the maximum exceeds three, since tiers above
  three are priced like tier two (`AffordGate.TierChoiceExactly`, `LooserBudgetExactly`, `TierFalls`); a preference below
  one can be granted as it is, a tier that does not exist (`AffordGate.LowPreference`).
- Speculation has no surcharge and no saving: its projection charges the draft as completion tokens, and the further
  speculative term is always zero (`Estimator.NoSurcharge`, `Estimator.SpeculationCostsItsDraft`).
- The ladder's `lower_tier` and `disable_speculation` change the plan without the state being judged again, and a state
  with nothing but soft warnings is sent through the ladder, so it can be refused (`LadderTheorems.RefusedExactly`,
  `SoftWarningRefused`).
- A count step lowers a count and its limit to the same number. On a state of which nothing is used that changes nothing
  (`LadderTheorems.FreshRefusedExactly`); once part of a hard prompt budget is used, or when it is below 256 tokens,
  `trim_context` makes admission impossible for good (`LadderTheorems.TrimContextDeadEnd`).

## Model

| member | source | states |
|---|---|---|
| TokenChunks.SplitTokens | neuroswarm_arm/runtime/radix_slot_router.py:79-86 | the loop yields exactly the full 64-token chunks and the rest |
| TokenChunks.SplitRoundTrip | neuroswarm_arm/runtime/radix_slot_router.py:79-86 | chunks and tail concatenate back to the tokens, the tail is shorter than a chunk |
| TokenChunks.SharedChunks | neuroswarm_arm/runtime/radix_slot_router.py:142-150 | two sequences share k full chunks iff both have them and agree on the first 64k tokens |
| PrefixHistory.LiveIsHolder | neuroswarm_arm/runtime/radix_slot_router.py:100-128 | a path is live for a slot iff replaying the log leaves that slot as its unexpired holder |
| PrefixHistory.ShorterIsNewer | neuroswarm_arm/runtime/radix_slot_router.py:118-127 | under a monotone clock a prefix of a held path was used no earlier than the path |
| TrieTheorems.RunCoherent | neuroswarm_arm/runtime/radix_slot_router.py:100-128 | every reachable trie is prefix closed, agrees with the log on every unexpired path, and carries only genuine tails |
| TrieTheorems.AlignedIsLongestLive | neuroswarm_arm/runtime/radix_slot_router.py:134-150 | the aligned walk returns the slot and length of the longest chunk prefix of the query that is live, or nothing when none is |
| TrieTheorems.MatchIsLongestLive | neuroswarm_arm/runtime/radix_slot_router.py:130-167 | over every run, a match that no tail decides answers the longest live chunk prefix of the query, whatever its unaligned ending |
| TrieTheorems.MatchCoversLive | neuroswarm_arm/runtime/radix_slot_router.py:130-167 | over every run, a query with a live prefix is answered, and with no shorter a length |
| TrieTheorems.MatchCoversTail | neuroswarm_arm/runtime/radix_slot_router.py:152-160 | at a fresh node the answer is no shorter than what the query shares with the last insert to leave a tail there |
| TrieTheorems.TailHeldExactly | neuroswarm_arm/runtime/radix_slot_router.py:102-127 | a node that was in the trie all the while holds the tail last left at it; one that was dropped since holds none |
| TrieTheorems.LiveIsShared | neuroswarm_arm/runtime/radix_slot_router.py:142-150 | a live chunk prefix of the query is a common prefix with a sequence inserted for that slot |
| TrieTheorems.ExpiryUnobservable | neuroswarm_arm/runtime/radix_slot_router.py:88-98 | deleting expired subtrees changes no aligned answer now or at any later time |
| TrieTheorems.ExpiryDropsOnlyExpired | neuroswarm_arm/runtime/radix_slot_router.py:88-98 | every path dropped with a subtree is itself expired or without a slot |
| TrieTheorems.NothingStaleAfterInsert | neuroswarm_arm/runtime/radix_slot_router.py:88-127 | after an insert no node below the root with a slot is past its TTL |
| FlatTrie.CoherentParentsNewer | neuroswarm_arm/runtime/radix_slot_router.py:111-128 | in a coherent trie a parent below the root is at least as recent as its children |
| TrieTheorems.ReadYourWrites | neuroswarm_arm/runtime/radix_slot_router.py:111-163 | within the TTL a match of inserted tokens returns their slot, after any later events that do not write their last node or invalidate the slot, inserts sharing part of the path included; the length is exact, or has the tail added that an older insert left at that node |
| TrieTheorems.OverlongExactly | neuroswarm_arm/runtime/radix_slot_router.py:161-163 | the length exceeds the query iff all its chunks were found and a stored tail was appended to a query without one |
| TrieTheorems.Overlong | neuroswarm_arm/runtime/radix_slot_router.py:161-163 | a query of one chunk is answered with sixty-five tokens |
| TrieTheorems.TailAnswerExactly | neuroswarm_arm/runtime/radix_slot_router.py:152-163 | the tokens a tail answer counts are shared with the sequence that left the tail iff the tail agrees with the query right after the chunks found, as far as it is counted |
| TrieTheorems.TailSlotExactly | neuroswarm_arm/runtime/radix_slot_router.py:124-127 | the slot of a tail answer is that of the last insert through the node, which need not be the one that left the tail |
| TrieTheorems.TailSound | neuroswarm_arm/runtime/radix_slot_router.py:141-160 | with every full chunk found the common-tail length is within the query and shared with the insert that left the tail; the slot is that of the last insert through the node |
| TrieTheorems.TailUnsound | neuroswarm_arm/runtime/radix_slot_router.py:142-160 | after an early stop a token is counted that no insert shares |
| TrieTheorems.WrongSlot | neuroswarm_arm/runtime/radix_slot_router.py:118-160 | with every chunk found, a slot is answered that no insert gave the tokens counted |
| TrieTheorems.ExpiredAnswerExactly | neuroswarm_arm/runtime/radix_slot_router.py:140-167 | the slot answered is live for the chunks its length spans iff no tail is appended at a node whose time has run out |
| TrieTheorems.ExpiredAnswer | neuroswarm_arm/runtime/radix_slot_router.py:161-163 | ninety seconds after a path ran out, its slot is still answered for it |
| TrieTheorems.InvalidatedNeverReturned | neuroswarm_arm/runtime/radix_slot_router.py:100-109 | after pruning a slot no query gets it until a later insert with it |
| TrieTheorems.InvalidationExact | neuroswarm_arm/runtime/radix_slot_router.py:100-109 | pruning takes away exactly the live paths of that slot |
| TrieTheorems.AlignedAfterInvalidation | neuroswarm_arm/runtime/radix_slot_router.py:100-150 | afterwards the aligned answer is the longest prefix live for another slot |
| RadixTrie.ChunkTrie.PruneExpiredBelow | neuroswarm_arm/runtime/radix_slot_router.py:88-98 | the recursive walk leaves the flat contents without the paths below stale nodes |
| RadixTrie.ChunkTrie.PruneExpired | neuroswarm_arm/runtime/radix_slot_router.py:88-98 | the walk from the root gives the expired contents |
| RadixTrie.ChunkTrie.PruneSlotBelow | neuroswarm_arm/runtime/radix_slot_router.py:103-107 | the recursive walk clears the slot below a node and nothing else |
| RadixTrie.ChunkTrie.PruneSlot | neuroswarm_arm/runtime/radix_slot_router.py:100-109 | the whole trie without the slot, logged as an invalidation |
| RadixTrie.ChunkTrie.Insert | neuroswarm_arm/runtime/radix_slot_router.py:111-128 | the trie stays the contents of its log extended by the insert |
| RadixTrie.ChunkTrie.Walk | neuroswarm_arm/runtime/radix_slot_router.py:141-150 | the loop ends at the deepest chunk found with the best aligned answer |
| RadixTrie.ChunkTrie.CommonTail | neuroswarm_arm/runtime/radix_slot_router.py:153-157 | the loop counts the common prefix of two tails |
| RadixTrie.ChunkTrie.MatchLongestPrefix | neuroswarm_arm/runtime/radix_slot_router.py:130-167 | the answer is the flat match of the log's contents |
| Recency.RecentByLastOccurrence | neuroswarm_arm/runtime/okf_slot_affinity.py:24-29 | the recency list orders the distinct entries by their last occurrence |
| Recency.RecentBatch | neuroswarm_arm/runtime/okf_slot_affinity.py:24-29 | trimming after a whole batch, of any size, leaves the last entries of the extended log |
| Recency.LastMonotone | neuroswarm_arm/runtime/slot_registry.py:47-60 | a larger capacity keeps a superset |
| OkfSlotAffinity.RecordOrder | neuroswarm_arm/runtime/okf_slot_affinity.py:20-29 | a record takes the table to the last distinct touched hashes |
| OkfSlotAffinity.LookupOrder | neuroswarm_arm/runtime/okf_slot_affinity.py:31-39 | a hit moves its hash to the recent end, a miss changes nothing |
| OkfSlotAffinity.FirstInIsFirst | neuroswarm_arm/runtime/okf_slot_affinity.py:31-39 | the hash that decides a lookup is the first of those asked for that is in the table |
| OkfSlotAffinity.RecordSlots | neuroswarm_arm/runtime/okf_slot_affinity.py:24-29 | every slot in the table stays the one its hash was last recorded with |
| OkfSlotAffinity.OkfSlotAffinity.Trim | neuroswarm_arm/runtime/okf_slot_affinity.py:28-29 | the oldest entries go, and a negative maximum ends in the KeyError |
| OkfSlotAffinity.OkfSlotAffinity.Record | neuroswarm_arm/runtime/okf_slot_affinity.py:20-29 | the table stays the reference reading of all operations so far |
| OkfSlotAffinity.OkfSlotAffinity.Lookup | neuroswarm_arm/runtime/okf_slot_affinity.py:31-39 | the first hash present decides, and is touched |
| SlotRegistry.AcquiresConsistent | neuroswarm_arm/runtime/slot_registry.py:33-70 | acquire keeps the maps inverse within the slots and evicts only the oldest session of a full registry |
| SlotRegistry.BindsAtConsistent | neuroswarm_arm/runtime/slot_registry.py:92-125 | acquire_at keeps the maps inverse and changes nothing when it refuses |
| SlotRegistry.ReleaseConsistent | neuroswarm_arm/runtime/slot_registry.py:86-90 | release keeps the maps inverse and every other session |
| SlotRegistry.SlotRegistry.LowestFree | neuroswarm_arm/runtime/slot_registry.py:47-52 | the lowest free slot, or none iff every slot is bound |
| SlotRegistry.SlotRegistry.LeastRecent | neuroswarm_arm/runtime/slot_registry.py:54-57 | a bound session that no other was used before |
| SlotRegistry.SlotRegistry.Acquire | neuroswarm_arm/runtime/slot_registry.py:33-70 | renew, take the lowest free slot, or replace a least recently used session; ValueError without a session |
| SlotRegistry.SlotRegistry.AcquireAt | neuroswarm_arm/runtime/slot_registry.py:92-125 | renew, refuse, take over on an equal prefix hash, or bind |
| SlotRegistry.SlotRegistry.Lookup | neuroswarm_arm/runtime/slot_registry.py:72-80 | the bound slot, its use renewed |
| SlotRegistry.SlotRegistry.Release | neuroswarm_arm/runtime/slot_registry.py:86-90 | the session and its slot are gone, nothing else |
| LruRuns.HoldsMostRecent | neuroswarm_arm/runtime/slot_registry.py:33-70 | after any run of acquires exactly the latest n distinct sessions are held |
| RegistrySizes.HitsGrowWithSlots | neuroswarm_arm/runtime/slot_registry.py:33-90 | over every run of acquires, lookups and releases a larger registry holds every session a smaller one holds, with the same time of use, and has no fewer free slots |
| RegistrySizes.HintsBreakInclusion | neuroswarm_arm/runtime/slot_registry.py:33-125 | after four uses, the last of them for a particular slot, one slot holds a session that two slots refused |
| RegistryRuns.UseRunConsistent | neuroswarm_arm/runtime/slot_registry.py:33-125 | over every run of acquire, acquire_at, lookup and release the two maps are inverses within the slots |
| RegistryRuns.HeldSinceLastUse | neuroswarm_arm/runtime/slot_registry.py:33-125 | over such runs a held session carries the time of its last use, a refused out-of-range request not counting as one |
| RegistryRuns.EvictsLeastRecent | neuroswarm_arm/runtime/slot_registry.py:47-60 | over such runs an acquire evicts only when every slot is bound, and then the session whose last use lies furthest back |
| RegistryRuns.HeldHash | neuroswarm_arm/runtime/slot_registry.py:38-70 | over every run a held session carries the last non-empty prefix hash it gave since it was bound |
| RegistryRuns.TakenOverExactly | neuroswarm_arm/runtime/slot_registry.py:92-125 | over every run a session loses its slot to a request for it iff the requester holds none and gives that hash, not the empty one; the requester holds the slot then |
| RegistryRuns.GrantedExactly | neuroswarm_arm/runtime/slot_registry.py:92-125 | a session without a slot gets the one it asks for iff that exists and is free or taken over; otherwise nothing changes |
| RegistryRuns.SlotStays | neuroswarm_arm/runtime/slot_registry.py:33-125 | while it is held a session never moves to another slot |
| SlotRouter.OutgoingPreserves | neuroswarm_arm/runtime/slot_router.py:35-36 | keys other than id_slot and cache_prompt pass through unchanged |
| SlotRouter.OutgoingSends | neuroswarm_arm/runtime/slot_router.py:35-61 | cache_prompt is true, and id_slot is the slot chosen, the caller's when there is none |
| SlotRouter.RouteExactly | neuroswarm_arm/runtime/radix_slot_router.py:179-206 | the first hash in the affinity table decides, then a match of at least the least length, then the registry; what the metrics record of it |
| SlotRouter.AnswersExactly | neuroswarm_arm/runtime/radix_slot_router.py:181-218 | what each route leaves of registry and trie, and every field of its telemetry |
| SlotRouter.HintHonoredExactly | neuroswarm_arm/runtime/slot_router.py:43-62 | a hint is honoured iff its slot exists and the session is bound already, or the slot is free, or its holder gave the same prompt; which slot it is otherwise |
| SlotRouter.BoundExactly | neuroswarm_arm/runtime/slot_registry.py:33-125 | the binding a request leaves, and that every other one stays but for the one its slot is taken from |
| SlotRouter.BoundSlotExists | neuroswarm_arm/runtime/slot_router.py:46-64 | hint or acquire, the session ends up bound to the returned, existing slot, reused iff it was bound |
| SlotRouter.MatchBelow | neuroswarm_arm/runtime/radix_slot_router.py:130-167 | a match returns only slots that the trie holds in range |
| SlotRouter.InsertBelow | neuroswarm_arm/runtime/radix_slot_router.py:111-128 | an insert keeps all slots in range iff its own slot is |
| SlotRouter.AnswersInRange | neuroswarm_arm/runtime/radix_slot_router.py:169-213 | whatever the route, the emitted slot exists and the state stays in range |
| SlotRouter.RecordInRange | neuroswarm_arm/runtime/radix_slot_router.py:215-227 | recording an existing slot keeps everything in range |
| SlotRouter.EverySlotExists | neuroswarm_arm/runtime/radix_slot_router.py:169-227 | over every run of requests, records, releases and prunes the id_slot of each payload sent for a slot exists |
| SlotRouter.RadixSlotRouter.PreparePayload | neuroswarm_arm/runtime/radix_slot_router.py:169-213 | affinity, then prefix, then registry; cache_prompt, id_slot and all other keys of the payload; hits, their lengths, the telemetry and what affinity and trie are told |
| SlotRouter.RadixSlotRouter.RegistryPayload | neuroswarm_arm/runtime/slot_router.py:26-64 | the base router's payload, key by key, its telemetry and its binding |
| SlotRouter.RadixSlotRouter.RecordAfterInference | neuroswarm_arm/runtime/radix_slot_router.py:215-227 | trie and affinity remember a served slot, the registry is left alone |
| Samples.NearestRankIsKth | neuroswarm_arm/metrics/aggregators.py:47-52 | the percentile is the ceil(p n)-th smallest sample: at least so many are <= it, fewer are below it |
| Samples.KthUnique | neuroswarm_arm/metrics/aggregators.py:47-52 | that description fixes the value |
| Samples.NearestRankMonotone | neuroswarm_arm/metrics/aggregators.py:69-70 | a higher percentile is no smaller, so p95 <= p99 |
| Series.HistogramCounts | neuroswarm_arm/metrics/registry.py:54-62 | stored bucket i counts the observations <= bound i, sum and count are exact, over every history |
| Series.ExemplarIsLatest | neuroswarm_arm/metrics/registry.py:54-63 | a histogram shows the exemplar of the last observation to have one |
| Series.StoredBucketsCumulative | neuroswarm_arm/metrics/registry.py:58-60 | stored counts do not decrease along sorted bounds |
| Series.ReportedExactly | neuroswarm_arm/metrics/registry.py:318-323 | the reported entry is the sum of stored buckets 0..i, and is the true count iff the earlier buckets are empty |
| Series.DoubleCounted | neuroswarm_arm/metrics/registry.py:318-323 | one observation can be reported twice |
| Series.HistogramSeries.Observe | neuroswarm_arm/metrics/registry.py:54-62 | the in-place loop is the step of the history function |
| Series.HistogramSeries.SnapshotBuckets | neuroswarm_arm/metrics/registry.py:312-323 | the accumulation loop reports running sums, the last bound of equal ones winning |
| Series.SummaryKeepsSuffix | neuroswarm_arm/metrics/registry.py:74-80 | the samples are a suffix of the history, sum and count are exact |
| Series.SummarySize | neuroswarm_arm/metrics/registry.py:74-80 | with max_samples at least two, everything is kept up to the cap, and beyond it all but as many earliest halves of the cap as it takes |
| Series.SummaryCapExactly | neuroswarm_arm/metrics/registry.py:79-80 | the cap holds over every history iff max_samples is at least two |
| Series.SummarySeries.Observe | neuroswarm_arm/metrics/registry.py:74-80 | the in-place append and trim is the step of the history function |
| Series.SummarySeries.Quantiles | neuroswarm_arm/metrics/registry.py:82-91 | each objective gets its nearest-rank sample |
| WindowAggregator.WindowAggregator.Observe | neuroswarm_arm/metrics/aggregators.py:33-45 | the queue is the longest suffix of the history within window and cap |
| WindowAggregator.WindowAggregator.Trim | neuroswarm_arm/metrics/aggregators.py:42-45 | both popping loops together leave that suffix |
| WindowAggregator.KeptExactly | neuroswarm_arm/metrics/aggregators.py:36-45 | a sample is still in the window iff it is among the latest and recent enough |
| WindowAggregator.WindowAggregator.Window | neuroswarm_arm/metrics/aggregators.py:54-74 | sum, mean and percentiles of exactly the queued samples, p95 <= p99 |
| MetricState.ApplyBounded | neuroswarm_arm/metrics/registry.py:178-264 | every update keeps the gate's sets within the limit and every stored series known to the gate |
| MetricState.SeriesLimit | neuroswarm_arm/metrics/labels.py:93-102 | so no metric stores more label sets than the limit |
| MetricState.CardinalityGate | neuroswarm_arm/metrics/labels.py:93-102 | over every run of updates and registrations, from any registry within its bound |
| RegistryHistory.SeriesIsRouted | neuroswarm_arm/metrics/registry.py:178-264 | over every run of updates and registrations a series exists iff some update was routed to it, and holds what those updates wrote in order |
| RegistryHistory.SeriesAreFirsts | neuroswarm_arm/metrics/labels.py:93-102 | over every such run a metric's series are exactly those of the first max_series distinct label sets its updates are filtered down to |
| RegistryHistory.StoredIffEarly | neuroswarm_arm/metrics/labels.py:93-102 | a label set is stored iff it first came when fewer than max_series others had |
| RegistryHistory.OnlyFirstLabelsCount | neuroswarm_arm/metrics/registry.py:178-193 | over every run a metric nobody registers has the series of its first update's labels, none if that was an info update, and besides it at most the unlabelled one |
| RegistryHistory.LaterGoUnlabelled | neuroswarm_arm/metrics/registry.py:178-193 | every later update of it goes to the unlabelled series or nowhere |
| RegistryHistory.SecondLabelsLost | neuroswarm_arm/metrics/registry.py:178-193 | of two increments under different labels the second loses its label |
| RegistryHistory.CounterExact | neuroswarm_arm/metrics/registry.py:189-211 | over every run a counter is the sum of the increments routed to it |
| RegistryHistory.GaugeExact | neuroswarm_arm/metrics/registry.py:197-227 | over every run a gauge is the value last set on its series, if any, plus the increments routed to it since |
| RegistryHistory.HistogramExact | neuroswarm_arm/metrics/registry.py:229-264 | over every run each bucket counts the observations routed to the series within its bound; sum and count are exact |
| RegistryDefinitions.FirstDefinitionStays | neuroswarm_arm/metrics/registry.py:123-145 | over every run the first registration or update of a metric decides its definition for good |
| RegistryDefinitions.RegisteredBounds | neuroswarm_arm/metrics/registry.py:229-264 | over every run a histogram registered before its first use counts by the bounds of its registration, by the default ones when it has none |
| RegistryDefinitions.AliasesLead | neuroswarm_arm/metrics/registry.py:132-148 | the aliases of a new metric lead to it; every other name leads where it did |
| RegistryDefinitions.RoutesExactly | neuroswarm_arm/metrics/registry.py:178-193 | an update goes to the series of its permitted labels when that is known or there is room, otherwise to the unlabelled one of an undefined metric or nowhere |
| RegistryDefinitions.InfoExactly | neuroswarm_arm/metrics/registry.py:266-273 | an info holds the permitted labels of its last update |
| RegistryDefinitions.InfoCounts | neuroswarm_arm/metrics/labels.py:74-91 | every label an info update may not carry is counted, and nothing else |
| RegistryDefinitions.UpdateCounts | neuroswarm_arm/metrics/labels.py:74-102 | every label another update may not carry, and every series refused, is counted |
| RegistryHistory.SummaryExact | neuroswarm_arm/metrics/registry.py:250-256 | over every run a summary holds a suffix of at most 512 of the observations routed to it, with exact sum and count |
| MetricRegistry.LabelPolicy.Normalize | neuroswarm_arm/metrics/labels.py:74-91 | the loop keeps exactly the permitted, unforbidden labels and counts the others |
| MetricRegistry.LabelPolicy.AdmitSeries | neuroswarm_arm/metrics/labels.py:93-102 | admission, and the sets and reject counter after it |
| MetricRegistry.MetricRegistry.Register | neuroswarm_arm/metrics/registry.py:123-145 | the registration step of those runs: the first definition wins, a different type is an error, aliases come with a new definition |
| MetricRegistry.MetricRegistry.Target | neuroswarm_arm/metrics/registry.py:178-195 | the series an update goes to, automatic registration included |
| MetricRegistry.MetricRegistry.Inc | neuroswarm_arm/metrics/registry.py:189-211 | the whole new registry state of an increment |
| MetricRegistry.MetricRegistry.Set | neuroswarm_arm/metrics/registry.py:213-227 | the whole new registry state of a set |
| MetricRegistry.MetricRegistry.Observe | neuroswarm_arm/metrics/registry.py:229-264 | the whole new registry state of an observation |
| MetricRegistry.MetricRegistry.SetInfo | neuroswarm_arm/metrics/registry.py:266-272 | the whole new registry state of an info update |
| MetricRegistry.MetricRegistry.RecordDrop | neuroswarm_arm/metrics/registry.py:274-276 | the drop counted in both places |
| BufferRuns.NothingLost | neuroswarm_arm/metrics/buffer.py:39-46 | the queue is bounded and is the tail of the accepted updates; accepted plus dropped is pushed |
| BufferRuns.DrainKeepsFlush | neuroswarm_arm/metrics/buffer.py:63-88 | draining in batches first makes no difference to a flush |
| BufferRuns.BufferedEqualsDirect | neuroswarm_arm/metrics/buffer.py:39-88 | after any run and a flush the store is what the accepted updates in push order make it |
| MetricBufferRuns.ApplyApart | neuroswarm_arm/metrics/registry.py:178-272 | updates of other metrics do not see the drop counter |
| MetricBufferRuns.DropInvisible | neuroswarm_arm/metrics/registry.py:274-276 | counting a drop changes nothing but the drop counter |
| MetricBufferRuns.RegistryBufferedEqualsDirect | neuroswarm_arm/metrics/buffer.py:39-88 | buffered equals direct on the metric registry, the drop counter aside |
| MetricBuffer.AsyncMetricBuffer.Push | neuroswarm_arm/metrics/buffer.py:39-46 | accepted iff there is room, otherwise counted as dropped |
| MetricBuffer.AsyncMetricBuffer.TakeBatch | neuroswarm_arm/metrics/buffer.py:64-67 | the popping loop takes the oldest updates up to the batch size |
| MetricBuffer.AsyncMetricBuffer.DrainOnce | neuroswarm_arm/metrics/buffer.py:63-79 | one batch applied in order |
| MetricBuffer.AsyncMetricBuffer.Flush | neuroswarm_arm/metrics/buffer.py:81-88 | terminates with everything applied, and counts it |
| Tuner.ChangeMovesOneParameter | neuroswarm_arm/arop/tuner.py:62-274 | a change moves exactly one parameter by one small step and stays in the clamp box |
| Tuner.DecideExactly | neuroswarm_arm/arop/tuner.py:62-257 | which rule decides, and on what, in the metrics and thresholds themselves |
| Tuner.ChangeApplied | neuroswarm_arm/arop/tuner.py:260-274 | a change sets the parameter it names, pushed into its range |
| Policy.OverridesExactly | neuroswarm_arm/arop/policy_state.py:40-57 | each override is the number of its range nearest to the policy's |
| Tuner.StepTowardsGoal | neuroswarm_arm/arop/tuner.py:62-274 | a decision is a change iff steps are left, uses up exactly one, and keeps the goal |
| Tuner.TunerConverges | neuroswarm_arm/arop/tuner.py:62-274 | on fixed metrics exactly StepsLeft, at most 33, changes follow from any policy, then rest at Goal |
| Tuner.StepsLeftBounded | neuroswarm_arm/arop/tuner.py:171-204 | at most 33 steps, the cap's geometric descent included |
| Tuner.RunKeeps | neuroswarm_arm/arop/tuner.py:62-274 | on changing metrics the policy stays in the box, the cap never rises, and without a baseline the confidence never moves |
| EvolveCycle.BrokenIsFirst | neuroswarm_arm/arop/evolve_cycle.py:192-259 | where a change breaks is the first of its stages that fails |
| EvolveCycle.Workspace.Try | neuroswarm_arm/arop/evolve_cycle.py:192-259 | files and ending of the guarded steps for every failure plan |
| EvolveCycle.Workspace.RunCycle | neuroswarm_arm/arop/evolve_cycle.py:74-267 | files and ending of a whole cycle; in terms of the files: a dry run adds at most its record, never applies, and reports a change it would make; a live cycle on demonstration telemetry is refused |
| EvolveTheorems.LoadExactly | neuroswarm_arm/arop/policy_state.py:106-126 | what a policy file, or the seed of a missing one, is read as |
| EvolveTheorems.UnreadableRaises | neuroswarm_arm/arop/evolve_cycle.py:107-186 | a policy that cannot be read, or a live change without a file, ends the cycle with nothing written |
| EvolveTheorems.NoChangeRecorded | neuroswarm_arm/arop/evolve_cycle.py:124-154 | a cycle that decides on no change adds the record that says so and touches nothing else |
| EvolveTheorems.SmoothCycle | neuroswarm_arm/arop/evolve_cycle.py:184-258 | a live change without faults is in policy file, overrides and history, unless a rate lost more than the limit: then file and overrides are the old ones |
| EvolveTheorems.FirstFaultDecides | neuroswarm_arm/arop/evolve_cycle.py:190-267 | the first fault of the steps decides the ending: an interrupt as it is, an ordinary failure after the restoring |
| EvolveTheorems.FaultsLeave | neuroswarm_arm/arop/evolve_cycle.py:190-267 | what each file holds after the step that was writing it failed |
| EvolveTheorems.PolicyRestoredExactly | neuroswarm_arm/arop/evolve_cycle.py:184-267 | exactly when the policy file ends with its original contents |
| EvolveTheorems.OriginalUnlessApplied | neuroswarm_arm/arop/evolve_cycle.py:192-267 | with ordinary failures anywhere, the original contents unless applied |
| EvolveTheorems.LiveReturnAgrees | neuroswarm_arm/arop/evolve_cycle.py:199-259 | a live return added one truthful record and left overrides that agree with the file |
| EvolveTheorems.OverridesAgreeExactly | neuroswarm_arm/arop/evolve_cycle.py:184-267 | however a live change ends, overrides and policy file agree iff the rollback had rewritten the overrides or nothing put the old file back |
| EvolveTheorems.StaleOverrides | neuroswarm_arm/arop/evolve_cycle.py:188-264 | a failed restart leaves the old policy and the new draft length |
| EvolveTheorems.InterruptKeepsChange | neuroswarm_arm/arop/evolve_cycle.py:188-267 | an interrupted restart leaves the new policy in place and no record of it |
| EvolveTheorems.RunTame | neuroswarm_arm/arop/evolve_cycle.py:110-267 | over runs of cycles with ordinary failures: a boxed or original policy, the same confidence, no higher cap |
| EvolveTheorems.HistoryTellsPolicy | neuroswarm_arm/arop/evolve_cycle.py:208-267 | throughout runs without interrupts the file is what the history's last applied record says, iff every failed append leaves as its last applied record, if any, one that names the policy already in the file |
| EvolveTheorems.CycleAccountedExactly | neuroswarm_arm/arop/evolve_cycle.py:208-267 | the same for one cycle, over any earlier history |
| EvolveTheorems.OverclaimedChange | neuroswarm_arm/arop/evolve_cycle.py:235-264 | an append that fails after writing its line leaves a record of a change that was undone |
| EvolveTheorems.Overclaimed | neuroswarm_arm/arop/evolve_cycle.py:235-264 | such a cycle |
| EvolveTheorems.NotWorseExactly | neuroswarm_arm/arop/evolve_cycle.py:41-63 | no regression iff the rate was not positive or kept all but the allowed percentage |
| EvolveTheorems.DriftBounded | neuroswarm_arm/arop/evolve_cycle.py:41-63 | n steps without a regression keep at least (1 - p/100)^n of a positive rate |
| EvolveTheorems.AppliedDriftBounded | neuroswarm_arm/arop/evolve_cycle.py:192-259 | so do n chained applied cycles, for throughput and for the tier-1 hit rate |
| EvolveTheorems.DriftTight | neuroswarm_arm/arop/evolve_cycle.py:41-63 | that bound is reached for every n |
| Budget.LedgerConserves | neuroswarm_arm/armora/budget/categories.py:48-58 | over every ledger that releases no more than it holds, reserved is what is outstanding and consumed what was spent |
| Budget.LedgerViolation | neuroswarm_arm/armora/budget/categories.py:34-58 | over every such ledger a category is breached iff it is hard and what is outstanding and spent exceeds the limit beyond the tolerance, and clean iff neither that nor its projection does |
| Budget.ValidationMarks | neuroswarm_arm/armora/budget/validator.py:38-63 | which categories fail, which warn, and how each is marked, in limits, amounts and needs |
| Budget.BudgetCategory.RefreshViolation | neuroswarm_arm/armora/budget/categories.py:34-46 | the violation after every change |
| Budget.BudgetCategory.ApplyConsume | neuroswarm_arm/armora/budget/categories.py:48-50 | the category after a consumption |
| Budget.BudgetCategory.ApplyReserve | neuroswarm_arm/armora/budget/categories.py:52-54 | the category after a reservation |
| Budget.BudgetCategory.ReleaseReserve | neuroswarm_arm/armora/budget/categories.py:56-58 | the category after a release |
| Estimator.CostMonotone | neuroswarm_arm/armora/budget/estimator.py:39-55 | with non-negative rates an operation that asks for no less costs no less |
| Estimator.NoSurcharge | neuroswarm_arm/armora/budget/estimator.py:49-53 | the speculative surcharge is zero, except for a negative rate |
| Estimator.TokensCharged | neuroswarm_arm/armora/budget/estimator.py:38-43 | further tokens of each kind cost that kind's rate |
| Estimator.CacheCharged | neuroswarm_arm/armora/budget/estimator.py:33-41 | tokens read from the cache cost its rate instead of the prompt's |
| Estimator.CallsCharged | neuroswarm_arm/armora/budget/estimator.py:44-55 | tool calls, retries at half of that, and the planner |
| Estimator.DraftCharged | neuroswarm_arm/armora/budget/estimator.py:48-53 | a draft has no charge of its own, except for a negative rate |
| Estimator.HeldCharged | neuroswarm_arm/armora/budget/estimator.py:45 | a gibibyte of cache costs its rate for each second |
| Estimator.NothingIsFree | neuroswarm_arm/armora/budget/estimator.py:38-55 | an operation that uses nothing costs nothing |
| Estimator.TierNeedsExactly | neuroswarm_arm/armora/budget/estimator.py:148-166 | the tokens and the cost a tier is projected to need, in figures |
| Estimator.TierEnergyExactly | neuroswarm_arm/armora/budget/estimator.py:148-166 | the time and the energy of a tier |
| Estimator.WattsExactly | neuroswarm_arm/armora/budget/estimator.py:86-89 | base load and a share for each thread, at least one |
| Estimator.PickExactly | neuroswarm_arm/armora/budget/schemas.py:123-124 | the upper percentile only when it is asked for |
| Estimator.SpeculationCostsItsDraft | neuroswarm_arm/armora/budget/estimator.py:188-194 | a speculation costs what completing its draft without speculation would |
| Estimator.ProjectEnergyMonotone | neuroswarm_arm/armora/budget/estimator.py:80-98 | more CPU time, no less energy |
| Estimator.TierMonotone | neuroswarm_arm/armora/budget/estimator.py:148-166 | every projected dimension grows with the tier when its multiplier does, as from one to three |
| Estimator.LowTiersAlike | neuroswarm_arm/armora/budget/estimator.py:148-166 | all tiers below one are projected alike |
| Estimator.HighTiersLikeTwo | neuroswarm_arm/armora/budget/estimator.py:148-166 | tiers above three are projected like tier two |
| BudgetOptimizer.BudgetRuntimeState.CanAfford | neuroswarm_arm/armora/budget/optimizer.py:47-74 | the loop finds exactly the hard dimensions that are exceeded |
| BudgetOptimizer.BudgetRuntimeState.ValidateState | neuroswarm_arm/armora/budget/validator.py:38-63 | the loop judges every category and reports hard failures and soft warnings |
| BudgetOptimizer.Optimizer.Optimize | neuroswarm_arm/armora/budget/optimizer.py:76-153 | state, plan, recorded steps and verdict of the ladder |
| BudgetOptimizer.Optimizer.OptimizeEnvelope | neuroswarm_arm/armora/budget/optimizer.py:84-153 | without a plan, one is filled in from limits and preferences; a missing category is an error before anything is judged |
| BudgetOptimizer.FilledPlanExactly | neuroswarm_arm/armora/budget/optimizer.py:84-91 | counts are the limits without their fractions; defaults for what is missing |
| BudgetOptimizer.StepFigures | neuroswarm_arm/armora/budget/optimizer.py:172-246 | the plan each step leaves and the limit it asks for, in figures |
| BudgetOptimizer.QuantFigures | neuroswarm_arm/armora/budget/optimizer.py:180-195 | the order of quantizations and the fifteen percent |
| BudgetOptimizer.TierNeedsAre | neuroswarm_arm/armora/budget/optimizer.py:155-170 | a tier is projected for four threads and no cache, at the percentile configured |
| BudgetOptimizer.PlanNeedsAre | neuroswarm_arm/armora/budget/optimizer.py:155-170 | a plan needs its own counts and what its tier does of everything else |
| BudgetOptimizer.LimitIsNeed | neuroswarm_arm/armora/budget/optimizer.py:155-246 | a count-changing step asks for the limit its plan then needs, changes no other count, and never asks for more above its floor |
| BudgetOptimizer.OptimizedKeeps | neuroswarm_arm/armora/budget/optimizer.py:76-153 | limits only fall, the plan only gets milder, steps are recorded in ladder order, and admission means no hard failure |
| LadderOutcome.PlanNext | neuroswarm_arm/armora/budget/optimizer.py:172-246 | one step more leads from the plan that depends on the numbers of steps taken to that of the numbers after it |
| LadderOutcome.QuantizedNext | neuroswarm_arm/armora/budget/optimizer.py:180-195 | the quantization after k lowerings, and how many of them were recorded, from its place in the order |
| LadderOutcome.LimitNext | neuroswarm_arm/armora/budget/optimizer.py:112-124 | a count's limit is the smaller of its first limit and its present count, the memory limit shrinks by 0.85 a recorded lowering, nothing else moves |
| LadderTheorems.AfterReaches | neuroswarm_arm/armora/budget/optimizer.py:99-124 | every step, recorded or not, leads from the closed form of plan and limits to the closed form |
| LadderTheorems.ClimbAdmitsExactly | neuroswarm_arm/armora/budget/optimizer.py:99-153 | the ladder admits iff, at some step before any abort that asks for a limit, the counts fit the limits that initial categories and numbers of steps give |
| LadderTheorems.RefusedExactly | neuroswarm_arm/armora/budget/optimizer.py:76-153 | a request is refused iff its state has a failure or a warning and at no such step its initial categories and counts, in closed form, leave no hard failure |
| LadderTheorems.ClimbEnds | neuroswarm_arm/armora/budget/optimizer.py:99-153 | the ladder ends after the first step that admits, at an abort, or after all, with plan and limits in closed form, the steps recorded, and failures and warnings as last judged |
| LadderTheorems.FreshRefusedExactly | neuroswarm_arm/armora/budget/optimizer.py:76-153 | with nothing consumed or reserved, iff what is needed at such a step never fits the first limits, memory apart |
| LadderTheorems.EnvelopeRefusedExactly | neuroswarm_arm/armora/budget/optimizer.py:84-153 | with the plan filled in from fresh limits, iff some hard category that is not a count, or a prompt trimmed to 256 tokens, never fits |
| LadderTheorems.TrimContextDeadEnd | neuroswarm_arm/armora/budget/optimizer.py:112-141 | once a hard prompt budget that is partly used, or below 256 tokens, is trimmed, no later step of any ladder admits |
| LadderTheorems.SilentLadderGivesUp | neuroswarm_arm/armora/budget/optimizer.py:99-153 | a ladder of steps that ask for no limit gives up with the failures and warnings it started with |
| LadderTheorems.SoftWarningRefused | neuroswarm_arm/armora/budget/optimizer.py:84-153 | an envelope's state with one soft warning and no hard failure is refused |
| LadderTheorems.StepRepairsOwn | neuroswarm_arm/armora/budget/optimizer.py:112-124 | after a count step its dimension is over iff both what is used of it and the count exceed the tolerance, or, when the limit was lower already, what that leaves is too little |
| AffordGate.AffordsBelow | neuroswarm_arm/armora/budget/dipa_gate.py:20-41 | a budget that affords a tier affords the lower tiers that have no larger multiplier |
| AffordGate.ChosenExactly | neuroswarm_arm/armora/budget/dipa_gate.py:29-41 | the lowest affordable tier from the preferred to the maximum, else the highest one below, else one |
| AffordGate.TierChoiceExactly | neuroswarm_arm/armora/budget/dipa_gate.py:29-41 | the two searches give the highest affordable tier not above the preferred one, except in exactly one case |
| AffordGate.HighPreference | neuroswarm_arm/armora/budget/dipa_gate.py:29-41 | a preference above three is granted or dropped to one as tier two is affordable |
| AffordGate.LowPreference | neuroswarm_arm/armora/budget/dipa_gate.py:29-41 | a preference below one is granted as it is when such tiers can be afforded and the maximum allows it, otherwise the answer is one |
| AffordGate.LooserBudgetExactly | neuroswarm_arm/armora/budget/dipa_gate.py:29-41 | with more left in every hard dimension the chosen tier is no lower, except exactly when the tighter budget made the search overshoot to tier four and the looser one affords tier three |
| AffordGate.TierFalls | neuroswarm_arm/armora/budget/dipa_gate.py:29-41 | a budget where tier four is chosen and two is the best, and a looser one where the choice falls to three |
| AffordGate.BudgetAffordGate.CanAffordTier | neuroswarm_arm/armora/budget/dipa_gate.py:20-27 | affordable when unbound, an error for an unknown envelope, otherwise the budget's word |
| AffordGate.BudgetAffordGate.SelectAffordableTier | neuroswarm_arm/armora/budget/dipa_gate.py:29-41 | the loops carry out the search upwards, then downwards, then tier one |

## Left out

- SlotRegistry.SlotRegistry.LeastRecent: leaves open which of several sessions with the same timestamp is evicted; the original takes the first in insertion order.
- SlotRouter.RadixSlotRouter.PreparePayload: takes the prompt's hash instead of the prompt; content hashing is opaque.
- MetricRegistry.MetricRegistry.Inc: the series are values in the registry's maps, not objects of their own, so aliasing of a series is not captured; likewise for the other updates. `Series` models the series objects by themselves.
- MetricBuffer.AsyncMetricBuffer.DrainOnce: one atomic step, although the original applies a batch outside the lock; other writers in between are not modelled.
- EvolveCycle.Workspace.RunCycle: the snapshot, the first write of the policy and the first write of the overrides, before the `try`, are taken to succeed; a record holds no metrics, rationale or timestamp.
- BudgetOptimizer.Optimizer.Optimize: takes a complete plan; `OptimizeEnvelope` fills in an absent one, a plan given in part is not modelled.
- BudgetOptimizer.BudgetRuntimeState.CanAfford: blocking dimensions form a set, not a list in projection order.
- Label values are taken as already sanitised, hashes as opaque strings, token ids as integers.
- Metric snapshots other than the histogram buckets, exporters, shard locks and the asynchronous flusher's thread.
- Affinity and trie may keep naming a slot whose session was evicted: the registry never prunes, so no such agreement is claimed.
- Rounding of floating point: thresholds and steps are exact here.
- Metrics parsing, YAML, JSON, environment variables, subprocesses and the gateway restart itself.
- Payload values other than the two the router writes are opaque; nested dictionaries are single values.
- The plan actions of the estimator other than a tier and a speculation, the key-value projection, tracker, persistence and telemetry of budgets.
- Quantisation guard metadata of the afford gate, quantisation preference of the tuner, and configuration loaders.
