# A verified model of the inkfuse runtime and executor

inkfuse runs query pipelines either as generated, fused code or as vectorised primitives that are interpreted one after the
other. This project models the parts of it where the two ways, or many threads, have to agree, and proves that they do.

**Hash tables** (`Hashing`, `ProbeChain`). All tables are arrays of one-byte tags and rows, probed linearly and cyclically. A
tag holds a fill bit and bits of the hash. The hash function is a parameter and keys are an abstract type with equality, so
that one model covers simple and complex keys. What every table relies on is the chain: each filled slot can be reached from
the home of its key over filled slots only.

**Concurrent joins** (`Schedules`, `ProbePhase`, `AtomicBuild`, `AtomicTable`, `SemiJoin`, `OuterJoin`, `InnerJoin`,
`ParallelJoins`, `Relational`, `TupleMaterializer`, `JoinBuild`). The operations of the concurrent table are state machines: any
number of threads, one atomic load, compare-and-swap or store per step, and a schedule that is an arbitrary sequence of thread
numbers. Steps are sequentially consistent, and a probe phase starts from a finished build, as the runtime tasks enforce by
joining all workers. `AtomicTable` has the same operations as methods on one table in place, and `JoinBuild` the whole build
phase of one worker. Sums over arbitrary weights (`Bags`) say that no row is lost or doubled.

**Aggregation** (`SharedTable`, `VectorizedAggregation`, `GroupBy`, `AggregationMerger`, `GranuleMerge`, `ParallelAggregation`,
`MergeInterleaving`, `Sizing`, `ParallelGroupBy`). The single-threaded table doubles when it is half full, which moves every row.
A pointer into it is a generation and a slot; a store through a pointer of an old generation does not reach the table. Payloads
and the operation `add` are parameters. That covers integers with wrap-around, and it does not assume that an operation is
associative or commutative except where a theorem says so. The merger takes one addition for every granule of a payload;
`GranuleMerge` has the real ones, on words of memory. `ParallelGroupBy` puts all of it together, from chunks to results.

**Execution** (`Repipe`, `RepipeCuts`, `RofSchedule`, `HybridBarrier`). A suboperator is an abstract function from columns and
the state of the world to columns and a new state. A pipeline that is cut into pieces over a shared store must do what it does
as one.

**Smaller cores** (`ExpressionDecay`, `AggregationLayout`, `CivilDate`), and what modules share (`Products`, `Options`).

## Where the code does not do what it promises

- *Merging aggregates.* While it collects pointers into its target, `mergeSingleTable` may double the target. The loop that
  should then collect again does not rewind its iterator, so the pointers collected before stay stale and what is added through
  them is lost. `AggregationMerger.SumsExactIff` and `ParallelAggregation.CountsExactIff` give the exact condition on counts.
  For the first merge of a worker, `Sizing.FirstMergeExactIff` gives it in terms of the size that the target was created with:
  the worker's groups in that table must be no more than half of the slots.
- *Cutting through strong links.* A piece that begins with a consumer runs its producer again, and one that ends with a producer
  runs a consumer early. `RepipeCuts.PieceClosedIff` says when such a piece provides what all of its suboperators read,
  `RepipeCuts.InputsStoredIff` when the pieces in front store what it reads, and `RepipeCuts.CutsFollowIff` what a consumer that
  runs twice must leave alone. Behind its scope a filter cannot be cut (`RepipeCuts.FilterCutBehindScope`), nor can the scope be
  on its own (`RepipeCuts.ScopeAloneIsOpen`), and `RepipeCuts.ConsumerActsTwice` shows a repeated effect.
- *Guards around one suboperator.* `ROFScopeGuard` writes the end marker over the begin marker if it guards a single
  suboperator. `RofSchedule.GuardsAreBracketedIff` and `RofSchedule.SingleGuardDropsPrefix` say when and what follows.
- *Alignment of aggregate state.* The plan means to align to the largest granule, but rounds to the smallest one, and slots follow
  one another without padding. There are no unaligned updates exactly if the key is a multiple of the largest granule, or short
  of one by less than the smallest granule, and the sum of all granules is a multiple of the largest one
  (`AggregationLayout.AllAlignedIff`, and `AggregationLayout.GranuleAlignedIff` for a single granule). The first condition fails
  for a count behind a key of four bytes (`AggregationLayout.CountBehindShortKey`), the second for a count and a sum of four
  bytes behind a key of eight (`AggregationLayout.CountInSecondSlot`).
- *Counters over short columns.* The merger picks its addition by the type of the aggregated column and only then looks for
  counters. A counter of eight bytes over a column of four is merged by an addition of four bytes, although a comment promises
  that a count is always merged with its eight. `GranuleMerge.CountIsRightIff`: it is right exactly as long as the group has fewer
  than 2^32 rows; `GranuleMerge.CountVanishes` merges two halves of that to zero.
- *Offsets of 16 bits.* Updaters and readers address a granule by a runtime parameter of 16 bits, the merger by a full integer.
  `AggregationLayout.OffsetsFitIff` says when they agree.
- *Left outer joins.* They build with `insert` and probe with `lookup`, which neither clears nor sets the mark that the iterator
  over rows without a partner goes by; in its place there is a bit of the hash. `ParallelJoins.LeftOuterJoinIff`: the iterator
  yields the right rows exactly if that bit happens to tell the rows with a partner from the others.
- *Days out of range.* The year of a date has 16 bits. `CivilDate.DaysRoundTripIff` says which day numbers survive.

## Model

| member | source | states |
|---|---|---|
| Hashing.InvertedTagIsDead | src/runtime/NewHashTables.cpp:200-235 | the tag of a consumed slot is filled, differs from the live tag, and inverting again restores it, for every hash |
| Hashing.MarkedTagKeepsFingerprint | src/runtime/NewHashTables.cpp:159-192 | marking keeps a slot filled and its six fingerprint bits, and only the mark bit changes |
| Hashing.Home | src/runtime/NewHashTables.cpp:133-134 | the masked hash is always a slot of the table |
| ProbeChain.PathAdvance | src/runtime/NewHashTables.cpp:323-338 | a step from a filled slot keeps the path filled and gets strictly further from home as long as there is a free slot, wrap-around included |
| ProbeChain.FreeSlotEndsChain | src/runtime/NewHashTables.cpp:144-147 | a probe that meets a free slot has passed every filled slot of its chain |
| ProbeChain.AdvancesAtMostFilled | src/runtime/NewHashTables.cpp:243-271 | a probe has advanced at most once per filled slot |
| ProbeChain.StoredIff | src/runtime/NewHashTables.cpp:357-390 | a row is stored iff some filled slot holds it |
| ProbeChain.FreeSlotMeansMiss | src/runtime/NewHashTables.cpp:144-147 | stopping at a free slot misses no answer anywhere in the table |
| ProbeChain.TableIsChained | src/runtime/NewHashTables.cpp:132-157 | the table that a build leaves meets the invariant that the probing methods require |
| AtomicBuild.StepKeepsInv | src/runtime/NewHashTables.cpp:243-271 | every load, compare-and-swap, copy or chunk pull of any worker keeps all chains intact and loses or doubles no row |
| AtomicBuild.RunKeepsInv | src/algebra/Join.cpp:37-69 | the same for every schedule of any number of workers |
| AtomicBuild.BuildIsComplete | src/algebra/Join.cpp:37-69 | once all workers are through, the table holds exactly the multiset of materialised tuples, tagged and chained |
| AtomicBuild.StepUsesBound | src/runtime/NewHashTables.cpp:243-271 | every action of an unfinished worker, lost races included, uses up part of a bound |
| AtomicBuild.BuildEnds | src/algebra/Join.cpp:37-69 | no interleaving keeps the workers busy for longer than that bound |
| AtomicBuild.InsertAdvances | src/runtime/NewHashTables.cpp:243-271 | an insert has advanced at most once per slot that was claimed, whatever the schedule |
| AtomicTable.AtomicHashTable.constructor | src/runtime/NewHashTables.cpp:75-90 | an accepted size yields an empty valid table |
| AtomicTable.AtomicHashTable.Create | src/runtime/NewHashTables.cpp:81-85 | exactly the powers of two from two on are accepted |
| AtomicTable.AtomicHashTable.Find | src/runtime/NewHashTables.cpp:132-157 | a probe returns the first slot that answers, and none only if no slot of the table answers |
| AtomicTable.AtomicHashTable.Lookup | src/runtime/NewHashTables.cpp:132-157 | the same for live tags and equal keys |
| AtomicTable.AtomicHashTable.LookupDisable | src/runtime/NewHashTables.cpp:200-235 | the row found is consumed by inverting its tag; all chains stay intact and nothing else changes |
| AtomicTable.AtomicHashTable.LookupOuter | src/runtime/NewHashTables.cpp:159-192 | the row found is marked, whether or not it was before; all chains stay intact and nothing else changes |
| AtomicTable.AtomicHashTable.ChainSurvives | src/runtime/NewHashTables.cpp:200-235 | rewriting a filled tag by a filled one breaks no chain |
| AtomicTable.AtomicHashTable.Insert | src/runtime/NewHashTables.cpp:243-271 | the row lands in a slot that was free, on its filled path, and every other slot stays |
| AtomicTable.AtomicHashTable.InsertOuter | src/runtime/NewHashTables.cpp:273-301 | the same with an unmarked outer tag |
| AtomicTable.AtomicHashTable.IteratorStart | src/runtime/NewHashTables.cpp:357-371 | the iterator rests on the first unmarked row, or is exhausted if there is none |
| AtomicTable.AtomicHashTable.IteratorAdvance | src/runtime/NewHashTables.cpp:373-390 | the iterator rests on the next unmarked row, or is exhausted if there is none |
| AtomicTable.AtomicHashTable.ScanPartnerless | src/runtime/NewHashTables.cpp:357-390 | walking to the end yields every unmarked row once, in slot order |
| SemiJoin.StepKeepsInv | src/runtime/NewHashTables.cpp:200-235 | every step of concurrent disabling lookups keeps the chains, moves tags only from live to consumed, and lets no slot be taken twice |
| SemiJoin.AtMostOnce | src/runtime/NewHashTables.cpp:200-235 | at every moment of every run no two probes hold the same row, and a probe only holds a row with its key |
| SemiJoin.SemiJoinCounts | src/runtime/NewHashTables.cpp:200-235 | once all probes are done, the rows returned for a key are as many as the smaller of the numbers of its rows and of its probes |
| SemiJoin.SemiJoinExactlyOnce | src/algebra/Join.cpp:273-280 | with distinct build keys a row is returned iff some probe had its key, and never by two probes |
| SemiJoin.ProbesEnd | src/runtime/NewHashTables.cpp:200-235 | every interleaving of the probes ends |
| OuterJoin.StepKeepsInv | src/runtime/NewHashTables.cpp:159-192 | every step of concurrent outer lookups keeps the chains and marks only rows whose key some probe has, and of each key only the first row on its chain |
| OuterJoin.MarkedIffWanted | src/runtime/NewHashTables.cpp:159-192 | once all probes are done, a row is marked iff some probe had its key and no earlier slot on its chain has that key |
| OuterJoin.OuterScanCounts | src/runtime/NewHashTables.cpp:357-390 | with or without duplicate build keys, the iterator then leaves out one row of each key that some probe had, and no other row |
| OuterJoin.OuterScanIsAntiJoin | src/runtime/NewHashTables.cpp:357-390 | with distinct build keys the iterator then yields exactly the build rows without a partner, each once |
| OuterJoin.OuterProbeResult | src/runtime/NewHashTables.cpp:159-192 | a finished probe returned the first row with its key, or nothing if no build row has it |
| OuterJoin.ProbesEnd | src/runtime/NewHashTables.cpp:159-192 | every interleaving of the probes ends |
| InnerJoin.HitIsMatch | src/runtime/NewHashTables.cpp:132-157 | what a lookup finds is the partner that comparing with every build row finds |
| InnerJoin.LookupColumn | src/algebra/Join.cpp:273-284 | the vectorised lookup yields the pointer column of all probe rows |
| InnerJoin.PointerColumnJoins | src/algebra/Join.cpp:290-302 | the pointer column without its nulls is the nested loop join, pairs and order included |
| InnerJoin.ProbePipeline | src/algebra/Join.cpp:258-302 | the probe side of a primary key join over a finished table computes the nested loop join |
| InnerJoin.ParallelJoinIsRelational | src/algebra/Join.cpp:37-69 | parallel build under any schedule, lookups and null filter together are the relational inner join |
| ParallelJoins.ParallelSemiJoinCounts | src/algebra/Join.cpp:37-69 | parallel build and semi join under any schedules return of each key as many rows as were materialised, but no more than there are probes |
| ParallelJoins.ParallelSemiJoinIsRelational | src/runtime/NewHashTables.cpp:200-235 | with distinct build keys that is the relational semi join: the materialised rows whose key some probe has, each once |
| ParallelJoins.ParallelOuterJoinCounts | src/runtime/NewHashTables.cpp:357-390 | after a parallel build and outer probes under any schedules, the iterator leaves out one row of each materialised key that some probe had |
| ParallelJoins.PlainScanIff | src/runtime/NewHashTables.cpp:357-390 | over a table of plain tags the iterator yields the rows without a partner iff the mark bit of the hash tells them from the others |
| ParallelJoins.LeftOuterJoinIff | src/algebra/Join.cpp:276-288 | a left outer join as it is planned yields its unmatched rows, after a parallel build under any schedule, iff the hashes happen to tell them |
| TupleMaterializer.Materializer.constructor | src/runtime/TupleMaterializer.cpp:12-17 | a materialiser starts with one empty chunk and no tuple |
| TupleMaterializer.Materializer.Create | src/runtime/TupleMaterializer.cpp:12-17 | exactly the tuples that fit into a region are accepted, empty ones included |
| TupleMaterializer.Materializer.AllocNewChunk | src/runtime/TupleMaterializer.cpp:51-61 | a new chunk is current and no tuple is lost |
| TupleMaterializer.Materializer.Materialize | src/runtime/TupleMaterializer.cpp:19-27 | every slot is in bounds and overlaps none handed out before; a chunk is added exactly when the tuple would reach the end of the region; the tuples so far are kept and the new one comes last |
| TupleMaterializer.Materializer.GetNumTuples | src/runtime/TupleMaterializer.cpp:33-41 | the count from the chunk ends is the number of tuples materialised |
| TupleMaterializer.ReadHandle.PullChunk | src/runtime/TupleMaterializer.cpp:43-49 | each call gets the next chunk, and nothing once all are handed out |
| TupleMaterializer.EachChunkOnce | src/runtime/TupleMaterializer.cpp:43-49 | whatever the order in which any number of readers pull, each chunk goes to exactly one of them |
| JoinBuild.HashBatch | src/algebra/Join.cpp:56-61 | the buffer holds the hash of each tuple of the batch |
| JoinBuild.FillKeepsChains | src/runtime/NewHashTables.cpp:243-271 | a claimed slot adds its row, and all chains, tags and other rows of the table stay as they were |
| JoinBuild.InsertBatch | src/algebra/Join.cpp:62-65 | the table gains exactly the tuples of the batch, under the hashes of the buffer |
| JoinBuild.InsertChunk | src/algebra/Join.cpp:47-67 | the batches of 256 cover a chunk: the table gains each of its tuples once |
| JoinBuild.DrainHandle | src/algebra/Join.cpp:45-69 | a worker that drains a handle adds all of its tuples to the table, each once |
| JoinBuild.AllocHashTable | src/algebra/Join.cpp:14-35 | an empty table of the size for all materialised rows, of which they fill at most half |
| JoinBuild.BuildAlone | src/algebra/Join.cpp:14-69 | counting, allocating and inserting in place, one worker ends up with a chained and tagged table of exactly the materialised rows, and a free slot |
| SharedTable.IndexHasFree | src/runtime/HashTables.cpp:225-253 | fewer keys than slots leave a free slot for every probe to stop at |
| SharedTable.IndexInsert | src/runtime/HashTables.cpp:135-155 | filling the first free slot on the path of a new key keeps every other key findable and its payload |
| SharedTable.HashTable.constructor | src/runtime/HashTables.cpp:23-33 | an accepted size yields an empty map with half the slots as fill limit |
| SharedTable.HashTable.Create | src/runtime/HashTables.cpp:23-33 | exactly the powers of two from two on are accepted |
| SharedTable.HashTable.ContentsSize | src/runtime/HashTables.cpp:204-206 | the counter equals the number of keys and never exceeds half the slots |
| SharedTable.HashTable.FindSlotOrEmpty | src/runtime/HashTables.cpp:225-242 | the probe ends at the slot of the key, or at the first free slot of its path if it is absent |
| SharedTable.HashTable.FindFirstEmpty | src/runtime/HashTables.cpp:244-253 | for an absent key, skipping filled slots without comparing ends where its search would end |
| SharedTable.HashTable.Lookup | src/runtime/HashTables.cpp:102-109 | a pointer to the row iff the map has the key |
| SharedTable.HashTable.LookupOrInsert | src/runtime/HashTables.cpp:135-155 | the map gains the key with a zero payload iff it was absent; the flag, the pointer, the growth even for a present key, and that pointers stay current without growth |
| SharedTable.HashTable.Insert | src/runtime/HashTables.cpp:157-181 | an absent key is added and the pointer leads to it |
| SharedTable.HashTable.ReserveSlot | src/runtime/HashTables.cpp:255-287 | doubles iff the limit is reached, keeps the map, and leaves room for one more key |
| SharedTable.HashTable.Install | src/runtime/HashTables.cpp:259-286 | swapping the arrays in doubles the limit and makes all older pointers stale |
| SharedTable.HashTable.AddThrough | src/algebra/AggregationMerger.cpp:12-19 | a store through a current pointer changes the group of its key, one through a stale pointer nothing |
| SharedTable.Rehash | src/runtime/HashTables.cpp:255-287 | every row moves with its tag and payload into a table of twice the size that is indexed again |
| SharedTable.FirstEmptySlot | src/runtime/HashTables.cpp:244-253 | the probe loop ends at a free slot behind filled ones |
| SharedTable.IteratorStart | src/runtime/HashTables.cpp:183-191 | the iterator rests on the first filled slot or is exhausted |
| SharedTable.IteratorAdvance | src/runtime/HashTables.cpp:193-202 | the iterator rests on the next filled slot or is exhausted |
| SharedTable.Serve | src/runtime/HashTables.cpp:102-181 | one request is answered as a mathematical map answers it |
| SharedTable.ServeAll | src/runtime/HashTables.cpp:102-181 | for every sequence of lookups and inserts, any number of doublings included, replies and contents are those of a map |
| VectorizedAggregation.GroupsFirst | src/exec/PipelineExecutor.cpp:463-485 | creating all groups of a chunk first makes no difference to its group-by |
| VectorizedAggregation.RunFused | src/exec/PipelineExecutor.cpp:445-461 | looking up and updating row by row is the group-by fold of the rows |
| VectorizedAggregation.RunPrimitive | src/exec/PipelineExecutor.cpp:538-551 | one run creates the groups; its flag says whether the table grew, and without growth all pointers are current |
| VectorizedAggregation.RunMorselWithRetry | src/exec/PipelineExecutor.cpp:538-551 | the number of runs is given exactly and at most three, and all pointers are current in the end |
| VectorizedAggregation.ThreeRunsHappen | src/exec/PipelineExecutor.cpp:538-551 | two new keys in the smallest table need three runs |
| VectorizedAggregation.UpdateThrough | src/exec/PipelineExecutor.cpp:463-485 | updating through current pointers is the fold over the rows |
| VectorizedAggregation.RunVectorised | src/exec/PipelineExecutor.cpp:463-485 | lookup with retries and then updating has the result of the fused loop, although growth moves slots in the middle of a chunk |
| GroupBy.FoldIsGroupSum | src/algebra/AggregationMerger.cpp:12-19 | the fold has exactly the keys of the rows, each with the sum of its rows |
| GroupBy.GroupSumPermutation | src/algebra/AggregationMerger.cpp:47-58 | with an associative and commutative operation the order of the rows does not matter |
| AggregationMerger.OutcomeAt | src/algebra/AggregationMerger.cpp:61-109 | the contribution of a row arrives iff its pointer did not go stale |
| AggregationMerger.MergeExactIff | src/algebra/AggregationMerger.cpp:61-109 | a merge equals the group-by fold iff everything added through stale pointers would have made no difference |
| AggregationMerger.NothingStaleIff | src/algebra/AggregationMerger.cpp:70-82 | no pointer goes stale iff the number of groups before the last key stays below the fill limit after the first key |
| AggregationMerger.MergeExact | src/algebra/AggregationMerger.cpp:61-109 | with that room a merge is the group-by fold of its rows |
| AggregationMerger.SumsExactIff | src/algebra/AggregationMerger.cpp:61-109 | integer sums are right for all payloads iff there is that room |
| AggregationMerger.SkewLosesSums | src/algebra/AggregationMerger.cpp:70-82 | more new groups than an empty target holds make a merge lose a nonzero contribution |
| AggregationMerger.EmptyTargetExactIff | src/algebra/AggregationMerger.cpp:70-82 | into an empty target, sums of nonzero integers are right iff it holds all groups before it doubles |
| AggregationMerger.CollectPairs | src/algebra/AggregationMerger.cpp:62-83 | the walk with its restart loop visits the partition once; groups, fill limit, and which collected pointers are stale |
| AggregationMerger.PassesCombine | src/algebra/AggregationMerger.cpp:84-109 | over distinct groups, the loop for one more granule is one more addition in every row |
| AggregationMerger.MergeGranule | src/algebra/AggregationMerger.cpp:12-19 | one loop folds a granule of exactly the rows behind current pointers into the target |
| AggregationMerger.MergeSum | src/algebra/AggregationMerger.cpp:84-109 | one loop per granule folds all granules of exactly the rows behind current pointers into the target |
| AggregationMerger.MergeSingleTable | src/algebra/AggregationMerger.cpp:61-109 | a merge leaves the outcome that the specification gives for its partition and starting table |
| AggregationMerger.MergeTables | src/algebra/AggregationMerger.cpp:47-58 | a worker leaves the outcome of merging its share of all local tables in turn and touches no other table |
| GranuleMerge.AddIsModular | src/algebra/AggregationMerger.cpp:12-19 | the addition of a primitive is modulo what its type holds |
| GranuleMerge.SupportedIff | src/algebra/AggregationMerger.cpp:84-109 | every granule has a primitive but sums over column types other than the six that the merger knows |
| GranuleMerge.StatesAreMerged | src/algebra/AggregationMerger.cpp:84-109 | every granule is merged at its own place with the primitive that the dispatch picks, and all other memory of the slot stays |
| GranuleMerge.GranulesAreMerged | src/algebra/AggregationMerger.cpp:84-109 | case by case: the states lie next to each other in one or two words; four-byte integers are added modulo 2^32, eight-byte ones and counters over other columns modulo 2^64, floating point sums by the floating point addition of their four or eight bytes |
| GranuleMerge.GroupCarries | src/algebra/AggregationMerger.cpp:84-109 | after any number of merges a state is the sum of the partial states, cut to what its primitive covers, and the word beyond is zero |
| GranuleMerge.MergedExactlyIff | src/algebra/AggregationMerger.cpp:84-109 | a merged integer state is the sum of the partial ones iff that sum fits into what the primitive covers |
| GranuleMerge.WorkerExactlyIff | src/algebra/AggregationMerger.cpp:47-109 | with room in all merges of a worker, the integer state of a group is the sum over everything it merged iff that sum fits into what the primitive covers |
| GranuleMerge.SumIsRightIff | src/algebra/AggregationMerger.cpp:92-99 | a merged sum of integers, read without signs, is right iff it is below 2^32 for four-byte columns and below 2^64 for eight-byte ones |
| GranuleMerge.SignedSumIsRightIff | src/algebra/AggregationMerger.cpp:92-99 | a merged sum of signed integers is right iff it lies in the range of the signed type of its column, whatever the partial sums are |
| GranuleMerge.CountIsRightIff | src/algebra/AggregationMerger.cpp:86-103 | a merged counter is right iff it is below 2^32 over integer columns of four bytes, and below 2^64 over all others but floating point ones |
| GranuleMerge.CountVanishes | src/algebra/AggregationMerger.cpp:92-93 | two partial counts of 2^31 over a column of type I4 merge to zero |
| GranuleMerge.MergeTyped | src/algebra/AggregationMerger.cpp:61-109 | merging a table succeeds iff every granule is a counter or has one of the six known column types; if not, the granules in front of the first such sum have been merged, else all |
| ParallelAggregation.Freeze | src/algebra/AggregationMerger.cpp:28-45 | a local table holds its groups also as the merge phase reads it |
| ParallelAggregation.PartitionOfIndex | src/algebra/AggregationMerger.cpp:73-80 | a partition consists of distinct groups with their payloads, and of all groups whose hash belongs to the worker |
| ParallelAggregation.SharesAddUp | src/algebra/AggregationMerger.cpp:47-58 | over all local tables, the shares of a worker sum up to its part of all input rows |
| ParallelAggregation.MergedExact | src/algebra/AggregationMerger.cpp:47-58 | with room in every merge, a worker computes one group-by over everything it merges |
| ParallelAggregation.ParallelAggregationIsGroupBy | src/algebra/AggregationMerger.cpp:27-109 | for every split and order of the rows, each key lies in the target of exactly the worker for its hash, with the sum over all rows |
| MergeInterleaving.RunsDoNotInterfere | src/algebra/AggregationMerger.cpp:47-58 | under every interleaving, visits and additions one by one, each worker always stands where it would stand alone |
| MergeInterleaving.MergedAsAlone | src/algebra/AggregationMerger.cpp:47-58 | once all tables are merged, the target of a worker is that of the same merges without the others |
| MergeInterleaving.MergedOnceUnderAnySchedule | src/algebra/AggregationMerger.cpp:47-109 | under every interleaving of all workers each key ends up in exactly one target, with the sum over all rows |
| MergeInterleaving.MergesEnd | src/algebra/AggregationMerger.cpp:61-109 | no interleaving keeps the workers busy for longer than a bound |
| ParallelAggregation.FewKeysFit | src/runtime/HashTables.cpp:255-258 | a fill limit above the number of distinct keys of a partition gives room in every merge |
| ParallelAggregation.CountsExactIff | src/algebra/AggregationMerger.cpp:61-109 | with counts or other positive contributions, the groups of a worker are right iff every merge had room |
| Sizing.NextPowerOfTwo | src/algebra/Join.cpp:27-29 | the shift yields a power of two from the capacity up to less than twice of it, which tables accept |
| Sizing.JoinTableFits | src/algebra/Join.cpp:25-34 | a join table is accepted, at most half full, and less than four times its rows |
| Sizing.JoinSlotsAre | src/algebra/Join.cpp:25-34 | a join table has the one power of two from twice its rows up to less than four times its rows as its size, and two slots without rows |
| Sizing.MergeTableSize | src/runtime/HashTables.cpp:83-86 | the fill limit of a merge table exceeds the expected number of keys, but not 2.4 times of it |
| Sizing.MergeSlotsAre | src/runtime/HashTables.cpp:74-96 | with e the keys per thread, but at least eight, a merge table has the one power of two from 12e/5 up to less than twice of it as its size |
| Sizing.SkewWithinSlack | src/runtime/HashTables.cpp:74-96 | the first merge of up to 1.2 e groups is right, whatever is aggregated |
| Sizing.ThirtyGroupsFit | src/runtime/HashTables.cpp:83-86 | thirty groups on two threads make merge tables of 64 slots |
| Sizing.BalancedMergeIsGroupBy | src/runtime/HashTables.cpp:74-96 | a worker whose distinct keys are at least one fewer than 1.2 max(8, keys per thread) merges without loss; an even split is such a case |
| Sizing.FirstMergeExactIff | src/runtime/HashTables.cpp:74-96 | the first merge of a worker is right iff its groups of that local table are at most half of the slots chosen for the keys of all local tables |
| Sizing.OverfullWorkerLoses | src/runtime/HashTables.cpp:74-96 | if they are more, then with counts or other positive contributions no later merge makes the groups of the worker right again |
| Sizing.SkewedMergeLoses | src/runtime/HashTables.cpp:74-96 | an even split, or eight groups, is safe for a first merge, and 2.4 times as many groups never are |
| Sizing.SeventeenGroupsLose | src/runtime/HashTables.cpp:74-96 | with three or more threads and no groups in the other local tables, a first merge of any 17 or more groups loses a contribution |
| ParallelGroupBy.ChunksAreRows | src/exec/PipelineExecutor.cpp:445-485 | running chunk after chunk is one group-by over all their rows |
| ParallelGroupBy.RunChunks | src/exec/PipelineExecutor.cpp:445-485 | any mixture of fused and vectorised chunks folds them in order into the table of the thread |
| ParallelGroupBy.SingleTable | src/algebra/AggregationMerger.cpp:28-35 | a single thread needs no merge: its table is the group-by |
| ParallelGroupBy.TargetsArePart | src/algebra/AggregationMerger.cpp:27-58 | every balanced worker, one whose distinct keys are at least one fewer than 1.2 times what the merge tables are made for, ends up with its part of the group-by |
| ParallelGroupBy.MergePhase | src/algebra/AggregationMerger.cpp:27-58 | sizing, one target per worker and all merges leave one table per thread; for balanced workers it is their part of the group-by |
| ParallelGroupBy.AggregateInParallel | src/algebra/Aggregation.cpp:189-226 | from chunks to results: whatever the split into chunks and threads, the order and the backends, every balanced worker holds its part of the group-by over all rows |
| Repipe.Pipeline.AttachSuboperator | src/algebra/Pipeline.cpp:210-227 | providers and edges stay exact, and single assignment form is kept |
| Repipe.PlanInputs | src/algebra/Pipeline.cpp:69-133 | the inputs of a piece are what it misses, each once, in the order of their first use |
| Repipe.PieceStep | src/algebra/Pipeline.cpp:117-133 | nothing that the next suboperator provides is already planned to be read, so that the assertion never fires; what the piece provides and misses grows by just its outputs and sources |
| Repipe.CopyOperators | src/algebra/Pipeline.cpp:84-114 | the strong producer in front and the strong consumer behind are attached if the range is cut off from them |
| Repipe.Pipeline.Repipe | src/algebra/Pipeline.cpp:61-189 | a piece reads exactly the columns it misses, in the order of first use, holds the range and its strong partners, and writes the requested columns |
| Repipe.Pipeline.RepipeRequired | src/algebra/Pipeline.cpp:30-59 | the piece stores exactly the columns of the range that later suboperators use |
| Repipe.Pipeline.RepipeAll | src/algebra/Pipeline.cpp:10-28 | the piece stores exactly the columns that do not come from strong producers |
| Repipe.JitPieceKeeps | src/algebra/Pipeline.cpp:30-59 | a compiled piece that keeps strong links together does what its range does and leaves all columns needed later |
| Repipe.PartnerRunsAgain | src/algebra/Pipeline.cpp:84-103 | a strong producer attached again has the same result and no other effect |
| Repipe.InterpretedPieceKeeps | src/exec/runners/InterpretedRunner.cpp:116-119 | an interpreted suboperator does what it does in the whole pipeline |
| Repipe.SkippingKeeps | src/exec/PipelineExecutor.cpp:351-365 | leaving out a producer of strong links loses nothing |
| Repipe.CuttingPreservesMeaning | src/algebra/Pipeline.cpp:10-189 | for every plan of compiled ranges and interpreted suboperators, effects and columns are those of the pipeline run as one; from a compiled range the columns used behind it are in the store, from an interpreted suboperator all but void ones and those of strong producers |
| Repipe.RepipeAllStores | src/algebra/Pipeline.cpp:10-28 | a piece that stores everything leaves in the store just what was there and all columns of its weak producers but void ones, with the values of the whole pipeline |
| Repipe.RepipedWholeRuns | src/algebra/Pipeline.cpp:10-28 | repiped as a whole, a pipeline runs like itself from an empty store and leaves exactly those columns |
| Repipe.FusedIsPlan | src/exec/PipelineExecutor.cpp:401-404 | fusing the whole pipeline is such a plan |
| Repipe.InterpretedIsPlan | src/exec/PipelineExecutor.cpp:337-366 | interpreting every suboperator is such a plan |
| RepipeCuts.PieceClosedIff | src/algebra/Pipeline.cpp:86-133 | a piece has exactly one provider of everything its suboperators read, attached ones included, iff void handles reach their consumers and an attached consumer reads only what the range computes or the piece reads anyway |
| RepipeCuts.InputsStoredIff | src/algebra/Pipeline.cpp:45-56 | for any partition into compiled pieces, every input is stored by the piece that owns it iff the inputs of each producer that runs again are used behind the piece that computes them |
| RepipeCuts.CutPieceRuns | src/algebra/Pipeline.cpp:164-187 | a piece that can be cut stores the columns of the whole pipeline, and the world is that of its range followed by the attached consumer |
| RepipeCuts.CutsFollowIff | src/algebra/Pipeline.cpp:30-189 | closed pieces with stored inputs follow the whole pipeline, piece by piece, iff no attached consumer changes the world |
| RepipeCuts.KeptTogetherIsClosed | src/algebra/Pipeline.cpp:86-115 | a compiled piece that keeps strong links together has nothing attached and is closed |
| RepipeCuts.KeptTogetherFits | src/algebra/Pipeline.cpp:30-189 | a partition that keeps all strong links together has all inputs stored and follows the whole pipeline |
| RepipeCuts.FilterCutBehindScope | src/algebra/suboperators/ColumnFilter.h:18-60 | a filter cut behind its scope reads a condition that is not stored |
| RepipeCuts.ScopeAloneIsOpen | src/algebra/Pipeline.cpp:105-126 | a piece that ends with a filter scope attaches the filter logic, which reads a column that nobody provides |
| RepipeCuts.ConsumerActsTwice | src/algebra/Pipeline.cpp:105-115 | a strong producer and its consumer, cut apart, make closed pieces with stored inputs in which the consumer acts on the world twice |
| RofSchedule.GuardsAreBracketedIff | src/algebra/Pipeline.h:34-59 | the guards of a pipeline, any number in sequence, yield proper blocks iff none guards exactly one suboperator, and then exactly what they guard is vectorised |
| RofSchedule.SetUpFused | src/exec/PipelineExecutor.cpp:405-433 | the scan yields the intervals that the markers describe |
| RofSchedule.IntervalBegins | src/exec/PipelineExecutor.cpp:405-433 | outside of a block the next interval begins at once, reaches up to the next block and holds no vectorised suboperator |
| RofSchedule.SingleGuardDropsPrefix | src/algebra/Pipeline.h:41-51 | with a guard around one suboperator, only what lies behind it is compiled |
| RofSchedule.SetUpInterpreted | src/exec/PipelineExecutor.cpp:337-366 | exactly the suboperators without outgoing strong links have an interpreter, and the offsets lead to it |
| RofSchedule.ScheduleIsExact | src/exec/PipelineExecutor.cpp:487-536 | the schedule visits in increasing order, once each, what is compiled or has an interpreter |
| RofSchedule.RunRofMorsel | src/exec/PipelineExecutor.cpp:487-536 | for any pipeline a morsel ends even with empty intervals and follows the schedule; the plan is the one that was run, its compiled segments are the compiled intervals and hold exactly what is not vectorised; if strong links are proper and inside of the intervals, it is a plan for the whole pipeline |
| RofSchedule.RunMorselThroughPieces | src/exec/PipelineExecutor.cpp:487-536 | relaxed operator fusion runs vectorised suboperators by their interpreters and all others in the compiled intervals, and has the effects and the columns of the fused pipeline |
| HybridBarrier.MoveKeepsInv | src/common/Barrier.cpp:9-23 | every step of every swimlane keeps the arrival counter in step with the threads on their way |
| HybridBarrier.HandOverIsSafe | src/exec/PipelineExecutor.cpp:163-201 | for every interleaving, set-up runs at most once, no compiled morsel runs before it, and the counter never underflows |
| HybridBarrier.SetUpIsExclusive | src/exec/PipelineExecutor.cpp:209-221 | when compiled code is set up, every thread is inside of the barrier |
| HybridBarrier.CompiledIsNoticed | src/exec/PipelineExecutor.cpp:163-174 | once compilation has finished, a thread that looks is on its way to the barrier after its next move and never interprets in front of it again |
| HybridBarrier.OneMoreMorsel | src/exec/PipelineExecutor.cpp:163-174 | after the end of the compilation each thread runs at most one more morsel in front of the barrier, under every interleaving |
| HybridBarrier.LeavesForCompiledCode | src/exec/PipelineExecutor.cpp:163-174 | a thread leaves the interpreter only without work or for compiled code |
| HybridBarrier.SetUpIffReady | src/exec/PipelineExecutor.cpp:209-221 | once a thread has passed the barrier, set-up has run exactly once if compilation had finished before anybody passed, and never otherwise |
| HybridBarrier.ChosenBackendRuns | src/exec/PipelineExecutor.cpp:180-201 | behind the barrier a morsel is run by the backend that was chosen for it |
| HybridBarrier.AllWorkIsDone | src/exec/PipelineExecutor.cpp:143-203 | unless the output is closed early, all morsels have been run, each once, when all threads are finished, under every interleaving |
| HybridBarrier.SomebodyCanGoOn | src/common/Barrier.cpp:9-23 | as long as a thread is not finished, some thread is not blocked |
| HybridBarrier.HandOverEnds | src/common/Barrier.cpp:9-23 | whether and whenever compilation finishes, the number of moves is bounded, and where nobody can move all threads have passed the barrier and finished |
| ExpressionDecay.Decay.DecayNode | src/algebra/ExpressionOp.cpp:77-108 | a node is lowered behind its children and shared nodes only once; nothing lowered before is touched |
| ExpressionDecay.Decay.DecayAll | src/algebra/ExpressionOp.cpp:64-75 | all outputs are lowered, and only nodes they consist of are visited |
| ExpressionDecay.BuiltIsReachable | src/algebra/ExpressionOp.cpp:64-75 | the nodes visited are exactly those reachable from the outputs |
| ExpressionDecay.OperandsFirst | src/algebra/ExpressionOp.cpp:82-106 | what a suboperator reads is written in front of it |
| ExpressionDecay.LoweringPreservesMeaning | src/algebra/ExpressionOp.cpp:64-108 | each computation is emitted exactly once, and running the program leaves the recursive value of every output in its column |
| AggregationLayout.CollectGranules | src/algebra/Aggregation.cpp:62-79 | the granules of all functions, each once, largest first |
| AggregationLayout.FirstAlignedAfter | src/algebra/Aggregation.cpp:81-90 | the payload starts at the first multiple of the smallest granule behind the key |
| AggregationLayout.Plan | src/algebra/Aggregation.cpp:62-117 | granules, start, total size, and for every function the places of its own granules |
| AggregationLayout.WalkOffsets | src/algebra/AggregationMerger.cpp:84-109 | the offsets at which the merger addresses the granules |
| AggregationLayout.AttachUpdaters | src/algebra/Aggregation.cpp:191-203 | the same offsets for the updaters, cut to 16 bits |
| AggregationLayout.ReadersMeetUpdaters | src/algebra/Aggregation.cpp:249-263 | a reader finds each of its granules where it is updated, and where it is merged iff 16 bits hold its offset |
| AggregationLayout.OffsetsFitIff | src/algebra/Aggregation.cpp:191-203 | updates and merges agree on all granules iff they do on the last one |
| AggregationLayout.GranulesFit | src/algebra/Aggregation.cpp:81-97 | granules overlap neither the key nor each other and fit into the slot |
| AggregationLayout.GranuleAlignedIff | src/algebra/Aggregation.cpp:53-92 | in all slots of every planned layout a granule is aligned iff behind the key a multiple of its size comes earlier than the size of the smallest granule, and its size divides the total of all |
| AggregationLayout.AllAlignedIff | src/algebra/Aggregation.cpp:53-92 | no update of any slot is unaligned iff the key is a multiple of the largest granule or short of one by less than the smallest one, and the total of all granules is a multiple of the largest one |
| AggregationLayout.LargestDecidesTable | src/runtime/HashTables.cpp:23-33 | in slots without padding, all granules are aligned iff the largest one is |
| AggregationLayout.PowersNest | src/algebra/Aggregation.cpp:58-79 | in the order of the set, sizes that are powers of two divide all larger ones |
| AggregationLayout.SmallestIsAligned | src/algebra/Aggregation.cpp:81-92 | the plan aligns the smallest granule in every slot |
| AggregationLayout.CountBehindShortKey | src/algebra/Aggregation.cpp:81-92 | behind a four-byte key, the eight-byte count next to a four-byte sum starts at offset four |
| AggregationLayout.CountInSecondSlot | src/runtime/HashTables.cpp:23-33 | behind an eight-byte key, both are aligned in the first slot, and the count of the second slot starts at offset 28 |
| CivilDate.YearOfEraIsExact | thirdparty/date.h:3096-3096 | the fixed point division yields the year of every day of an era |
| CivilDate.MonthOfDay | thirdparty/date.h:3099-3101 | month and day can be read off the day of the year |
| CivilDate.OkIff | thirdparty/date.h:3003-3011 | a date is valid iff it is the date of a day number and its year lies from -32767 to 32767, and iff it survives the way to a day number and back and its year is not -32768 |
| CivilDate.DateRoundTrip | thirdparty/date.h:2970-2987 | every valid date survives the way to a day number and back |
| CivilDate.DaysRoundTripIff | thirdparty/date.h:3084-3103 | a day number survives the way to a date and back iff it lies between the first and the last day of the 16-bit years |
| CivilDate.WideRoundTripDays | thirdparty/date.h:3084-3103 | before its year is cut off, the date of any day number is one of the calendar and leads back |
| CivilDate.DaysInOrder | thirdparty/date.h:2970-2987 | day numbers are ordered like dates and different for different dates |
| CivilDate.NextDay | thirdparty/date.h:2734-2748 | the day after a date is a date |
| CivilDate.NextDayIsOneMore | thirdparty/date.h:2970-2987 | the next day of the calendar has the next number, and 1970-01-01 has number zero |
| CivilDate.WeekdayIsExact | thirdparty/date.h:1822-1827 | the weekday in wrapping arithmetic is the day number modulo seven, counted from a Thursday |

## Left out

- Prefetching, processor affinity, throughput statistics and the choice of trials: they do not change results. The hybrid loop
  may choose either backend for every morsel.
- Weak memory: steps are sequentially consistent, and a build is over before its probes start.
- AggregationMerger.MergeTables: reads the local tables as snapshots of their arrays, because nobody writes to them in the merge
  phase.
- MergeInterleaving.MergedOnceUnderAnySchedule: workers are states and steps on values; a step visits one slot or adds one row
  with all of its granules.
- GranuleMerge.CountIsRightIff: leaves out counters over floating point columns, whose bits are added as floating point numbers;
  that addition is a parameter. States are addressed in words of four bytes.
- ParallelGroupBy.AggregateInParallel: requires that updates and merges use the same additions, which counters over short columns
  do not (`GranuleMerge`).
- SharedTable.HashTable.AddThrough: a store through a stale pointer is a store to memory that nobody reads any more; that this
  memory may have been handed out again is not modelled.
- SharedTable.HashTable.Insert: requires that the key is absent, for which its caller vouches. The original never compares keys
  here and would add a second row for the key, after which the table is no longer a map.
- Repipe.Pipeline.AttachSuboperator: requires outputs that are new to the pipeline, which the whole theory of single assignment
  rests on, and keeps only the first outgoing edge of each suboperator, the only one that is used.
- Repipe.CuttingPreservesMeaning: requires that all consumers of a strong producer are linked strongly, too. The scratch pads that
  a join probe starts with, which key packers fill in place, are strong producers with weak consumers and outside of this
  reading, as is the exception for `materialize_tuple`.
- RofSchedule.RunMorselThroughPieces: covers no join probe pipeline, because of their scratch pads. The fused pipeline runs
  suboperator by suboperator over whole columns; that generated code passes tuple after tuple through all of them in one loop is
  not modelled.
- RofSchedule.RunRofMorsel: fuse chunk sources and sinks have no interpreter either; they do not occur in a pipeline before it is
  cut.
- HybridBarrier.HandOverIsSafe: the interrupt of the background compiler is left out; compilation may simply never finish.
- TupleMaterializer.Materializer.GetNumTuples: requires a tuple size, by which the original divides without a check.
- JoinBuild.DrainHandle: is the only reader of its handle; workers that share handles are part of AtomicBuild.
- Join: how the continuation of a left outer join is replicated behind the probe, and the modes of a join besides those of its
  tables.
- Sizing.NextPowerOfTwo: the word width is a parameter, 64 in the source; capacities beyond half of the word's range, for which
  the shift is undefined, are not modelled.
- Sizing.MergeTableSize: takes 2.4 times the keys exactly, where the original truncates a floating point product.
- CivilDate.WideRoundTripDays: integers are unbounded, so that overflow of day numbers close to the end of 32 bits is not
  modelled.
- `HashTableSimpleKey::lookupDisable` writes a tag into free slots and breaks the invariant; keys of size zero, the direct lookup
  table and `AtomicHashTable::itStart` are left out.
- Code generation, the backend, runners, file loading, and the parsing and printing of dates are not part of this model.
