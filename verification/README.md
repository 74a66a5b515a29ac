# Verified models of the serving engine's bookkeeping code

A Dafny model of eleven pieces of a large-language-model serving engine (a fork of vLLM), with
proofs of what each piece is for. `dafny verify dfyconfig.toml` checks the whole project.

The pieces are chosen because each has a loop, a protocol or a state machine whose promise cannot be
read off one function body:

- **Graph-partition signatures** (`GraphPartition`). A backward pass over the partitions of a compiled
  graph decides what each partition takes in, hands out and frees. Main results: run the partitions in
  order from any environment that holds the names the pass ends up asking for; then every partition
  finds every buffer it reads or writes, every call can return, and the graph outputs exist at the end; and
  the signatures are exactly a liveness analysis of the buffers.
- **Memory planning with nested subgraphs** (`PlanningStack`). A stack of planning states. Main result:
  which line lists the pass accepts, and that each line is planned in the state of its innermost subgraph.
- **The build-log tool** (`NinjaLog`, `EventSweep`). Segmentation of a log into builds, and a sweep that
  shares elapsed time among running tasks. Main results: a log splits into builds in only one way, and the
  report is the last of them and loses no name; the weighted durations add up to exactly the time in which
  something runs.
- **The sleep-mode allocator, ROCm chunk path** (`ChunkTiling` and the modules whose names begin with
  `Cumem`). The virtual-memory driver is a value, and the answers of driver and host are a parameter, so
  every call is determined. `CumemSteps` holds the entry points as functions, `CumemAllocator` the object
  with its loops, proved equal to them. Main results, over any sequence of calls and any answers: each range
  is wholly mapped or wholly unmapped, ranges are disjoint, mapping is all or nothing; the replies tell
  exactly whether a reservation or a handle was lost; and a run without such a reply after which
  everything is freed leaves the driver empty and no host cell allocated.
- **Flat log-probability container** (`Logprobs`). Main result: any sequence of appends, extends and
  slices reads like the same sequence on a plain list of dictionaries.
- **Bad-words mask** (`BadWords`). Main result: over whole generations, sampling above minus infinity
  and freedom from bad words are the same thing.
- **Merging request outputs** (`RequestOutput`). Main result: exactly when merging is associative.
- **Scalar types** (`Bits`, `ScalarTypes`, `FloatLimits`). Main results: a packed identifier is
  exact on precisely the in-range types; the computed maximum is the largest finite value of the format
  except in two degenerate families, which are characterised.
- **Chunk sizing and scoped context** (`ForwardContext`), **rate limiter** (`RateLimiter`), **request
  queue** (`RequestQueue`). Conservation, bounds on every trace, and an interleaving protocol in which
  the queue takes a task exactly while it has room and no task it took is stuck.

Classes model the objects the code updates in place; their methods are proved against functions on
values, and the laws are lemmas about those functions.

## Where the code does less than one might expect

Each of these is proved, with the exact condition under which the property does hold.

- `GraphPartition.StorageIsNeeded`: a two-partition graph on which a run fails although the names it asks for
  are there; `AlwaysRunsIff`: runs succeed from every such environment exactly when every input name of
  every partition has storage.
- `PlanningStack.NestingSuffices`: the planner accepts proper nesting, and also an Exit before its Enter;
  `MemoryPlanReuse`: exactly which line lists it accepts.
- `NinjaLog.KeptIsNotLongest`: the reported suffix of the log need not be the longest one that looks
  like a single build; `KeptIsLongestIff`: it is exactly when the line before it does not fit.
- `CumemSafety.MapEnds`: mapping is all or nothing unless an error is already latched when chunk creation
  starts (then the handle of chunk 0 leaks, outcome `HandleLeaked`) or the access rights cannot be set
  (outcome `NoAccess`); `MapAnswer` says which answers lead there.
- `CumemClient.MallocExact`: the outcome of my_malloc for all answers; the early exits after the reservation lose
  it (`ReservationLost`), and a range mapped without access rights is lost with its handles (`MappingLost`).
  `FailuresHappen` and `FirstByteFails` give the one refusal that brings about each of these.
- `CumemClient.FreeExact`: the address range is returned exactly if the size passed in is the aligned size.
  `FreeLatchesIff`: freeing latches an error exactly if one is latched, the context fails, the size is wrong, the range
  sleeps or its cells are not releasable (each holds a live handle, no two the same); then `LatchedRefuses`: nothing is
  granted, and `LatchedWakeLeaks`: waking any range leaks a handle, until a sleep or wake has raised the error.
- `CumemSleepMode.WakeAwake`: waking a range that is awake always fails and leaves it mapped; its cells stay intact
  exactly if no handle was created, and `SleepAfterWakeLeaks`: if one was, the next sleep leaks.
  `ReleasableAfterWake` with `SleepRaises`: if one was rolled back, that sleep raises an error as well.
- `CumemSleepMode.SleepAllExact`: sleep() stops at an entry that a failed allocation left in the table (it would use
  freed host cells; reply `Dangling`, where the model says nothing more), at a range that is asleep, and at one whose
  cells are not releasable. `SleepTroubleNone`: exactly when nothing stops it; `RunStale`: which replies leave such entries.
- `Logprobs.BackwardSlice`: a slice with a negative step of two or more positions keeps only the
  positions that hold no entries; an empty slice raises an error.
- `Logprobs.SampledRankKeptIff`: the code's remark that storing the sampled token twice is the same as storing it
  once holds for its rank exactly if the token is not repeated among the others, or is last repeated in the place of its rank.
- `RequestOutput.AddAssociates`: grouping to the right fails where grouping to the left works exactly when
  aggregated log-probabilities would join a completion that has none. `AssociatesIff`: for a given middle output the law
  holds for all others exactly if it lists no index twice.
- `FloatLimits.MaxIsLargestIff`: one exponent bit under IEEE 754, and no mantissa bits under the extended
  encoding, are exactly where the maximum is wrong; `E8m0HasNoMax` is the instance the engine ships.
- `ScalarTypes.OutOfRangeCollides`: outside 8-bit exponents two types share an identifier, and
  `DisplacedStaysDisplaced`: the one read first is displaced for good. `FoundAfterAnyRunIff`: every run of readings finds
  every type read exactly if no two of the objects agree on the kept bits and differ elsewhere.
- `ForwardContext.ScopeAfter`: the forward context is restored, but leaving a nested sizes block resets
  the sizes instead of restoring them; `SizesVisibleInBlock` says exactly when they can still be read.
- `RateLimiter.WindowBoundReached`: twice the rate in one second does happen; `SecondExact`: exactly how much any second
  grants after any run, and when that stays within the rate. `SleepBounds`: a client that wakes exactly on time
  is refused again.
- `RequestQueue.EmptyPopIff`: an empty deque can be popped exactly with two or more consumers, a permit and room
  for a task; `OneTaskInFlight`: the number of permits does not matter, since the lock is held while a task runs.
  `LoopsEndByExceptions`: each empty pop and each task that raises ends one loop for good.

## Model

| member | source | states |
|---|---|---|
| `GraphPartition.CollectNames` | vllm/env_override.py:142-174 | the names a partition produces, accesses and frees |
| `GraphPartition.PartitionSignature` | vllm/env_override.py:140-225 | one round of the loop: the signature of a partition and the names unmet before it |
| `GraphPartition.GetGraphPartitionSignature` | vllm/env_override.py:139-240 | the backward loop computes the signature of every partition from the names still unmet after it, over the common tail of the two lists; a KeyError exactly when some signature hands back an unknown name |
| `GraphPartition.NoneLayoutIff` | vllm/env_override.py:119-137 | is_none_layout holds exactly for the names whose chain of renamings through mutation outputs ends at a buffer without layout |
| `GraphPartition.InputsIff` | vllm/env_override.py:142-184 | a partition takes in exactly what some node reads or writes under a name with storage that no node of it makes, and the known names it uses last without making them |
| `GraphPartition.UnmetIsLive` | vllm/env_override.py:116-240 | the names the backward pass carries are exactly the live ones: needed by a partition or as a graph output, and not made before |
| `GraphPartition.SignatureIsLiveness` | vllm/env_override.py:139-240 | a signature takes in the known names its partition takes in, and hands back, of those with storage, what it makes that is live after it and what it takes in and does not use last |
| `GraphPartition.SignatureAt` | vllm/env_override.py:186-232 | the i-th signature carries the i-th flag, the constants its partition takes in, and marks exactly those inputs for deletion that some node of it uses last |
| `GraphPartition.FreedIsGone` | vllm/env_override.py:172-195 | a known name that a partition uses last and did not make is not among the caller's variables at the end of the run |
| `GraphPartition.OthersStay` | vllm/env_override.py:186-195 | a variable that no partition takes in for the last time is still there |
| `GraphPartition.ReturnedExactly` | vllm/env_override.py:197-217 | a partition returns exactly what it made and was asked for, plus the allocated inputs it did not free |
| `GraphPartition.UnmetOrigin` | vllm/env_override.py:116-240 | an unmet name is a graph output or some partition's input, and is a real name |
| `GraphPartition.StepKeepsHolding` | vllm/env_override.py:139-240 | one call succeeds and leaves an environment that holds what the rest needs |
| `GraphPartition.PartitionsRun` | vllm/env_override.py:102-240 | availability over whole runs: every read and write finds its real buffer, every output can be returned, graph outputs exist at the end |
| `GraphPartition.NoKeyError` | vllm/env_override.py:186-217 | on well-formed graphs the pass never looks up an unknown name |
| `GraphPartition.NothingProducedIsMissing` | vllm/env_override.py:116-240 | nothing a partition produces is asked of the caller |
| `GraphPartition.GraphRunsFromItsInputs` | vllm/env_override.py:102-240 | the run succeeds from an environment that holds only what no partition produces |
| `GraphPartition.AlwaysRunsIff` | vllm/env_override.py:102-240 | for a regular graph every environment with the unmet names runs exactly when all input names have storage |
| `GraphPartition.StorageFromRealNames` | vllm/env_override.py:119-137 | graphs in which real names are allocated have storage for every input name |
| `GraphPartition.StorageIsNeeded` | vllm/env_override.py:119-137 | a concrete regular graph on which availability fails for want of storage |
| `PlanningStack.WrapperCodegen.Trim` | vllm/env_override.py:70-76 | removes the longest trailing run of planning lines for non-outputs |
| `PlanningStack.TrimmedUnique` | vllm/env_override.py:70-76 | the trimmed list is determined by the input |
| `PlanningStack.WrapperCodegen.MemoryPlanReuse` | vllm/env_override.py:78-90 | succeeds exactly on accepted line lists; every planning line gets the state of its innermost subgraph; each state is retired once, at each Exit that of the subgraph it leaves and the rest at the end; the assertion fails exactly when an Enter is left open |
| `PlanningStack.TopIsInnermost` | vllm/env_override.py:81-88 | the top of the stack is the state of the innermost open subgraph |
| `PlanningStack.SharedStateSameSubgraph` | vllm/env_override.py:81-88 | two lines share a state exactly when their innermost subgraph is the same one |
| `PlanningStack.PushKeepsOnce` | vllm/env_override.py:85-86 | pushing keeps every created state in one place |
| `PlanningStack.PopKeepsOnce` | vllm/env_override.py:87-89 | popping moves a state from the stack to the retired ones and loses none |
| `PlanningStack.NestingSuffices` | vllm/env_override.py:81-90 | proper nesting is accepted, and is not necessary |
| `NinjaLog.Lookup` | tools/report_build_time_ninja.py:133-134 | finds the entry of a hash |
| `NinjaLog.Record` | tools/report_build_time_ninja.py:144-147 | adds the name to the entry of its hash, or a new target at the end |
| `NinjaLog.ResetTest` | tools/report_build_time_ninja.py:124-142 | the two tests of the loop hold exactly when the step cannot belong to the build kept so far |
| `NinjaLog.ChooseDict` | tools/report_build_time_ninja.py:124-143 | the two resets: the dictionary that holds the lines before this one that are kept with it, and the place of its hash in it |
| `NinjaLog.ReadStep` | tools/report_build_time_ninja.py:120-147 | one step keeps the dictionary equal to the grouping of the kept suffix |
| `NinjaLog.ReadTargets` | tools/report_build_time_ninja.py:104-148 | fails exactly on a foreign header; else fresh targets that group all well-formed lines if all are asked for, and otherwise the last of the builds they split into |
| `NinjaLog.WellFormedPrefix` | tools/report_build_time_ninja.py:114-120 | the well-formed lines are all steps of the log, each once and in order |
| `NinjaLog.GroupPartitions` | tools/report_build_time_ninja.py:132-147 | every step lands in exactly one entry, which holds the names of its hash in order and the times of the first |
| `NinjaLog.GroupOrder` | tools/report_build_time_ninja.py:144-148 | the entries stand in the order in which the log first names them |
| `NinjaLog.StartsNewBuildIff` | tools/report_build_time_ninja.py:124-143 | the test for a new build holds exactly if the line does not fit the build kept so far |
| `NinjaLog.KeptIsLastBuild` | tools/report_build_time_ninja.py:124-143 | the kept lines are the last of the builds into which the log splits, each as long as the next line fits |
| `NinjaLog.CutsUnique` | tools/report_build_time_ninja.py:124-143 | there is only one such way to split a log |
| `NinjaLog.KeptIsOneBuild` | tools/report_build_time_ninja.py:124-143 | in the kept suffix end times never decrease and equal hashes share their times |
| `NinjaLog.GroupEndsInOrder` | tools/report_build_time_ninja.py:146-148 | the entries of one build have non-decreasing end times |
| `NinjaLog.LastBuildReported` | tools/report_build_time_ninja.py:112-148 | all of the above for the result on any log |
| `NinjaLog.LongerSuffixStartsLater` | tools/report_build_time_ninja.py:124-143 | any suffix that looks like one build starts after the build before the kept one did |
| `NinjaLog.KeptIsLongestIff` | tools/report_build_time_ninja.py:124-143 | no longer suffix looks like one build exactly when the line before the kept ones does not fit |
| `NinjaLog.KeptIsNotLongest` | tools/report_build_time_ninja.py:133-143 | a log on which a longer suffix would also look like one build |
| `EventSweep.Collect` | tools/report_build_time_ninja.py:209-220 | the event list, the summed durations and, for non-negative times, the earliest start and latest end |
| `EventSweep.SortSorts` | tools/report_build_time_ninja.py:223-228 | the sorted list is ordered by time, starts first, and is a permutation |
| `EventSweep.SortedIsSchedule` | tools/report_build_time_ninja.py:212-228 | after sorting every start and stop occurs once, in order |
| `EventSweep.HandleEvent` | tools/report_build_time_ninja.py:239-255 | one event updates the running tasks, the weighted time and the total as booked; a KeyError exactly for a stop without a start |
| `EventSweep.SweepEvent` | tools/report_build_time_ninja.py:238-255 | one event keeps the books balanced with the shares up to that event |
| `EventSweep.MissingMeansBackwards` | tools/report_build_time_ninja.py:248-254 | a stop finds no start only for a task that ends before it starts |
| `EventSweep.Sweep` | tools/report_build_time_ninja.py:229-256 | each task is credited exactly its share and the total is the busy time; fails exactly when some task runs backwards |
| `EventSweep.SummarizeEntries` | tools/report_build_time_ninja.py:207-256 | the whole function: weighted durations, weighted total, length and summed durations, with both error cases |
| `EventSweep.SharesConserve` | tools/report_build_time_ninja.py:238-255 | for any tasks and instants the shares add up to the busy time |
| `EventSweep.FairSplitIsEqualPart` | tools/report_build_time_ninja.py:238-246 | a split of an interval that prefers no running task, gives nothing to others and uses it up can only be the one booked |
| `EventSweep.BusyAndIdle` | tools/report_build_time_ninja.py:238-255 | busy and idle time make up the span |
| `EventSweep.ShareBounds` | tools/report_build_time_ninja.py:74-89 | a share lies between 0 and how long its task has been running, so within the duration |
| `EventSweep.EventsSpanBuild` | tools/report_build_time_ninja.py:209-220 | the first and last event are the earliest start and latest end |
| `EventSweep.WeightedTimesConserve` | tools/report_build_time_ninja.py:207-256 | conservation for every list of forward tasks, and equality with the span exactly when there is no idle gap |
| `ChunkTiling.MemcreateChunkSize` | csrc/cumem_allocator.cpp:24-42 | the configured megabytes if positive and below 2^64 bytes, else the default |
| `ChunkTiling.AlignUpIsLeast` | csrc/cumem_allocator.cpp:290 | the aligned size is the least multiple of the granularity at or above the request |
| `ChunkTiling.ChunkSizes` | csrc/cumem_allocator.cpp:318-340 | the loop fills in the chunk list |
| `ChunkTiling.ChunksOfRequest` | csrc/cumem_allocator.cpp:290-340 | the chunks of any request sum to the aligned size, all but the last have the aligned configured size and the last is no longer; positive multiples of the granularity, none exactly for size 0 |
| `ChunkTiling.PlanChunks` | csrc/cumem_allocator.cpp:290-340 | for every request, 0 included: the aligned total, cut into chunks of the aligned configured size |
| `ChunkTiling.CutsIntoUnique` | csrc/cumem_allocator.cpp:315-339 | a total and a chunk size leave only one such list |
| `ChunkTiling.HalfGigabyte` | csrc/cumem_allocator.cpp:24-42 | with nothing configured half a gigabyte is two chunks of 256 megabytes |
| `ChunkTiling.ChunksTile` | csrc/cumem_allocator.cpp:131-149 | every byte of the range lies in exactly one chunk |
| `CumemDriver.TeardownUndoesMapping` | csrc/cumem_allocator.cpp:121-150 | unmapping and releasing what was created and mapped so far restores the driver, however far that was |
| `CumemDriver.NextChunkFits` | csrc/cumem_allocator.cpp:132-134 | the running-offset mapping of the next chunk never collides with anything |
| `CumemDriver.MapRegion` | csrc/cumem_allocator.cpp:131-150 | mapping all chunks makes the reservation a region and disturbs no other |
| `CumemDriver.TearRegion` | csrc/cumem_allocator.cpp:187-204 | tearing a region down leaves its reservation wholly unmapped and disturbs no other |
| `CumemDriver.WhollyMappedOrNot` | csrc/cumem_allocator.cpp:131-150 | byte by byte, a reservation is wholly mapped or wholly unmapped |
| `CumemDriver.CanFreeIff` | csrc/cumem_allocator.cpp:385 | an address range can be given back exactly when it is unmapped and the size is right |
| `CumemRollback.CreatedUndone` | csrc/cumem_allocator.cpp:123-129 | the rollback of the creation loop restores the driver but for used handle numbers |
| `CumemRollback.MappedUndone` | csrc/cumem_allocator.cpp:135-148 | the rollback of the mapping loop restores the driver but for used handle numbers, whichever chunk failed |
| `CumemSafety.NextChunkAccepted` | csrc/cumem_allocator.cpp:132-134 | however far the mapping loop is, the driver has no ground to refuse the next chunk of an unmapped range |
| `CumemSafety.MapEnds` | csrc/cumem_allocator.cpp:95-164 | the outcome of create_and_map for all answers, awake or asleep, and the driver, cells and latch it leaves: all or nothing |
| `CumemSafety.MapKeeps` | csrc/cumem_allocator.cpp:95-164 | whatever the outcome, the invariant over all ranges is kept |
| `CumemTeardown.TeardownKeeps` | csrc/cumem_allocator.cpp:166-210 | unmapping and releasing keeps the invariant and unmaps exactly this range, whatever its cells hold |
| `CumemTeardown.TeardownLoose` | csrc/cumem_allocator.cpp:199-204 | exactly the handles of the range that its cells no longer hold stay behind |
| `CumemTeardown.TeardownLeaksIff` | csrc/cumem_allocator.cpp:187-204 | nothing stays behind exactly when the range is asleep or its cells are intact |
| `CumemTeardown.TeardownCleanIff` | csrc/cumem_allocator.cpp:187-208 | no call fails exactly if the range is mapped and its cells hold live handles, no two the same |
| `CumemOperations.MallocKeeps` | csrc/cumem_allocator.cpp:270-398 | the invariant after every outcome of my_malloc, and exactly what each outcome grants, loses or leaks |
| `CumemOperations.FreeKeeps` | csrc/cumem_allocator.cpp:401-509 | the invariant after every outcome of my_free, and exactly what each outcome gives back, loses or leaks |
| `CumemSleepWake.SleepKeeps` | csrc/cumem_allocator.cpp:537-633 | putting any entry to sleep keeps the invariant; it leaks exactly if the cells are not intact |
| `CumemSleepWake.SleepRaises` | csrc/cumem_allocator.cpp:537-633 | an error is raised exactly if one is latched, the context fails, the range is asleep or its cells are not releasable |
| `CumemSleepWake.WakeKeeps` | csrc/cumem_allocator.cpp:635-700 | waking any entry, awake or asleep, keeps the invariant; exactly what it maps, leaks and leaves intact |
| `CumemRuns.StepSound` | csrc/cumem_allocator.cpp:270-700 | every call in every state keeps the invariant, whatever driver and host answer |
| `CumemRuns.StepLosesIff` | csrc/cumem_allocator.cpp:270-700 | a call loses a reservation, a handle or the way to a handle exactly if its reply is a losing one |
| `CumemRuns.RunSound` | csrc/cumem_allocator.cpp:270-700 | the invariant after every run of calls, one that ends in a dangling access included |
| `CumemRuns.RunLosesIff` | csrc/cumem_allocator.cpp:270-700 | no call of a run loses anything exactly if no reply is a losing one |
| `CumemRuns.OwnedIsHeld` | csrc/cumem_allocator.cpp:270-509 | the ranges owned are the pointers granted and not freed, by the replies alone |
| `CumemRuns.NothingIsLeft` | csrc/cumem_allocator.cpp:270-700 | a run from the start with no losing reply and every granted pointer freed leaves no reservation, no mapping and no handle |
| `CumemRuns.CallbacksAfterRun` | csrc/cumem_allocator.cpp:515-535 | the callbacks are set after a run exactly if they were before or a call that has run set them |
| `CumemHostMemory.MapCells` | csrc/cumem_allocator.cpp:95-164 | create_and_map takes and frees no host cell |
| `CumemHostMemory.MallocCells` | csrc/cumem_allocator.cpp:325-397 | my_malloc: one fresh host cell per chunk if the range is granted, none more if it is refused or undone |
| `CumemHostMemory.FreeCells` | csrc/cumem_allocator.cpp:401-509 | my_free: exactly the cells of a range that is freed go |
| `CumemHostMemory.StepKeepsCells` | csrc/cumem_allocator.cpp:270-700 | a call leaves no cell without an owner unless its reply is a lost reservation or a host failure on a held range |
| `CumemHostMemory.CellsAreHeld` | csrc/cumem_allocator.cpp:270-700 | after any run from the start without such a reply the host cells are exactly those of the pointers granted and not freed |
| `CumemHostMemory.NoCellIsLeft` | csrc/cumem_allocator.cpp:270-700 | so none is left once every granted pointer is freed |
| `CumemClient.AllocationIsWhole` | csrc/cumem_allocator.cpp:95-210 | in every sound state, so in every reachable one, each byte of an allocation is mapped or none is |
| `CumemClient.AllocationsDisjoint` | csrc/cumem_allocator.cpp:270-398 | distinct allocations share no byte and no host cell |
| `CumemClient.HandlesOfMapped` | csrc/cumem_allocator.cpp:95-210 | chunk k of a mapped range is mapped by its own handle, and the cells hold the handles exactly if the first one does |
| `CumemClient.HandlesOfSleeping` | csrc/cumem_allocator.cpp:166-210 | no cell of a sleeping range reaches mapped memory; one that holds a live handle holds a leaked one |
| `CumemClient.MallocExact` | csrc/cumem_allocator.cpp:270-398 | the outcome of my_malloc for every request and all answers |
| `CumemClient.FreeExact` | csrc/cumem_allocator.cpp:401-509 | the outcome of my_free for every pointer and size |
| `CumemClient.WakeExact` | csrc/cumem_allocator.cpp:635-700 | the outcome of waking for every held pointer, awake or asleep |
| `CumemClient.LatchedWakeLeaks` | csrc/cumem_allocator.cpp:95-130 | while an error is latched waking a range leaks a handle exactly if the driver creates one |
| `CumemClient.FreeLatchesIff` | csrc/cumem_allocator.cpp:401-509 | my_free latches an error exactly if one was latched, the context fails, the range sleeps, its cells are not releasable or the size is wrong |
| `CumemClient.MallocLatchesIff` | csrc/cumem_allocator.cpp:270-398 | my_malloc leaves an error latched exactly if it neither grants the range nor loses the reservation to a host failure |
| `CumemClient.FailuresHappen` | csrc/cumem_allocator.cpp:270-398 | for each failing outcome the one refusal that brings it about |
| `CumemClient.FirstByteFails` | csrc/cumem_allocator.cpp:270-398 | the same for the first byte a process asks for |
| `CumemAllocator.Allocator.EnsureContext` | csrc/cumem_allocator.cpp:85-93 | the latch after up to three calls, never cleared |
| `CumemAllocator.Allocator.UnmapChunks` | csrc/cumem_allocator.cpp:190-197 | the unmap loop: what is mapped goes, and whether every call succeeded |
| `CumemAllocator.Allocator.ReleaseChunks` | csrc/cumem_allocator.cpp:199-204 | the release loop: what is live goes, and whether every call succeeded |
| `CumemAllocator.Allocator.CreateChunks` | csrc/cumem_allocator.cpp:121-130 | the creation loop: where the answers stop it, the handles and cells so far, and its rollback |
| `CumemAllocator.Allocator.MapEach` | csrc/cumem_allocator.cpp:131-150 | the mapping loop: where the answers or the driver stop it, and its rollback |
| `CumemAllocator.Allocator.CreateUnderError` | csrc/cumem_allocator.cpp:121-130 | with an error latched the loop stops at chunk 0, created or not |
| `CumemAllocator.Allocator.CreateAndMap` | csrc/cumem_allocator.cpp:95-164 | from every state, with no condition on the range: the state and outcome `MapEnds` is about |
| `CumemAllocator.Allocator.UnmapAndRelease` | csrc/cumem_allocator.cpp:166-210 | from every state: the driver and the latch the teardown lemmas are about |
| `CumemAllocator.Allocator.InitModule` | csrc/cumem_allocator.cpp:515-535 | the callbacks are set exactly if both are callable |
| `CumemAllocator.Allocator.TakeEach` | csrc/cumem_allocator.cpp:325-336 | one host cell per chunk, or those taken are freed again |
| `CumemAllocator.Allocator.Commit` | csrc/cumem_allocator.cpp:374-397 | a granted range, or the reservation given back where the driver allows it and the cells freed |
| `CumemAllocator.Allocator.MyMalloc` | csrc/cumem_allocator.cpp:270-398 | from every state: the state and outcome `MallocKeeps` and `MallocExact` are about |
| `CumemAllocator.Allocator.MyFree` | csrc/cumem_allocator.cpp:401-509 | from every state and for every pointer: the state and outcome `FreeKeeps` and `FreeExact` are about |
| `CumemAllocator.Allocator.PyUnmapAndRelease` | csrc/cumem_allocator.cpp:537-633 | from every state and for every pointer: the state and reply `SleepKeeps` is about, the error cleared |
| `CumemAllocator.Allocator.PyCreateAndMap` | csrc/cumem_allocator.cpp:635-700 | from every state and for every pointer: the state and reply `WakeKeeps` is about, the error cleared |
| `CumemAllocator.Allocator.Run` | csrc/cumem_allocator.cpp:270-700 | any calls in any order: the state and the replies the run theorems are about |
| `CumemSleepMode.WakeAwake` | csrc/cumem_allocator.cpp:95-164 | waking a mapped range fails, leaves it mapped, and leaves its cells intact exactly if no handle was created |
| `CumemSleepMode.SleepAfterWakeLeaks` | csrc/cumem_allocator.cpp:166-210 | otherwise the next sleep leaks a handle |
| `CumemSleepMode.ReleasableAfterWake` | csrc/cumem_allocator.cpp:95-164 | the cells of a range woken once too often are releasable exactly if no handle was rolled back |
| `CumemSleepMode.SleepCompletes` | vllm/device_allocator/cumem.py:222-237 | if the loop ends, every entry was held and awake and exactly these are now unmapped; nothing is lost if all were intact |
| `CumemSleepMode.SleepAllExact` | vllm/device_allocator/cumem.py:222-237 | with a willing driver sleep() stops exactly at the first entry that nobody holds, that is asleep or whose cells are not releasable |
| `CumemSleepMode.SleepLeavesNothingIff` | vllm/device_allocator/cumem.py:222-237 | a sleep() that gets to its end leaves no handle behind exactly if every entry was intact |
| `CumemSleepMode.SleepTroubleNone` | vllm/device_allocator/cumem.py:222-237 | it gets to its end exactly if every entry is held, awake and releasable and no two share a handle |
| `CumemSleepMode.IntactSleeps` | vllm/device_allocator/cumem.py:222-237 | while every range is intact that is so for all held and awake entries |
| `CumemSleepMode.WakeCompletes` | vllm/device_allocator/cumem.py:261-264 | if the loop ends, every selected entry was held and asleep, exactly these are mapped again in their own chunk sizes |
| `CumemSleepMode.WakeAllExact` | vllm/device_allocator/cumem.py:261-264 | with a willing driver it ends exactly if every selected entry is held and asleep |
| `CumemSleepMode.SleepThenWake` | vllm/device_allocator/cumem.py:201-274 | whatever the driver answers, if both loops end every entry was awake and is mapped again in the same chunk sizes, every other range is as it was, and no handle is left behind exactly if every entry was intact |
| `CumemSleepMode.SleepThenWakeEnds` | vllm/device_allocator/cumem.py:201-274 | with a willing driver both end exactly if nothing stops sleep() |
| `CumemSleepMode.StepStale` | vllm/device_allocator/cumem.py:170-200 | which replies leave an entry stale and which remove it |
| `CumemSleepMode.RunStale` | vllm/device_allocator/cumem.py:170-200 | the stale entries after any run, by the replies alone |
| `CumemSleepMode.WillingMalloc` | csrc/cumem_allocator.cpp:270-398 | when the driver refuses nothing and no error is latched, a request for a free range is granted exactly if the module is initialised |
| `CumemSleepMode.GrantedChunks` | csrc/cumem_allocator.cpp:270-398 | a granted range is reserved at its aligned size and mapped in chunks of the aligned configured size, each by its own handle |
| `CumemAllocator.Allocator.SleepAll` | vllm/device_allocator/cumem.py:222-237 | the loop over any entries in any order: the state and reply the sleep theorems are about |
| `CumemAllocator.Allocator.WakeAll` | vllm/device_allocator/cumem.py:261-264 | the loop over any entries in any order: the state and reply the wake theorems are about |
| `Logprobs.FlatLogprobs.Append` | vllm/logprobs.py:63-72 | adds one position that reads back as the dictionary, None as an empty one |
| `Logprobs.FlatLogprobs.AppendFast` | vllm/logprobs.py:74-93 | adds one position that reads back as the dictionary of the zipped lists |
| `Logprobs.FlatLogprobs.Extend` | vllm/logprobs.py:95-98 | adds the positions in order |
| `Logprobs.FlatLogprobs.GetItem` | vllm/logprobs.py:110-120 | reads a position, negative ones from the end: each key once, in order of first appearance, with its last value; IndexError exactly outside |
| `Logprobs.FlatLogprobs.GetSlice` | vllm/logprobs.py:121-133 | for every start, stop and step: errors for step 0 and for an empty slice; forwards it reads as the slice of the list, backwards only positions without entries can be read |
| `Logprobs.AddPositionView` | vllm/logprobs.py:63-93 | appending to the flat form appends to what it reads as |
| `Logprobs.ForwardSlice` | vllm/logprobs.py:121-133 | any ascending choice of positions reads as the same choice from the list |
| `Logprobs.BackwardSlice` | vllm/logprobs.py:121-133 | after a descending choice a position can be read exactly when it holds no entries |
| `Logprobs.SelectedAny` | vllm/logprobs.py:121-127 | the selected positions exist and run in the direction of the step |
| `Logprobs.SelectedIff` | vllm/logprobs.py:121-127 | a position is selected exactly if it lies between the bounds, negative ones counted from the end, a whole number of steps from the first |
| `Logprobs.StepRefines` | vllm/logprobs.py:63-133 | one operation on the flat form is the operation on the list |
| `Logprobs.RunRefines` | vllm/logprobs.py:63-152 | so is every sequence of operations, slices of slices included |
| `Logprobs.FlatLogprobs.ReadEntries` | vllm/logprobs.py:113-120 | the loop of the comprehension builds the dictionary of the entries |
| `Logprobs.FromItemsIs` | vllm/logprobs.py:113-120 | the dictionary of a list of items has each key once, in order of first appearance, with the last value |
| `Logprobs.LastItemWins` | vllm/logprobs.py:113-120 | looking a key up finds the value of its last item |
| `Logprobs.FromItemsDistinct` | vllm/logprobs.py:113-120 | what is read back has distinct keys |
| `Logprobs.FromItemsOfDict` | vllm/logprobs.py:66-71 | a dictionary survives being written out and read back, order included |
| `Logprobs.AppendToFlat` | vllm/logprobs.py:184-193 | the flat branch adds the zipped position with the ranks of the call |
| `Logprobs.BranchesAgree` | vllm/logprobs.py:162-206 | over any sequence of calls, with repeated tokens, unequal lengths and -1 included, both branches read the same |
| `Logprobs.CallItems` | vllm/logprobs.py:183-206 | what a call has to store, place by place: the sampled token with its rank, then ranks 1, 2, ... for as many as all lists and the number asked for allow |
| `Logprobs.CallIsStored` | vllm/logprobs.py:162-206 | after any calls each position holds the dictionary of what its call had to store |
| `Logprobs.SampledRankKeptIff` | vllm/logprobs.py:184-190 | what is found under the sampled token, and exactly when that has the rank passed in |
| `BadWords.NoBadWordsLogitsProcessor.CheckTokenIdsBounds` | vllm/logits_process.py:106-121 | collects exactly bad token ids, none exactly when all are in the vocabulary |
| `BadWords.NoBadWordsLogitsProcessor.InitWordBias` | vllm/logits_process.py:89-104 | the cached bias marks exactly the one-token words; ValueError exactly for an unknown id |
| `BadWords.NoBadWordsLogitsProcessor.LastTokenBias` | vllm/logits_process.py:64-83 | the second bias marks exactly the tokens that complete a longer word; fails exactly on an empty word |
| `BadWords.NoBadWordsLogitsProcessor.Call` | vllm/logits_process.py:56-87 | the result is minus infinity exactly where a bad word would be completed and unchanged elsewhere, with both error cases |
| `BadWords.CompletesSplit` | vllm/logits_process.py:64-85 | a token completes a bad word exactly when one of the two biases marks it |
| `BadWords.LongerIsSuffix` | vllm/logits_process.py:66-80 | what the loop tests is that the word is a suffix of the text with the token |
| `BadWords.SampledIffFree` | vllm/logits_process.py:56-104 | over whole runs: sampling above minus infinity never ends a bad word in generated text, and text without one could have been sampled |
| `RequestOutput.CompletionOutput.Absorb` | vllm/outputs.py:155-168 | joins two completions of one index; fails exactly when log-probabilities have no place to go |
| `RequestOutput.RequestOutput.FindPlace` | vllm/outputs.py:153-154 | the first completion with the index, or the end |
| `RequestOutput.RequestOutput.MergeOutputs` | vllm/outputs.py:152-174 | the nested loops compute the fold of the merge over the values, with adopted objects tracked |
| `RequestOutput.RequestOutput.AddNext` | vllm/outputs.py:146-174 | add computes the merge of the values and fails exactly when it does |
| `RequestOutput.MergeRegroups` | vllm/outputs.py:152-174 | folding a merged list is folding one list after the other |
| `RequestOutput.MergeSucceedsIff` | vllm/outputs.py:161-163 | the exact condition under which aggregating succeeds |
| `RequestOutput.AddAssociates` | vllm/outputs.py:146-174 | both groupings agree, and the right one succeeds exactly when the left one does and log-probabilities have a place |
| `RequestOutput.AggregateConcatenates` | vllm/outputs.py:155-168 | per index: text, tokens and log-probabilities are the concatenation of the deltas, the rest is the latest |
| `RequestOutput.ReplaceKeepsLatest` | vllm/outputs.py:169-174 | per index: the latest completion |
| `RequestOutput.IndicesInOrder` | vllm/outputs.py:152-174 | indices stay in order of first appearance and distinct |
| `RequestOutput.RepeatedIndexBreaks` | vllm/outputs.py:152-174 | every list with a repeated index has outputs before and after it on which regrouping differs, in both modes |
| `RequestOutput.AssociatesIff` | vllm/outputs.py:146-174 | for a given middle output the law holds for all others exactly if its indices are distinct |
| `Bits.ExtractPack` | vllm/scalar_type.py:146-158 | every packed field can be read back cut to its width |
| `Bits.PackFits` | vllm/scalar_type.py:146-160 | the packed value is below two to the total width |
| `ScalarTypes.Packer.OrAndAdvance` | vllm/scalar_type.py:146-151 | one call appends one field |
| `ScalarTypes.ComputeId` | vllm/scalar_type.py:136-164 | the closure calls compute the packed identifier, which fits 64 bits |
| `ScalarTypes.FromBitsOfId` | vllm/scalar_type.py:143-158 | reading an identifier back gives the type cut to its bits |
| `ScalarTypes.RoundTripIffInRange` | vllm/scalar_type.py:136-164 | the round trip is exact exactly for in-range types |
| `ScalarTypes.SameIdIff` | vllm/scalar_type.py:136-164 | two types share an identifier exactly when they agree on the kept bits |
| `ScalarTypes.Registry.ReadId` | vllm/scalar_type.py:136-164 | the first reading of an object's identifier registers its type, displacing another exactly when the two agree on the kept bits; later readings change nothing |
| `ScalarTypes.Registry.FromId` | vllm/scalar_type.py:308-312 | the registered type, whose bits are the identifier; ValueError exactly when there is none |
| `ScalarTypes.Registry.Construct` | vllm/scalar_type.py:264-306 | a new object of the type, its identifier read and registered |
| `ScalarTypes.Registry.Int` | vllm/scalar_type.py:266-271 | the signed integer type, registered |
| `ScalarTypes.Registry.Uint` | vllm/scalar_type.py:273-278 | the unsigned integer type, registered |
| `ScalarTypes.Registry.FloatIeee754` | vllm/scalar_type.py:280-289 | the IEEE 754 type, registered, or an assertion error |
| `ScalarTypes.Registry.Float` | vllm/scalar_type.py:291-306 | the non-standard type, registered, or an assertion error |
| `ScalarTypes.FoundAfterAnyRunIff` | vllm/scalar_type.py:136-164 | every run of readings, repeated ones included, leaves from_id(t.id) equal to t for all types read exactly if no two of the objects clash on the kept bits |
| `ScalarTypes.FromIdAfterAnyRun` | vllm/scalar_type.py:136-164 | so it is for in-range types |
| `ScalarTypes.OutOfRangeCollides` | vllm/scalar_type.py:153-162 | for every type there is another with the same identifier, and the two are never both in range |
| `ScalarTypes.DisplacedStaysDisplaced` | vllm/scalar_type.py:136-164 | a type displaced by another is not restored when its identifier is read again |
| `FloatLimits.TopIsLargest` | vllm/scalar_type.py:76-85 | the top exponent and mantissa give the largest finite value over all encodings of the format |
| `FloatLimits.FieldsDoNotOverlap` | vllm/scalar_type.py:97-101 | the packed fields do not overlap, for the maximum and the minimum |
| `FloatLimits.CodeDouble` | vllm/scalar_type.py:94-105 | the double stands for the top mantissa with an implicit one, at the top exponent |
| `FloatLimits.MaxIsLargestIff` | vllm/scalar_type.py:71-125 | for every format the code accepts, the maximum is right exactly outside two families, and the minimum is its negation |
| `FloatLimits.OneExponentBitFails` | vllm/scalar_type.py:80-101 | the first family: one exponent bit under IEEE 754 |
| `FloatLimits.NoMantissaBitsFails` | vllm/scalar_type.py:76-105 | the second family: no mantissa bits under the extended encoding |
| `FloatLimits.MinIsNegation` | vllm/scalar_type.py:116-125 | setting the sign bit negates the value |
| `FloatLimits.E8m0HasNoMax` | vllm/scalar_type.py:71-105 | the type with eight exponent bits and no mantissa has no representable maximum |
| `ForwardContext.SpTokensAt` | vllm/forward_context.py:60-68 | entry i * sp + j is the share of rank i's tokens, rounded up, for every j below sp |
| `ForwardContext.ComputeChunkedLocalNumTokens` | vllm/forward_context.py:71-86 | every rank's size for a chunk, always between 1 and the maximum |
| `ForwardContext.GivenWhileReal` | vllm/forward_context.py:81-85 | while real chunks last a rank has been given the smaller of its tokens and full chunks |
| `ForwardContext.ChunksConserve` | vllm/forward_context.py:81-86 | over any number of rounds a rank gets its tokens once and one dummy token in each later round |
| `ForwardContext.CuTokensAcrossSp` | vllm/forward_context.py:177-182 | the prefix sums of the unchunked sizes |
| `ForwardContext.SpSharesCoverTokens` | vllm/forward_context.py:60-68 | the shares cover all tokens, with less than one extra token per rank |
| `ForwardContext.ScopeAfter` | vllm/forward_context.py:116-182 | whatever is nested and however it ends, the context is restored; sizes are reset exactly if a sizes block was entered |
| `ForwardContext.ReadsInnermost` | vllm/forward_context.py:251-262 | every read sees the context of the innermost override around it, up to the first exception, and no block swallows one |
| `ForwardContext.ReadsSizes` | vllm/forward_context.py:116-182 | every read sees the sizes of the block around it, or none once a block inside that one has been left, up to the first exception |
| `ForwardContext.SizesVisibleInBlock` | vllm/forward_context.py:144-171 | inside a block the sizes can still be read exactly when no inner block was entered |
| `RateLimiter.RateLimiter.TryAcquire` | benchmarks/disagg_benchmarks/rate_limiter.py:20-36 | one critical section is one attempt on the bucket |
| `RateLimiter.RateLimiter.Acquire` | benchmarks/disagg_benchmarks/rate_limiter.py:17-36 | the retry loop takes exactly one token, or none while the clock readings last |
| `RateLimiter.GrantsSinceRefill` | benchmarks/disagg_benchmarks/rate_limiter.py:21-32 | at most m refills can follow within m + 1 seconds |
| `RateLimiter.FirstSecondsBound` | benchmarks/disagg_benchmarks/rate_limiter.py:11-36 | the first T seconds grant at most rate times ceil(T) |
| `RateLimiter.WindowBound` | benchmarks/disagg_benchmarks/rate_limiter.py:17-36 | after any run a closed window of T seconds grants at most rate times (1 + ceil(T)), twice the rate for one second |
| `RateLimiter.SecondExact` | benchmarks/disagg_benchmarks/rate_limiter.py:17-36 | the exact number of grants in any second after any run, and exactly when it stays within the rate |
| `RateLimiter.WindowBoundReached` | benchmarks/disagg_benchmarks/rate_limiter.py:24-32 | twice the rate is reached |
| `RateLimiter.SleepBounds` | benchmarks/disagg_benchmarks/rate_limiter.py:34-36 | every computed sleep lies in [0, 1]; longer sleeps succeed, exact ones do not |
| `RateLimiter.RunValid` | benchmarks/disagg_benchmarks/rate_limiter.py:17-36 | tokens stay between 0 and the rate |
| `RequestQueue.StepKeepsInv` | benchmarks/disagg_benchmarks/request_queue.py:21-39 | one step of any coroutine keeps the invariant: counter, order, permits and lock |
| `RequestQueue.RunKeepsInv` | benchmarks/disagg_benchmarks/request_queue.py:21-39 | in every interleaving the counter is right and bounded and accepted tasks start once, in order |
| `RequestQueue.AcceptedIff` | benchmarks/disagg_benchmarks/request_queue.py:21-29 | after any run an enqueue can go on exactly when the lock is free, and then takes its task exactly if fewer tasks wait than the queue may hold |
| `RequestQueue.FirstTasksFit` | benchmarks/disagg_benchmarks/request_queue.py:21-29 | of tasks that arrive while nothing runs exactly the first that fit wait, in order |
| `RequestQueue.LoopsEndByExceptions` | benchmarks/disagg_benchmarks/request_queue.py:31-39 | as many loops have ended as tasks have raised and empty pops have happened |
| `RequestQueue.NoTaskIsStuck` | benchmarks/disagg_benchmarks/request_queue.py:31-39 | after any run with fewer such exceptions than loops, all tasks accepted so far can still be started |
| `RequestQueue.OneTaskInFlight` | benchmarks/disagg_benchmarks/request_queue.py:35-38 | no two tasks are in flight together, whatever the number of permits |
| `RequestQueue.OneConsumerNeverPopsEmpty` | benchmarks/disagg_benchmarks/request_queue.py:33-37 | with one consumer a pop always finds a task |
| `RequestQueue.EmptyPopIff` | benchmarks/disagg_benchmarks/request_queue.py:33-37 | some reachable state has popped an empty deque exactly with two or more consumers, a permit and room for a task |

## Modelling assumptions

- Times, logits and weighted durations are exact numbers; a logit is minus infinity or a real.
- `GraphPartition.WellFormed` collects the assumptions on the compiled graph: renaming is acyclic, input
  names have storage and are their own real names, freed names are allocated and not needed later,
  produced names are known.
- In the allocator every acquiring call (context, granularity, address range, handle, mapping, access
  rights, host memory, callback) may fail at will: the answers are a parameter, one per question, and the
  theorems hold for all of them. Unmapping, releasing and returning an address range succeed exactly
  when the request is valid; sizes do not overflow; handles and host cells are not reused. The address
  a reservation gets and the content of fresh host memory are parameters.
- Where the code would use host cells it has freed, the reply is `Dangling` and a run stops: what happens then
  is undefined in C++.
- In `RequestOutput` no completion object is listed twice or shared between the two requests.
- In `RequestQueue` control changes hands only at await points, and a task ends at any later step.

## Left out

- The query processor, the scheduler, the block pool and the model executor: not part of this model.
- Kernel wrappers, tensor shapes and operator registration: only shape arithmetic would remain.
- Threads, reference counts and argument parsing in csrc/cumem_allocator.cpp: replaced by the abstract driver and table.
- The non-ROCm branches of csrc/cumem_allocator.cpp: the single-chunk case without rollback.
- Copying the contents of sleeping ranges to the host and back in vllm/device_allocator/cumem.py: data is not modelled, only what is mapped.
- The two array allocations of my_malloc at csrc/cumem_allocator.cpp:320-324: the code does not check them, so only their success is modelled.
- Releasing idle allocations when a memory pool is left, vllm/device_allocator/cumem.py:311-315: PyTorch's own records decide which.
- Tags in vllm/device_allocator/cumem.py: which entries wake_up() selects is a parameter.
- Reuse of host memory: freed host cells are not handed out again.
- GraphPartition.GetGraphPartitionSignature: inputs and outputs are sets and symbol inputs are absent, because their order and the symbols do not bear on availability.
- GraphPartition.PartitionSignature: the same, for one partition.
- Integer bounds of integer scalar types and the type predicates in vllm/scalar_type.py: single expressions.
- Floating-point rounding in the build-log tool and the rate limiter: times are exact.
- Parsing of log lines into fields, extension grouping and printing in the build-log tool: a line is a step or is ignored.
- Runs with negative-step slices: `Logprobs.RunRefines` is about positive steps, since after a backward slice the two forms differ.
- The predicates that decide where a graph is split in vllm/env_override.py: a chain of foreign tests.
