# A verified model of the 418Cache simulator

The program simulates `N` snooping caches kept coherent by MSI, MESI or MOESI over one
atomic bus, driven by a trace of memory accesses.  A miss or an upgrade becomes a bus
request; the bus grants one request, lets every other cache snoop it at once, adjusts the
end of the transaction by each answer, and the requester changes its own line only when
the transaction completes, many cycles later.  This project models that machine for any
number of processors, sets, ways and cycle costs, and proves what holds in every reachable
state and over whole runs.  It also covers the benchmark programs whose traces the
simulator was built for: breadth-first search, the transposition of adjacency lists, and
quicksort.

## How it is organised

- `Constants`, `LineSets`, `CacheModel`, `SystemModel`: each operation as a function on
  values, up to one iteration of the controller's loop and arbitrary interleavings of
  clock ticks, cache ticks, bus ticks and arriving jobs (`Run`).
- `CacheSets`, `Caches`, `Buses`, `Controllers`: the program's objects with mutable fields
  and loops.  Every method's postcondition equates the object's new abstract value with
  that function of the old one; `Controllers.Simulate` runs the whole `while` loop and ends
  in exactly the state of the interpreter below.
- `Coherence`, `Safety`, `ServiceTime`, `Recency`, `Requests`: inductive invariants of all
  interleavings, and the safety, timing, replacement and queueing theorems they give.
- `JobRunner`, `CycleLoop`: a job-at-a-time interpreter, and the proof that the
  cycle-by-cycle loop computes what it computes, on every trace, and that every state the
  loop passes through is one of the reachable states the invariants speak of.
- `JobEffects`, `Counts`, `Simulation`, `Exactness`, `MoesiExactness`: what one job does to
  every copy of every line, hence conservation of the counters, the MESI/MSI comparison, and
  the exact conditions under which MESI and MOESI have a single writer.
- `Ledger`, `DirtyLines`: every counter, the clock and every copy after a job as a function of
  the lines before it, with states, costs and counts written out; hence closed forms for all
  counters and for the clock at the end of every trace, and which lines are dirty then.
- `Replacement`, `Overflow`: what one job does to every timestamp, which line it replaces, and
  the exact condition under which the MESI/MSI comparison survives replacement.
- `Graphs`, `Bfs`, `BfsThreads`, `Transpose`, `Quicksort`: the benchmark programs.

Sizes and costs are those of a `Config`: at least one processor and one way,
`0 < cacheResponse < memoryResponse`, at most 30 set bits, and set and byte bits within the
address.  `numSets` is `2^numSetBits`.  `tagMaskBits` is how many tag bits the `int` mask
keeps: all of them up to 30, and any number up to 31 for wider tags.  A trace is a sequence
of jobs whose cache numbers are in range, which the program's `threadId % numProcessors`
ensures; a job may be neither a read nor a write, and the hit cost may be 0.

## What turned out differently from what one expects

- MESI is **not** single-writer on every trace.  The store that turns an exclusive line
  into a modified one scans *every* set for the tag (`Cache.cpp` 92-102), so it also revives
  an invalidated line of another set that has the same tag.  `CollisionBreaksMesi` gives a
  four-job trace for two or more processors; `MesiSingleWriterIff` shows that MESI is
  single-writer on all traces over some addresses if and only if there is one processor or
  equal tags imply equal sets among the addresses.
- MOESI always has a single owner, but a single writer only on small machines.  Its bus
  ignores `SHARED` answers (`AtomicBusManager.cpp` 93-108), so a reader that finds only
  shared copies becomes exclusive beside them.  `MoesiSingleWriterIff` gives the exact
  condition: MOESI is single-writer on all traces over some addresses if and only if there
  is one processor, or no address, or there are two processors, equal tags imply equal sets,
  and no set has more tags than lines.  `ThirdReaderIsExclusive`, `CollisionBreaksMoesi` and
  `CrowdingBreaksMoesi` are the traces that fail otherwise.
- MESI does not always end in MSI's states up to exclusive, because they may replace
  different lines: a store that MESI keeps to itself is a `BusRdX` under MSI, and the lookup
  it causes in another cache makes even an invalid line there recently used.  Where tags
  identify sets, `MesiSimulatesMsiIff` shows that the simulation holds on all traces over some
  addresses if and only if there is one processor, or one line a set, or no set has more tags
  than lines; `OverflowBreaksSimulation` is the trace otherwise.  It contains a job that is
  neither a read nor a write, since an idle cache keeps its last job's line recently used.
- Every transaction ends after its start, although the end is decremented once per
  answering cache, with one exception: a MOESI upgrade takes no time when hits cost nothing.
  `BusServiceTime` states this as an equivalence and `FreeUpgradeExample` is a run in which
  it happens.
- The tag mask `(1 << numTagBits) - 1` is an `int` (`Cache.cpp` 50), and the constants that
  `CacheConstants.cpp` 33-48 sets need 36 bits: 48 for an address less 6 for the set and 6
  for the byte.  `DecodeRebuildsAddress` and `SameSetAndTagIff` say what decoding keeps
  whatever the mask, and `TellsLinesApartIff` that it tells all lines apart if and only if
  the mask reaches every tag bit, hence never for tags of 32 bits or more.
- The fork-join quicksort's guard `low == high` (`quicksort.cpp` 243) lets empty segments
  through at a positive level, and partitioning one reaches outside it.  `StaysInSegmentIff`
  and `ParallelSortsIff` give the exact condition: all pivots keep to the segment, and the
  whole array is sorted for all pivots, if and only if the level is 0 or less, or there is
  one element, or there is one level and something to split.  `UnsortedExample` is a run in
  which every access hits the array and the result is not sorted.
  `RepairedParallelHelper` is the helper with the guard `low >= high`, which sorts at every level.
- A pivot draw of exactly 1, which `rand()` gives when it returns `RAND_MAX`, selects the
  element after the segment (`PivotInSegmentIff`); the sorting theorems are about draws
  below 1, whose pivots `PivotIsScaled` describes.
- The breadth-first step has 100 thread handles and starts one thread per node; the search
  finishes if and only if there are at most as many nodes as handles.
- `isFull` means "at capacity and every line modified" (`CacheSet.cpp` 17-30); other full
  sets evict inside `addLine` without counting it.

## Model

| member | source | states |
|---|---|---|
| Constants.DecodeRebuildsAddress | 418Cache/418Cache/Cache.cpp:43-55 | set, tag and byte offset rebuild an address if and only if the byte bits, the set bits and the bits the tag mask keeps reach its last bit |
| Constants.SameSetAndTagIff | 418Cache/418Cache/Cache.cpp:43-55 | two addresses decode to the same set and tag if and only if their line numbers agree in the bits the two masks keep |
| Constants.TellsLinesApartIff | 418Cache/418Cache/Cache.cpp:43-55 | decoding tells all lines of the configured width apart if and only if the tag mask reaches every tag bit, hence never for tags of 32 bits or more |
| LineSets.Find | 418Cache/418Cache/CacheSet.cpp:40-60 | a lookup by tag finds the first line with that tag, or none exists |
| LineSets.Lru | 418Cache/418Cache/CacheSet.cpp:90-104 | the eviction scan selects the first line of least timestamp |
| LineSets.TouchKeepsStates | 418Cache/418Cache/CacheSet.cpp:51-60 | a lookup moves one timestamp and no line, tag or state |
| LineSets.EvictDropsOneTag | 418Cache/418Cache/CacheSet.cpp:90-104 | an eviction forgets exactly the victim's tag; every other tag keeps its line and state |
| LineSets.InstallReplacesLeastRecentlyUsed | 418Cache/418Cache/CacheSet.cpp:32-38 | adding to a set at capacity removes the first least recently used line, keeps the others in order, and never removes the new line |
| LineSets.FullSetHasModifiedVictim | 418Cache/418Cache/CacheSet.cpp:63-85 | a set that `isFull` always has a modified victim, so prediction and eviction use the same test |
| CacheSets.CacheConstants.Tick | 418Cache/418Cache/CacheConstants.cpp:98-100 | the shared clock advances by one |
| CacheSets.CacheSet.IsFull | 418Cache/418Cache/CacheSet.cpp:17-30 | true exactly when the set is at capacity with every line modified, both written out |
| CacheSets.CacheSet.HasLine | 418Cache/418Cache/CacheSet.cpp:40-47 | true exactly when some line has the tag |
| CacheSets.CacheSet.GetLine | 418Cache/418Cache/CacheSet.cpp:51-60 | returns the first line with the tag and stamps it with the clock; nothing else changes |
| CacheSets.CacheSet.EvictLineModified | 418Cache/418Cache/CacheSet.cpp:63-85 | true exactly when the set is at capacity and its least recently used line is modified |
| CacheSets.CacheSet.LeastRecentlyUsed | 418Cache/418Cache/CacheSet.cpp:92-101 | the scan loop returns the first line of least timestamp |
| CacheSets.CacheSet.EvictLRULine | 418Cache/418Cache/CacheSet.cpp:90-104 | the line vector loses exactly that line |
| CacheSets.CacheSet.AddLine | 418Cache/418Cache/CacheSet.cpp:32-38 | the line is appended, after an eviction if the set is at capacity |
| Caches.Cache.constructor | 418Cache/418Cache/Cache.cpp:15-33 | a new cache has empty sets of its own, no job and no request |
| Caches.Cache.LineInState | 418Cache/418Cache/Cache.cpp:77-90 | tells whether any set's line for the current job's tag is in the state; stamps the lines it visited, up to the first success |
| Caches.Cache.SetLineState | 418Cache/418Cache/Cache.cpp:92-102 | every set's line for the current job's tag gets the state and the stamp |
| Caches.Cache.GetTotalMemoryCost | 418Cache/418Cache/Cache.cpp:57-72 | one memory access for every protocol; two, and a counted flush, exactly when the set is at capacity with every line modified and none has the tag |
| Caches.Cache.HandleWriteModified | 418Cache/418Cache/Cache.cpp:104-116 | a write to a modified line is a hit; otherwise only the query's stamps remain |
| Caches.Cache.HandleWriteExclusive | 418Cache/418Cache/Cache.cpp:118-134 | a write to an exclusive line is a counted hit that marks every line of the tag modified |
| Caches.Cache.HandleWriteSharedInvalid | 418Cache/418Cache/Cache.cpp:136-150 | any other write is a miss with a BusRdX for the job's set, tag and cost |
| Caches.Cache.HandleWriteRequestMSI | 418Cache/418Cache/Cache.cpp:166-173 | the MSI write |
| Caches.Cache.HandleWriteRequestMESI | 418Cache/418Cache/Cache.cpp:152-163 | the MESI write |
| Caches.Cache.HandleWriteRequestMOESI | 418Cache/418Cache/Cache.cpp:240-271 | the MOESI write, query by query, including the owned line marked modified before its upgrade |
| Caches.Cache.HandleReadHit | 418Cache/418Cache/Cache.cpp:175-187 | the four read queries, stopping at the first success, and the hit |
| Caches.Cache.HandleReadMiss | 418Cache/418Cache/Cache.cpp:189-201 | a BusRd at memory cost, and a counted miss |
| Caches.Cache.HandleRequest | 418Cache/418Cache/Cache.cpp:224-292 | an idle cache takes its next pending job and decides it; other jobs than reads and writes are dropped |
| Caches.Cache.Tick | 418Cache/418Cache/Cache.cpp:636-654 | one cycle of a cache: wait, finish and refresh, or take a job |
| Caches.Cache.UpdateCurrentJobLineCycle | 418Cache/418Cache/Cache.cpp:620-634 | the current job's tag is stamped in every set |
| Caches.Cache.GetBusRequest | 418Cache/418Cache/Cache.cpp:300-305 | a granted cache hands out its request and waits from now on |
| Caches.Cache.HandleSnoopMESI | 418Cache/418Cache/Cache.cpp:326-385 | a read leaves modified, exclusive and shared lines shared, a write invalidates them; a modified line counts a flush; the answer for each state |
| Caches.Cache.HandleSnoopMSI | 418Cache/418Cache/Cache.cpp:387-418 | the same for MSI, whose lines are modified, shared or invalid |
| Caches.Cache.HandleSnoopMOESI | 418Cache/418Cache/Cache.cpp:420-480 | a read leaves modified and owned lines owned and exclusive and shared ones shared, a write invalidates all; modified, owned and exclusive lines count a share; the answer for each state |
| Caches.Cache.SnoopBusRequest | 418Cache/418Cache/Cache.cpp:487-507 | a snoop changes at most the requested line of the requested set |
| Caches.Cache.Install | 418Cache/418Cache/Cache.cpp:530-543 | counted eviction from a full dirty set, then installation if the line is missing |
| Caches.Cache.Settle | 418Cache/418Cache/Cache.cpp:545-611 | modified after a write, shared or exclusive after a read; which protocol counts a share and which a memory use, by the flag, the job and, for a MOESI write, the line's own state |
| Caches.Cache.BusJobDone | 418Cache/418Cache/Cache.cpp:522-612 | completion as a whole |
| Buses.AtomicBusManager.Complete | 418Cache/418Cache/AtomicBusManager.cpp:25-37 | the served cache finishes and the bus is free |
| Buses.AtomicBusManager.NextCache | 418Cache/418Cache/AtomicBusManager.cpp:39-49 | the lowest-numbered cache with a request, or -1 |
| Buses.AtomicBusManager.Grant | 418Cache/418Cache/AtomicBusManager.cpp:58-65 | the transaction starts with the requester's cost |
| Buses.AtomicBusManager.HandleAnswer | 418Cache/418Cache/AtomicBusManager.cpp:73-143 | what each answer does to the end cycle, the requester's estimate and the flags, by protocol |
| Buses.AtomicBusManager.BroadcastRequest | 418Cache/418Cache/AtomicBusManager.cpp:67-146 | every other cache snoops in order |
| Buses.AtomicBusManager.Tick | 418Cache/418Cache/AtomicBusManager.cpp:23-151 | one cycle of the bus |
| Controllers.NoJobs | 418Cache/418Cache/CacheController.cpp:32-41 | true exactly when no cache is busy |
| Controllers.RunCycle | 418Cache/418Cache/CacheController.cpp:122-140 | one iteration of the main loop, which never takes a job from an empty queue |
| Controllers.Simulate | 418Cache/418Cache/CacheController.cpp:113-140 | the main loop terminates on every trace, in the interpreter's state, with the clock at the total cost |
| CycleLoop.LoopRefinesInterpreter | 418Cache/418Cache/CacheController.cpp:122-140 | after exactly the total cost the loop has served all jobs in trace order and stops; before that it keeps running with at most one cache busy |
| CycleLoop.LoopIsInterleaving | 418Cache/418Cache/CacheController.cpp:113-140 | every state the loop passes through is reached by some sequence of clock, cache, bus and arrival events over the trace's jobs, so what holds of all runs holds all along the loop |
| CycleLoop.LoopRunsJob | 418Cache/418Cache/CacheController.cpp:122-140 | one job takes its service cost plus one iteration and leaves the interpreter's next state |
| CycleLoop.ClockIsTotalCost | 418Cache/418Cache/CacheController.cpp:122-142 | the final cycle is the sum over the jobs of service cost plus one |
| JobRunner.FirstCycle | 418Cache/418Cache/CacheController.cpp:124-138 | the iteration that brings a job in ends with the request decided and, if need be, granted and broadcast |
| JobRunner.NextCycle | 418Cache/418Cache/Cache.cpp:636-654 | while a job is served exactly its cache is busy, and each iteration brings it one cycle nearer its end |
| CycleLoop.RunTraceIsReady | 418Cache/418Cache/CacheController.cpp:122-140 | between jobs every cache is idle and the bus free |
| Coherence.ReadServed | 418Cache/418Cache/Cache.cpp:175-201 | a read changes no line state and requests at most its own line |
| Coherence.WriteServed | 418Cache/418Cache/Cache.cpp:104-173 | a write changes states only by making owned lines modified |
| Coherence.SnoopEffect | 418Cache/418Cache/Cache.cpp:487-507 | a snoop moves exactly the requested line: to invalid for a write; for a read, exclusive to shared, modified to owned under MOESI and to shared otherwise, owned, shared and invalid unchanged |
| Coherence.DoneEffect | 418Cache/418Cache/Cache.cpp:522-612 | a completion settles its own line and can only drop others |
| Coherence.InstalledHasLine | 418Cache/418Cache/Cache.cpp:530-545 | after installation the lookup finds the job's line, whatever the set was |
| Safety.BroadcastEffect | 418Cache/418Cache/AtomicBusManager.cpp:70-146 | a broadcast snoops every other cache once, changes only the requester's estimate, and raises the shared flag if and only if some answer shares |
| Safety.StepKeepsCoherent | 418Cache/418Cache/AtomicBusManager.cpp:23-151 | every step of every component keeps the coherence invariant |
| Safety.RunIsCoherent | 418Cache/418Cache/AtomicBusManager.cpp:23-151 | every interleaving does |
| Safety.MsiSingleWriter | 418Cache/418Cache/Cache.cpp:387-418 | MSI: in every reachable state a modified copy is the only valid one, on any addresses |
| Safety.MesiSingleWriter | 418Cache/418Cache/Cache.cpp:326-385 | MESI: a modified or exclusive copy is the only valid one, when equal tags imply equal sets |
| Safety.MoesiSingleOwner | 418Cache/418Cache/Cache.cpp:420-480 | MOESI: at most one cache holds a line modified, owned or exclusive, also while an upgrade waits for the bus |
| Safety.OneRequestInService | 418Cache/418Cache/Cache.cpp:300-305 | from grant to completion exactly one cache is serviced, with a request that matches its current job |
| Safety.CopiesDuringTransaction | 418Cache/418Cache/AtomicBusManager.cpp:67-146 | during a BusRdX all other copies are invalid; during a MESI BusRd they are shared or invalid, with the shared flag telling which |
| Safety.SetsAreWellFormed | 418Cache/418Cache/CacheSet.cpp:32-60 | every set is within capacity, has no tag twice, and holds only lines that decode to it |
| ServiceTime.BusServiceTime | 418Cache/418Cache/AtomicBusManager.cpp:63-145 | a transaction of request cost c lasts c, or one of the protocol's adjusted durations; it never ends before its start, and ends after it if and only if it is not a free MOESI upgrade |
| MoesiExactness.FreeUpgradeExample | 418Cache/418Cache/Cache.cpp:240-271 | with free hits, two or more processors and any address there is a run in which an upgrade ends in the cycle it starts |
| ServiceTime.RequesterNeverOverestimates | 418Cache/418Cache/Cache.cpp:509-515 | the requester's own estimate never ends after the bus does, on any addresses |
| Recency.StampIsLastTouch | 418Cache/418Cache/Cache.cpp:620-654 | in every reachable state a line's timestamp is the cycle of the latest event of the run that looked it up: a request's queries up to their first success, a state change, the refresh of the last job's tag, a snoop of the requested line at a grant, or a completion |
| Recency.VictimIsLeastRecentlyAccessed | 418Cache/418Cache/CacheSet.cpp:51-104 | in every reachable state the line an eviction selects is the first of those whose latest such event is the oldest |
| Recency.StampIsLastAccess | 418Cache/418Cache/CacheSet.cpp:51-60 | after any sequence of lookups, state changes and completions of one set a line's timestamp is the time of the latest one that names it |
| JobEffects.RunJobMoves | 418Cache/418Cache/Cache.cpp:522-612 | the lines every cache has after any whole job, from those before it; one other line of the job's set is dropped if and only if the job uses the bus and the set has no room |
| DirtyLines.OtherCopyMoves | 418Cache/418Cache/Cache.cpp:312-480 | what any job makes of any other cache's copy of any line, state by state: a bus write leaves it invalid; a bus read leaves a modified copy owned under MOESI and shared otherwise, an owned one owned, an exclusive or shared one shared; no other copy changes |
| DirtyLines.OwnCopyMoves | 418Cache/418Cache/Cache.cpp:522-612 | what any job makes of its own cache's copies: the job's line ends modified after a bus write, and after a bus read exclusive if the protocol has that state and no other cache could supply it, else shared; the victim goes; marked lines are modified; the rest stays |
| DirtyLines.DirtyAfterJob | 418Cache/418Cache/Cache.cpp:420-480 | for every protocol, where tags identify sets: a line is modified or owned somewhere after a job if and only if the job wrote it, or it was so before and the job neither evicts it from its holder nor, without owners, reads it in another cache |
| DirtyLines.DirtyIffWritten | 418Cache/418Cache/CacheController.cpp:122-140 | hence at the end of every trace a line is modified or owned somewhere if and only if it has been written and since then neither evicted by its holder nor flushed by another cache's read |
| DirtyLines.DirtyUntilEvicted | 418Cache/418Cache/Cache.cpp:420-480 | under MOESI, on any addresses, a line that is modified or owned somewhere stays so through every trace until its holder evicts it |
| Ledger.JobIsCharged | 418Cache/418Cache/Cache.cpp:522-612 | every counter after any job as the counter before plus a charge told by the job's decision, the number of other copies in each state, whether the set is full of modified lines, and whether the job's own copy is owned |
| Ledger.CountersAreExact | 418Cache/418Cache/CacheController.cpp:142-144 | hence all eight counters at the end of every trace, under every protocol, `numMainMemoryUses` included |
| Ledger.SharesAreCounted | 418Cache/418Cache/Cache.cpp:420-480 | at the end of every trace `numCacheShare` is the number of bus jobs for which another cache held the line shared, exclusive or modified under MESI; modified, owned or exclusive under MOESI, each job at most once; and it is 0 under MSI |
| Ledger.EvictionsAreCounted | 418Cache/418Cache/Cache.cpp:532-538 | at the end of every trace `numEvict` is the number of bus jobs, reads and writes, that found their set at capacity with every line modified and none with their tag |
| Ledger.GrantIsTallied | 418Cache/418Cache/AtomicBusManager.cpp:58-150 | the exact end cycle, flag and counters a grant leaves, from the numbers of other copies in each state; no coherence is assumed |
| Ledger.JobTimeIs | 418Cache/418Cache/AtomicBusManager.cpp:67-146 | the exact service time of any job from the lines before it: none, a hit, or the request's cost with every flush added and every cache-to-cache supply subtracted |
| Ledger.ClockIsExact | 418Cache/418Cache/CacheController.cpp:122-142 | the final cycle of every trace is the sum of these times plus one cycle for each job |
| Requests.JobsInOrder | 418Cache/418Cache/Cache.cpp:224-236 | in every reachable state the jobs of a cache have been taken in the order of their arrival, none is lost, and the current job is the one taken last |
| Requests.RequestIsDecided | 418Cache/418Cache/Cache.cpp:136-201 | in every reachable state a cache has a bus request if and only if its latest read or write asked for the bus and has not been served since; command, line and cost are what the lines held at that decision call for: a hit only for the upgrade of an owned line, two memory accesses only for a write that must evict a modified line, else one |
| Requests.BusServesLowest | 418Cache/418Cache/AtomicBusManager.cpp:25-62 | a bus that is free, or becomes free in this tick, serves at once if and only if some cache waits, and serves the lowest-numbered; a busy bus changes nothing |
| Requests.TransactionIsDecided | 418Cache/418Cache/AtomicBusManager.cpp:58-65 | the same of the transaction on the bus; a cost of neither one nor two memory accesses means an owned line's upgrade |
| Counts.DirtyEvictionPrediction | 418Cache/418Cache/Cache.cpp:57-72 | a write miss costs one memory access, or two and a counted flush if it evicts; it evicts if and only if its set is at capacity with every line modified and none with its tag |
| Counts.DirtyEvictionsOfTrace | 418Cache/418Cache/Cache.cpp:532-538 | the same equivalence, cost and flush at every write miss of every trace of the controller's loop |
| Counts.CountersAreConserved | 418Cache/418Cache/CacheController.cpp:142-144 | hits plus misses are the reads and writes; bus requests are the misses, plus under MOESI the writes to lines that their cache owns; flushes and memory uses add up |
| Counts.JobConservesOnce | 418Cache/418Cache/Cache.cpp:104-201 | the same laws for one job |
| Counts.UpgradesAreHitsOnBus | 418Cache/418Cache/Cache.cpp:240-271 | a job goes to the bus without being a miss if and only if it is a MOESI write whose cache owns the tag's line and holds it in no other state |
| Simulation.MesiSimulatesMsi | 418Cache/418Cache/Cache.cpp:118-173 | on traces that never crowd a set, MESI's final states with exclusive read as shared are MSI's, and MSI's misses are MESI's plus its silent upgrades |
| Replacement.JobEffect | 418Cache/418Cache/Cache.cpp:620-654 | after any MSI or MESI job: which lines every cache has, which one the job evicted, and every line's timestamp, in terms of those before |
| Replacement.VictimIsOldest | 418Cache/418Cache/CacheSet.cpp:90-104 | a job evicts the line with the oldest timestamp before it, not counting the line of the cache's previous job |
| Overflow.OverflowBreaksSimulation | 418Cache/418Cache/Cache.cpp:92-173 | with two or more processors, two or more lines a set and more addresses of one set with different tags than lines, there is a trace after which a cache has a line valid under MESI and not under MSI |
| Overflow.MesiSimulatesMsiIff | 418Cache/418Cache/Cache.cpp:118-173 | over addresses whose tags identify sets, MESI ends in MSI's lines and states up to exclusive on every trace if and only if there is one processor, or one line a set, or no set with more tags than lines |
| Exactness.CollisionBreaksMesi | 418Cache/418Cache/Cache.cpp:92-134 | with two or more processors, any two addresses with one tag in two sets give a four-job trace after which two caches hold a line modified |
| Exactness.MesiSingleWriterIff | 418Cache/418Cache/Cache.cpp:92-134 | MESI is single-writer on every trace over some addresses if and only if there is one processor or equal tags imply equal sets among them |
| MoesiExactness.ThirdReaderIsExclusive | 418Cache/418Cache/AtomicBusManager.cpp:93-108 | with three or more processors, three reads of any address leave two shared copies beside an exclusive one |
| MoesiExactness.CollisionBreaksMoesi | 418Cache/418Cache/Cache.cpp:240-271 | with two or more processors, any two addresses with one tag in two sets give a three-job trace after which a modified copy has a shared one beside it |
| MoesiExactness.CrowdingBreaksMoesi | 418Cache/418Cache/Cache.cpp:522-541 | with two processors, a set with more tags than lines gives a trace after which an exclusive copy has a shared one beside it |
| MoesiExactness.MoesiSingleWriterIff | 418Cache/418Cache/Cache.cpp:240-292 | MOESI is single-writer on every trace over some addresses if and only if there is one processor, or no address, or two processors, tags that identify sets, and enough lines in each set |
| Bfs.VisitNode | 418Cache/418Cache/programs/bfs/bfs.cpp:73-80 | the inner loop's body on the arrays: an unvisited target gets its distance, mark and flag, all else stays |
| Bfs.TopDownThread | 418Cache/418Cache/programs/bfs/bfs.cpp:61-84 | one scan gives every unvisited successor of the frontier its first parent's distance plus one, and marks it |
| Bfs.ScanTwice | 418Cache/418Cache/programs/bfs/bfs.cpp:61-84 | a second scan of the same frontier changes nothing |
| Bfs.ScansAreOneScan | 418Cache/418Cache/programs/bfs/bfs.cpp:93-102 | any positive number of scans is one scan |
| Bfs.TopDownStep | 418Cache/418Cache/programs/bfs/bfs.cpp:86-103 | it finishes if and only if there is a thread handle for every node, and then one scan per node, run in sequence, has the effect of one scan |
| BfsThreads.EveryScheduleIsOneScan | 418Cache/418Cache/programs/bfs/bfs.cpp:61-103 | any interleaving of the threads' reads and writes, each one step, that lets them finish has the effect of one scan |
| BfsThreads.EnoughTurnsFinish | 418Cache/418Cache/programs/bfs/bfs.cpp:96-102 | every schedule that gives each thread six turns per edge lets all of them finish |
| Bfs.OneMoreLevel | 418Cache/418Cache/programs/bfs/bfs.cpp:122-132 | a round turns level d, all distances up to d known and shortest, into level d + 1 |
| Bfs.BfsTopDown | 418Cache/418Cache/programs/bfs/bfs.cpp:105-133 | the search terminates, successfully if and only if there is a thread handle for every node; each distance is then the length of a shortest walk from node 0, and -1 exactly for unreachable nodes |
| Transpose.CountIncoming | 418Cache/418Cache/programs/bfs/graph.cpp:45-58 | the counts are the in-degrees, with multiplicity |
| Transpose.BuildStarts | 418Cache/418Cache/programs/bfs/graph.cpp:62-67 | the prefix sums are where each incoming list begins |
| Transpose.Scatter | 418Cache/418Cache/programs/bfs/graph.cpp:73-82 | the scatter fills every slot with the right source |
| Transpose.Graph.BuildIncomingEdges | 418Cache/418Cache/programs/bfs/graph.cpp:34-82 | the new arrays are the transposed graph |
| Transpose.TransposedIsValid | 418Cache/418Cache/programs/bfs/graph.cpp:62-82 | which is well formed and has as many nodes and edges |
| Transpose.SlotsAreDistinct | 418Cache/418Cache/programs/bfs/graph.cpp:77-81 | every edge has a slot in range, and no two edges share one |
| Transpose.TransposeReversesEdges | 418Cache/418Cache/programs/bfs/graph.cpp:73-82 | i occurs among t's incoming edges as often as t among i's outgoing ones, in nondecreasing source order |
| Transpose.TransposeTwice | 418Cache/418Cache/programs/bfs/graph.cpp:34-82 | transposing twice restores every adjacency list as a multiset |
| Quicksort.PivotIsScaled | 418Cache/418Cache/programs/quicksort.cpp:164 | the pivot positions are exactly those that scaling a draw from 0 up to but not including 1 reaches, for segments with and without elements |
| Quicksort.PivotInSegmentIff | 418Cache/418Cache/programs/quicksort.cpp:164 | with elements in the segment, the pivot is one of them if and only if the draw is below 1; a draw of 1 selects the element after the segment |
| Quicksort.PartitionSplits | 418Cache/418Cache/programs/quicksort.cpp:161-177 | on a segment with elements a partition leaves smaller elements, the pivot and the rest in order, permutes the segment and changes nothing else |
| Quicksort.Partition | 418Cache/418Cache/programs/quicksort.cpp:161-177 | the loop computes the partition for any two bounds in the array, empty segments included, by exchanges between the bounds |
| Quicksort.QuicksortHelper | 418Cache/418Cache/programs/quicksort.cpp:146-152 | the segment becomes its sorted permutation, whatever the pivots, and nothing outside it is ever written |
| Quicksort.ParallelQuicksortHelper | 418Cache/418Cache/programs/quicksort.cpp:231-301 | with the guard as written, the helper ends in the result of its pivots or misses the array; where no empty segment is partitioned it sorts its segment, by exchanges within it, under any interleaving of the two children |
| Quicksort.ParallelQuicksort | 418Cache/418Cache/programs/quicksort.cpp:185-223 | the whole array becomes its sorted permutation if the level is at most 0, or there is one element, or one level and at least one element |
| Quicksort.StaysInSegmentIff | 418Cache/418Cache/programs/quicksort.cpp:231-301 | all pivots keep all accesses within the segment if and only if no empty segment is partitioned, a condition on the bounds and the level alone |
| Quicksort.ParallelSortsIff | 418Cache/418Cache/programs/quicksort.cpp:185-223 | all pivots sort the whole array if and only if the level is at most 0, or there is one element, or one level and at least one element |
| Quicksort.UnsortedExample | 418Cache/418Cache/programs/quicksort.cpp:231-301 | 0, 1, 2, 3 at level 4 with pivots 1, 2, 2, 2, 2 stays in the array and ends as 0, 3, 1, 2 |
| Quicksort.RepairedParallelHelper | 418Cache/418Cache/programs/quicksort.cpp:225-301 | with the guard `low >= high` the segment is sorted at every level under every interleaving of the two children's exchanges |
| Quicksort.InterleavingIsSequence | 418Cache/418Cache/programs/quicksort.cpp:39-40 | exchanges on disjoint elements have one result however they are interleaved |
| Quicksort.SortedIsUnique | 418Cache/418Cache/programs/quicksort.cpp:303-316 | a sequence has only one sorted permutation, so sequential and fork-join results agree |

## Left out

- Machine integers: cycles, counters and costs are unbounded naturals, so 64-bit wrap-around, the `int` cost field of a bus request and the `ULLONG_MAX` start value of the eviction scans (here "larger than every timestamp") are not modelled.
- The value of an overflowing tag mask, which is taken to keep some number of low bits, at most 31; shifts by 64 bits or more.
- The pointer to a by-value constructor argument that each `CacheSet` keeps; here all objects share one clock object.
- Lines as objects: a cache line is a value in its set's vector, and a looked-up line is its position, so aliasing of a line pointer across an eviction is not modelled.
- The single long methods `AtomicBusManager::tick` and `Cache::busJobDone` are split into several methods, and each scan's loop body is a method of the set.
- Trace parsing, printing, allocation failure, destructors and the command line.
- Data values: the simulator carries none.
- Bfs.TopDownStep: `top_down_step` starts a thread function that the program does not define; the body of `top_down_thread` is run on the step's arguments instead, and the number of thread handles is a parameter.
- BfsThreads.EveryScheduleIsOneScan: memory accesses are sequentially consistent and each is one step.
- Quicksort.Partition: the random draw is a real below 1; `RAND_MAX` itself, the rounding of the scaling and not-a-number values are not modelled.
- Quicksort.ParallelQuicksortHelper: one exchange of the array is one step; where empty segments are partitioned only the schedule in which each left child runs before its sibling is modelled; an access outside the array ends the run; thread creation cannot fail.
- The write-back buffer and the non-atomic bus that the repository's README announces; no file implements them.
- `CacheManager.cpp`, graph file formats, the hybrid and bottom-up searches, the trace generators and the vendored instrumentation tools.
