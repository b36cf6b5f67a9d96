# Verification of the GPU data cache and its schedulers

A Dafny 4.11 model of four parts of the repository and proofs about them. `dafny verify dfyconfig.toml` checks everything.

**The GPU data cache.** `GpuDataCache` is a fixed array of reusable device buffers behind one mutex. Its entries, residency
table, empty stack and two intrusive lists are one value in `CacheSpec`, and every locked section is a function on that value.
`CacheInvariant` ties the structures together; `CacheSystem` adds callers, leases, sleeping requests and device memory as a
transition system whose steps are the locked sections, so any interleaving of threads is a sequence of steps. On top of it:
lease accounting (`CacheRuns`, `CacheLeases`), coherence (`CacheCoherence`), waiting (`CacheWaiting`), counters
(`CacheCounters`), victim order against a reference clock (`CacheOrder`), whole runs and sticky discards (`CacheTheorems`),
work that outlives an unsynchronized lease (`CacheDrain`) and the dead defensive branches (`CacheDefences`, `StaticFrames`).
`CacheLaws` and `CacheEndLaws` say of every section, in entries, keys, leases and single counters, the complete difference that
it makes and exactly when it makes it; `CacheChanges` turns that into causes: why an entry is marked, leaves, or becomes readable.

`DataCache` is the same manager as a class with the program's fields: entry objects with list links, the hash table, the stack
and the counters. Every method is proved to do to the abstract value `Abs()` exactly what `CacheSpec` says, including the whole
request with its retry loop, where `OtherThreads` stands for any number of locked sections of other threads while the request
sleeps. `ResidencyTable` is the linear-probing table for an arbitrary hash function, `ProbeTable` the theory of its backward-shift
deletion, `IntrusiveList` the theory of the links, `CacheEntry` the entry object. `Counting` holds the few facts about finite sets
and sums that all parts share.

**The graph scheduler.** `GraphSpec`, `GraphSystem`, `GraphInvariant`, `GraphRuns` and `GraphTheorems` model `DummyGraph` with a
program counter per worker; `GraphScheduler` is the class whose queue loops and sections realise it. `GraphLaws` says what each
section does and when, and that nothing fails without a cause: a phase that nobody cancels succeeds.

**The result pipeline.** `PipelineSchedule` and `PipelineRuns` are the three stages over a pool of slots, `ResultPipeline` the
scheduler object, `ResultTasks` the byte-level work. `PipelineSystem` and `PipelineTransparency` compose the pipeline with the
cache system and prove that the cache is transparent to it; `PipelineLaws` has the single steps, the causes of failure and the peak.

## What the proofs found

- `DummyGraph::shutdown` never notifies `phaseCondition`. A thread asleep in `waitForPhase` while another thread shuts the graph
  down is notified if and only if a frame was in flight at shutdown's first locked section (`GraphTheorems.ShutdownWakesWaiters`);
  `GraphTheorems.ShutdownCanForgetACaller` is a run in which it is not. Only a spurious wakeup lets that thread return.
- The `ReplicaUnavailable` fallback and the failure branches of a lookup, including those that call `restoreCandidate`, are never
  reached from a consistent manager. The specification has them as findings (`Corrupt`, `MissingReplica`) that
  `CacheInvariant.FindingIsTrue` refutes; the class has the same checks with unreachable branches.
- An admitted request can be refused by a healthy manager only for metadata that differ from the resident ones; `StaticData`
  rules that out.
- A failed synchronization costs nothing but the manager: its failed state alone keeps every later hit and every other lease away
  from a buffer that unsynchronized work may still write (`CacheDrain`).

## Model

| member | source | states |
|---|---|---|
| `ResidencyTable.GpuResidencyTable.SlotCountFor` | src/DataCache/GpuResidencyTable.cpp:12-26 | rejects exactly the sizes whose doubled power of two overflows a 64-bit size; otherwise the slot count S is a power of two with 2K <= S < 4K, and 0 for K = 0 |
| `ResidencyTable.GpuResidencyTable.Initialize` | src/DataCache/GpuResidencyTable.cpp:7-40 | succeeds exactly on a fresh table, available storage and a size that fits; then the table is the empty map, otherwise nothing changes |
| `ResidencyTable.GpuResidencyTable.Find` | src/DataCache/GpuResidencyTable.cpp:64-75 | agrees with the abstract map for every hash function: found exactly when the key is stored, with its index |
| `ResidencyTable.GpuResidencyTable.Insert` | src/DataCache/GpuResidencyTable.cpp:77-98 | below the limit an absent key is always inserted; a duplicate or a full table changes nothing; the result is map update |
| `ResidencyTable.GpuResidencyTable.Erase` | src/DataCache/GpuResidencyTable.cpp:100-112 | removes the key exactly when it is stored under the given index; the result is map removal, every other key keeps its index |
| `ResidencyTable.GpuResidencyTable.EraseSlot` | src/DataCache/GpuResidencyTable.cpp:161-173 | backward-shift deletion refines map removal for any hash: no key lost or duplicated, every probe chain unbroken again; terminates because a free slot lies ahead |
| `ResidencyTable.GpuResidencyTable.FindSlot` | src/DataCache/GpuResidencyTable.cpp:130-147 | linear probing finds the slot of exactly the stored keys |
| `ResidencyTable.GpuResidencyTable.HomeSlot` | src/DataCache/GpuResidencyTable.cpp:149-151 | masking by a power of two is the remainder of the hash |
| `ResidencyTable.GpuResidencyTable.NextSlot` | src/DataCache/GpuResidencyTable.cpp:153-155 | masking the successor is the cyclic successor |
| `ResidencyTable.GpuResidencyTable.Clear` | src/DataCache/GpuResidencyTable.cpp:42-47 | leaves the empty map and the same storage |
| `ResidencyTable.GpuResidencyTable.Release` | src/DataCache/GpuResidencyTable.cpp:49-55 | leaves an uninitialised table with no storage |
| `BitMask.MaskIsRemainder` | src/DataCache/GpuResidencyTable.cpp:149-155 | bitwise and with 2^k - 1 equals the remainder modulo 2^k |
| `ProbeTable.RingArithmetic` | src/DataCache/GpuResidencyTable.cpp:157-159 | the program's two-case probe distance is cyclic distance, and it grows by one along the ring |
| `ProbeTable.ProbeMiss` | src/DataCache/GpuResidencyTable.cpp:137-146 | meeting a free slot before the key proves that the key is stored nowhere, because no probe chain crosses a free slot |
| `ProbeTable.InsertAtFree` | src/DataCache/GpuResidencyTable.cpp:83-95 | storing at the first free slot of the probe sequence keeps every chain unbroken |
| `ProbeTable.ShiftMoves` | src/DataCache/GpuResidencyTable.cpp:166-169 | moving an entry back into the hole keeps every key stored once and makes the vacated slot the only hole |
| `ProbeTable.ShiftSkips` | src/DataCache/GpuResidencyTable.cpp:165-170 | an entry whose home lies behind the hole may stay: its chain does not need the hole |
| `ProbeTable.ShiftEnds` | src/DataCache/GpuResidencyTable.cpp:164-172 | at the first free slot no chain crosses the hole, so clearing it is safe |
| `ProbeTable.FreeSlotExists` | src/DataCache/GpuResidencyTable.cpp:17-25 | a table below its limit always has a free slot, so probing and erasing terminate |
| `IntrusiveList.AppendRealises` | src/DataCache/GpuDataCache.cpp:415-424 | the stores of an append realise the sequence with the index added at the end |
| `IntrusiveList.UnlinkRealises` | src/DataCache/GpuDataCache.cpp:438-452 | the stores of a removal realise the sequence without the index, from any position |
| `CacheEntry.GpuDataCacheEntry.Initialize` | src/DataCache/GpuDataCacheEntry.cpp:12-44 | succeeds exactly on an unused entry, for one valid GPU, a positive size and an allocation; a rejected call changes nothing, a failed allocation leaves the entry blank |
| `CacheEntry.GpuDataCacheEntry.Release` | src/DataCache/GpuDataCacheEntry.cpp:46-97 | refuses while used or loading; otherwise blank when the buffer is freed, untouched when the driver refuses |
| `CacheEntry.GpuDataCacheEntry.DataForGpu` | src/DataCache/GpuDataCacheEntry.cpp:116-123 | the pointer of the first replica of the GPU, or null |
| `CacheEntry.GpuDataCacheEntry.ReplicaValid` | src/DataCache/GpuDataCacheEntry.cpp:125-132 | whether the first replica of the GPU is valid |
| `CacheEntry.GpuDataCacheEntry.InvalidateReplicas` | src/DataCache/GpuDataCacheEntry.cpp:134-138 | clears every validity flag and nothing else |
| `CacheEntry.GpuDataCacheEntry.MarkReplicaValid` | src/DataCache/GpuDataCacheEntry.cpp:140-148 | sets the flag of exactly the first replica of the GPU; false when there is none |
| `DataCache.GpuDataCache.constructor` | src/DataCache/GpuDataCache.h:25-27 | a new manager is well formed and uninitialised |
| `DataCache.GpuDataCache.AddEvictableEntry` | src/DataCache/GpuDataCache.cpp:405-427 | exactly a valid, unread, unlisted entry joins the idle list at its end, and waiters are notified |
| `DataCache.GpuDataCache.RemoveEvictableEntry` | src/DataCache/GpuDataCache.cpp:429-454 | exactly a listed entry leaves the idle list; the links still realise the rest in order |
| `DataCache.GpuDataCache.AddFilledEntry` | src/DataCache/GpuDataCache.cpp:456-479 | under FIFO exactly a valid, unread, unlisted entry joins the fill list at its end; under LRU nothing happens |
| `DataCache.GpuDataCache.RemoveFilledEntry` | src/DataCache/GpuDataCache.cpp:481-506 | exactly a listed entry leaves the fill list |
| `DataCache.GpuDataCache.OldestUnread` | src/DataCache/GpuDataCache.cpp:382-385 | the scan of the fill links returns the first entry in fill order without readers |
| `DataCache.GpuDataCache.TakeCandidate` | src/DataCache/GpuDataCache.cpp:367-395 | takes the top of the empty stack, else the policy's victim off the idle list, else nothing |
| `DataCache.GpuDataCache.ResetEntry` | src/DataCache/GpuDataCache.cpp:648-669 | the entry leaves both lists and the table, forgets its identity, keeps its buffer and returns to the empty stack; waiters are notified |
| `DataCache.GpuDataCache.ReleaseReaderEntry` | src/DataCache/GpuDataCache.cpp:508-518 | the last reader discards a marked entry and counts it, or makes the entry evictable; false exactly for an unread, unmarked entry that the idle list would reject, and then nothing changes |
| `DataCache.GpuDataCache.MakeFallbackAccess` | src/DataCache/GpuDataCache.cpp:634-646 | counts one fallback under its reason and one active fallback lease of the caller's own buffer |
| `DataCache.GpuDataCache.PrepareToWait` | src/DataCache/GpuDataCache.cpp:303-314 | sleeps exactly if there are entries, a timeout and time left; counts the request once |
| `DataCache.GpuDataCache.FinishWait` | src/DataCache/GpuDataCache.cpp:322-328 | adds the elapsed time to the totals and keeps the longest wait of a request |
| `DataCache.GpuDataCache.LookupSection` | src/DataCache/GpuDataCache.cpp:105-233 | one pass of the lookup loop does to the abstract cache exactly what its specification says, and none of its defensive checks can fail |
| `DataCache.GpuDataCache.BeginLookup` | src/DataCache/GpuDataCache.cpp:92-104 | the first locked section: validation, then a pass with the one deadline of the request |
| `DataCache.GpuDataCache.ResumeLookup` | src/DataCache/GpuDataCache.cpp:317-329 | the section after a sleep: accounting of the wait, then another full pass |
| `DataCache.GpuDataCache.OtherSection` | src/DataCache/GpuDataCache.cpp:303-341 | any locked section of another thread keeps the manager initialised, its configuration and this request's place among the waiters; it can be neither reset nor released |
| `DataCache.GpuDataCache.LookupAndWait` | src/DataCache/GpuDataCache.cpp:88-234 | a whole request terminates whatever other threads do in between; its answer is the specified answer of its last pass, under the deadline fixed at its start |
| `DataCache.GpuDataCache.GetCacheData` | src/DataCache/GpuDataCache.cpp:88-234 | returns the lease as an access object; a rejected request only counts as invalid |
| `DataCache.GpuDataCache.CompleteAny` | src/DataCache/GpuDataCache.cpp:528-601 | the explicit end of a lease, in every manager state, is the specified completion |
| `DataCache.GpuDataCache.AbortAny` | src/DataCache/GpuDataCache.cpp:603-632 | the end of a lease by destruction or overwriting is the specified abort |
| `DataCache.GpuDataCache.CompleteAccess` | src/DataCache/GpuDataCache.cpp:528-601 | ends the lease of its own access exactly once and leaves an access of another manager alone |
| `DataCache.GpuDataCache.AbortAccess` | src/DataCache/GpuDataCache.cpp:603-632 | the same for an abort |
| `DataCache.GpuDataCache.NoteSyncFailure` | src/DataCache/GpuDataCache.cpp:520-526 | fails the manager for good, counts the failure and wakes the waiters |
| `DataCache.GpuDataCache.CanResetLocked` | src/DataCache/GpuDataCache.cpp:331-341 | true exactly when no fallback, waiter, reader or filler exists |
| `DataCache.GpuDataCache.ResetCache` | src/DataCache/GpuDataCache.cpp:70-81 | on an unused healthy manager hands out the counters, clears them and empties every entry; otherwise changes nothing, the caller's output included |
| `DataCache.GpuDataCache.ResetEntriesLocked` | src/DataCache/GpuDataCache.cpp:343-365 | every entry blank, every list empty, the stack in the order that hands out entry 0 first |
| `DataCache.GpuDataCache.BeginRelease` | src/DataCache/GpuDataCache.cpp:238-248 | nothing to do, rejected while used, or closed to everybody else |
| `DataCache.GpuDataCache.Release` | src/DataCache/GpuDataCache.cpp:237-281 | frees what the driver lets it free; empty afterwards exactly if every buffer is gone, otherwise ready for another attempt |
| `DataCache.GpuDataCache.Initialize` | src/DataCache/GpuDataCache.cpp:15-68 | succeeds exactly on a released manager with valid arguments, a table that fits, storage and every allocation; then all entries are empty and consistent |
| `DataCache.GpuDataAccess.TakeAccess` | src/DataCache/GpuDataAccess.cpp:30-40 | the lease moves, the source is left without one |
| `DataCache.GpuDataAccess.MoveAssign` | src/DataCache/GpuDataAccess.cpp:22-28 | aborts exactly the overwritten lease, then takes over; self-assignment does nothing |
| `DataCache.GpuDataAccess.AbortUnfinishedAccess` | src/DataCache/GpuDataAccess.cpp:46-60 | aborts a live lease after noting a synchronization failure; does nothing without an owner |
| `DataCache.GpuDataAccess.FreeCacheData` | src/DataCache/GpuDataAccess.cpp:90-114 | completes once; an unknown retention or a failed synchronization makes it a failed completion, never an unfinished one |
| `CacheInvariant.HitKeeps` | src/DataCache/GpuDataCache.cpp:143-156 | a hit keeps the representation invariant |
| `CacheInvariant.FillIdleKeeps` | src/DataCache/GpuDataCache.cpp:192-232 | evicting an idle entry for a new key keeps it: the table loses the old key and gains the new one |
| `CacheInvariant.EndReaderKeeps` | src/DataCache/GpuDataCache.cpp:552-557 | the end of a reader keeps it, whether others remain, the entry is discarded or becomes idle |
| `CacheInvariant.PublishKeeps` | src/DataCache/GpuDataCache.cpp:562-574 | publishing a fill keeps it, kept or discarded |
| `CacheInvariant.FindingIsTrue` | src/DataCache/GpuDataCache.cpp:105-221 | the defensive checks of a lookup never fail, of a resident entry or of a candidate; Full means no empty and no idle entry, and Refused means failure or differing metadata |
| `CacheInvariant.VictimIsIdle` | src/DataCache/GpuDataCache.cpp:379-389 | under FIFO the scan finds an idle entry whenever one exists |
| `CacheRuns.StepKeeps` | src/DataCache/GpuDataCache.cpp:88-669 | every step of every caller keeps the representation invariant, the lease accounting and the waiting requests, in every interleaving |
| `CacheRuns.CompletionIsValid` | src/DataCache/GpuDataCache.cpp:543-601 | for a live lease every check of a completion passes, so it does what its status calls for and reports the caller's own flag |
| `CacheRuns.AbortIsValid` | src/DataCache/GpuDataCache.cpp:616-631 | the same for aborts |
| `CacheRuns.SleepersPinTheManager` | src/DataCache/GpuDataCache.cpp:308-334 | no reset or release can pass while a request sleeps |
| `CacheCoherence.HitsReadThePayload` | src/DataCache/GpuDataAccess.h:44-49 | a hit lease reads the payload of its key, and no other live lease may write its buffer |
| `CacheCoherence.WritersAreApart` | src/DataCache/GpuDataAccess.cpp:70-72 | a lease that hands out a writable pointer never points at the buffer of a readable entry |
| `CacheCoherence.OneFillPerKey` | src/DataCache/GpuDataCache.cpp:127-136 | at most one fill per key exists, alone on its buffer |
| `CacheCoherence.MemoryKeeps` | src/DataCache/GpuDataCache.cpp:88-632 | every step keeps the payload behind every readable entry |
| `CacheWaiting.NoLostWakeup` | src/DataCache/GpuDataCache.cpp:303-341 | an un-notified sleeper is still blocked, and the manager that it waits for is initialised and not failed |
| `CacheWaiting.OutcomeIsJustified` | src/DataCache/GpuDataCache.cpp:127-173 | Loading fallbacks only while the key is loading, Full fallbacks only without an empty or idle entry, timeout reasons only at or after the deadline, no sleep without timeout or entries; each reason is one field of the counters, and the others stand still |
| `CacheWaiting.DeadlineIsSound` | src/DataCache/GpuDataCache.cpp:99-101 | the deadline never precedes the start, never overflows the clock, is exact when it fits, and otherwise lies within the last millisecond of the clock |
| `CacheWaiting.WaitingKeeps` | src/DataCache/GpuDataCache.cpp:303-526 | every step keeps the waiting invariant |
| `CacheCounters.CountersKeep` | src/DataCache/GpuDataCache.cpp:88-646 | fill = succeeded + failed + loading; succeeded = valid + evicted + discarded; fallback = sum of its reasons; every answered lookup counted once; the wait counters stay in order |
| `CacheOrder.VictimIsOldest` | src/DataCache/GpuDataCache.cpp:367-395 | LRU takes the entry idle for longest, FIFO the idle entry with the oldest fill completion, by a reference clock, whatever happened before |
| `CacheOrder.OrderKeeps` | src/DataCache/GpuDataCache.cpp:405-506 | both lists stay sorted by the reference clock through every step |
| `CacheTheorems.RunsAreSafe` | src/DataCache/GpuDataCache.cpp:15-669 | all invariants hold in every state of every run, across resets, releases and initialisations |
| `CacheTheorems.HitsAreCoherent` | src/DataCache/GpuDataAccess.h:27-49 | coherence over whole runs |
| `CacheTheorems.CountsAreLeases` | src/DataCache/GpuDataAccess.cpp:18-60 | reader, fallback and waiter counts equal the live leases and sleepers in every state of every run |
| `CacheTheorems.LeasedEntryStays` | src/DataCache/GpuDataCache.cpp:528-646 | a leased entry is never evicted, re-keyed, reset or released |
| `CacheTheorems.MovesPreserveLeases` | src/DataCache/GpuDataAccess.cpp:18-40 | a move hands over exactly one lease and changes no count |
| `CacheTheorems.PendingHasReader` | src/DataCache/GpuDataCache.cpp:552-557 | a pending discard implies a live reader |
| `CacheTheorems.DiscardIsSticky` | src/DataCache/GpuDataCache.cpp:508-571 | a marked entry stays marked and resident until its last reader ends, however; that step removes it, counts it once and wakes the waiters |
| `CacheDrain.HitsSurviveLateWrites` | src/DataCache/GpuDataCache.h:42-45 | coherence over runs in which unsynchronized work of ended fill leases may write its buffer at any time until a release frees it |
| `CacheDrain.BuffersStayQuarantined` | src/DataCache/GpuDataAccess.cpp:103-113 | from the end of an unsynchronized fill lease until a release frees it, its buffer belongs to no lease and the manager stays failed |
| `CacheDrain.EmptyEntryStays` | src/DataCache/GpuDataCache.cpp:520-526 | in a failed manager an empty entry is never filled, re-keyed or reset; only freeing its buffer changes it |
| `CacheLaws.HitLaw` | src/DataCache/GpuDataCache.cpp:143-156 | a hit adds one reader, takes the entry off the idle list, counts itself and hands out the entry's buffer on the request's own stream; nothing else changes |
| `CacheLaws.FillLaw` | src/DataCache/GpuDataCache.cpp:159-232 | a miss reserves exactly the entry that policy and stack call for; the table forgets the old key and learns the new one; an eviction is counted only for a resident entry |
| `CacheLaws.StuckLaw` | src/DataCache/GpuDataCache.cpp:127-173 | a request that meets a loading key or a full cache sleeps exactly while it may; otherwise it falls back, and of the six reasons and the two first obstacles exactly the counters of its own move |
| `CacheLaws.NoCapacityLaw` | src/DataCache/GpuDataCache.cpp:162-164 | without entries every miss falls back at once, for lack of capacity |
| `CacheLaws.RefusalLaw` | src/DataCache/GpuDataCache.cpp:106-126 | a failed manager or differing metadata only count one invalid request |
| `CacheLaws.LookupLaw` | src/DataCache/GpuDataCache.cpp:88-104 | the requests refused before a look at the table, by their arguments |
| `CacheLaws.LeasesFollowTheRequest` | src/DataCache/GpuDataCache.cpp:143-232 | every lease is on the request's stream and GPU, for its key and the manager's size, of an entry's buffer or of the request's own |
| `CacheLaws.WakeLaw` | src/DataCache/GpuDataCache.cpp:322-328 | a wake-up takes one waiter off and adds the sleep to the request, to the total and, if it is the longest, to the maximum |
| `CacheEndLaws.ReaderEndLaw` | src/DataCache/GpuDataCache.cpp:550-557 | the end of a reader by completion or abort: others remain, or the marked entry is dropped and counted, or the unmarked one stays readable and becomes the newest idle entry |
| `CacheEndLaws.UnmarkedEntryStays` | src/DataCache/GpuDataCache.cpp:508-557 | an unmarked entry survives every reader that does not ask for a discard, under its key and uncounted, however the lease ends |
| `CacheEndLaws.FillEndLaw` | src/DataCache/GpuDataCache.cpp:560-598 | the end of a filler: kept, discarded or failed, with the counters of each |
| `CacheEndLaws.FallbackEndLaw` | src/DataCache/GpuDataCache.cpp:533-541 | a live fallback lease always ends, with the caller's own flag |
| `CacheEndLaws.RefusedEndLaw` | src/DataCache/GpuDataCache.cpp:543-631 | an access that does not describe its entry changes nothing; as a fill it still counts as failed |
| `CacheEndLaws.RefusedFallbackLaw` | src/DataCache/GpuDataCache.cpp:533-541 | a fallback that is not counted or does not look like one ends nothing |
| `CacheEndLaws.CanResetMeansNobody` | src/DataCache/GpuDataCache.cpp:331-341 | in every reachable state: no live lease and nobody asleep, and nothing else, makes a manager resettable; cached data do not stand in the way |
| `CacheEndLaws.ResetLaw` | src/DataCache/GpuDataCache.cpp:70-81 | a manager resets if and only if it is running, not failed, and no lease is live and nobody sleeps; then every entry is blank and the counters start again |
| `CacheEndLaws.ReleaseLaw` | src/DataCache/GpuDataCache.cpp:237-248 | a release starts exactly when there is something to release, none runs, no lease is live and nobody sleeps |
| `CacheEndLaws.EndReleaseLaw` | src/DataCache/GpuDataCache.cpp:248-281 | a release ends empty exactly when no buffer is left; otherwise the freed entries are blank and the others as they were |
| `CacheEndLaws.InitializeLaw` | src/DataCache/GpuDataCache.cpp:15-68 | when an initialisation is accepted, and every field of the fresh manager |
| `CacheEndLaws.SyncFailureLaw` | src/DataCache/GpuDataCache.cpp:520-526 | the failed state, one count, one notification, and nothing else |
| `CacheChanges.EntryChanges` | src/DataCache/GpuDataCache.cpp:70-669 | every step of every caller leaves an entry alone or changes it in the one way that its kind allows |
| `CacheChanges.MarksComeFromDiscards` | src/DataCache/GpuDataCache.cpp:550-557 | a discard mark appears only by the completion of a hit that asks for it |
| `CacheChanges.ResidentsLeaveForAReason` | src/DataCache/GpuDataCache.cpp:70-669 | a readable entry leaves residency only by an eviction for an absent key, by the end of the last reader of a marked entry, or by a reset |
| `CacheChanges.ResidentsComeFromFills` | src/DataCache/GpuDataCache.cpp:560-574 | a key becomes readable only by a successful, kept fill, and a fill starts only by a lookup of that key |
| `CacheChanges.FailureHasACause` | src/DataCache/GpuDataCache.cpp:520-526 | only a failed synchronization fails a manager, and only the end of a release or an initialisation recovers it |
| `CacheChanges.LeasesCanEnd` | src/DataCache/GpuDataCache.cpp:528-601 | over runs every live lease is on a usable stream of the manager's GPU and size, and completing it reports the caller's own flag |
| `CacheDefences.InvalidMeansMismatch` | src/DataCache/GpuDataCache.cpp:106-220 | an admitted request is refused exactly for a failed manager or differing resident metadata, and by none of the other checks |
| `CacheDefences.DefencesAreDead` | src/DataCache/GpuDataCache.cpp:112-220 | when metadata are a function of the key, an admitted request is never refused and no fallback is ever due to a missing replica, over whole runs |
| `StaticFrames.MatchingIsFollowing` | src/StaticData/StaticData.cpp:15-17 | the validation accepts exactly one description per key, none for an empty layout |
| `StaticFrames.StaticData.ValidateFrame` | src/StaticData/StaticData.cpp:131-133 | true exactly when ready and the frame follows the layout |
| `StaticFrames.StaticData.GetCacheData` | src/StaticData/StaticData.cpp:135-140 | only frames of the layout reach the cache; a rejected frame leaves it untouched |
| `StaticFrames.PlanMemory` | src/StaticData/StaticData.cpp:35-43 | the stepwise checks accept exactly the plans whose total fits a 64-bit size |
| `GraphScheduler.GraphSink.Deliver` | demo/Grape/DummyGraph.cpp:55-61 | counts every result and every failed one |
| `GraphScheduler.DummyGraph.BeginPhase` | demo/Grape/DummyGraph.cpp:208-254 | accepts an inactive, unsubmitted phase of valid frames and queues them in order; an invalid frame changes nothing, a queue that runs out of room before one raises the flag |
| `GraphScheduler.DummyGraph.ClaimFrame` | demo/Grape/DummyGraph.cpp:481-503 | waits, exits, sweeps a cancelled queue, or claims the first frame, the last free task and the phase's gate |
| `GraphScheduler.DummyGraph.RaiseOnFailure` | demo/Grape/DummyGraph.cpp:510-512 | the flag step of a worker on the class |
| `GraphScheduler.DummyGraph.JudgeFrame` | demo/Grape/DummyGraph.cpp:513-516 | the judging step of a worker on the class: exactly a failed or cancelled frame loses its good result |
| `GraphScheduler.DummyGraph.FinishFrame` | demo/Grape/DummyGraph.cpp:510-517 | undisturbed, the flag, the judgement and the delivery of a frame: delivered once, good only if it succeeded uncancelled |
| `GraphScheduler.DummyGraph.AccountFrame` | demo/Grape/DummyGraph.cpp:519-530 | returns the task, accounts for the frame, sweeps after a failure and completes the phase if it is complete |
| `GraphScheduler.DummyGraph.CancelReadyFramesLocked` | demo/Grape/DummyGraph.cpp:534-543 | delivers every queued frame as failed, in order, exactly once |
| `GraphScheduler.DummyGraph.CancelPreparedFramesLocked` | demo/Grape/DummyGraph.cpp:545-560 | delivers every frame of a never-submitted phase as failed, and of no other |
| `GraphScheduler.DummyGraph.FinishPhaseIfCompleteLocked` | demo/Grape/DummyGraph.cpp:566-572 | ends the phase and notifies exactly when nothing is queued, in flight or unaccounted |
| `GraphScheduler.DummyGraph.BeginShutdown` | demo/Grape/DummyGraph.cpp:282-299 | nothing to do exactly for a graph that is down and unloaded; otherwise stops, cancels what is queued or prepared and opens the gate of an active phase |
| `GraphScheduler.DummyGraph.EndShutdown` | demo/Grape/DummyGraph.cpp:310-318 | the last section clears queue, tasks, gate and lifecycle and nothing else |
| `GraphScheduler.DummyGraph.Start` | demo/Grape/DummyGraph.cpp:162-176 | starts a cycle exactly on an idle graph that was neither started nor stopped nor cancelled; a failed start only raises the flag |
| `GraphScheduler.DummyGraph.Stop` | demo/Grape/DummyGraph.cpp:265-280 | stops exactly an idle started cycle, for good; a failed stop only raises the flag |
| `GraphScheduler.CancelOneAtATime` | demo/Grape/DummyGraph.cpp:534-543 | emptying the queue frame by frame has the effect of cancelling it as a whole |
| `GraphRuns.StepKeeps` | demo/Grape/DummyGraph.cpp:208-572 | every step of workers and callers keeps the places of frames, the checkout of tasks and the balance of the phase |
| `GraphTheorems.AtMostOnce` | demo/Grape/DummyGraph.cpp:463-560 | no frame is ever delivered twice |
| `GraphTheorems.ExactlyOnce` | demo/Grape/DummyGraph.cpp:282-320 | once shutdown has joined the workers every frame of both phases has been delivered exactly once |
| `GraphTheorems.PhaseIsConserved` | demo/Grape/DummyGraph.cpp:477-543 | total = queued + in flight + accounted; free tasks + in flight = tasks; no task held twice; claimants wait on the phase's gate |
| `GraphTheorems.GoodMeansExecuted` | demo/Grape/DummyGraph.cpp:506-517 | a good result is only delivered for a frame whose task succeeded |
| `GraphTheorems.WaitingTellsTheTruth` | demo/Grape/DummyGraph.cpp:256-263 | if waitForPhase returns true every frame of the phase was delivered with a good result |
| `GraphTheorems.PhaseCannotStall` | demo/Grape/DummyGraph.cpp:477-531 | with its gate open a phase always has a worker at work that can go on, or an idle one with work to do that is awake or notified: no notification is lost |
| `GraphTheorems.PhaseIsBounded` | demo/Grape/DummyGraph.cpp:477-531 | a phase takes a bounded number of productive steps: ten per queued frame and seven per worker; no step of anybody adds to what is left |
| `GraphTheorems.NobodyBlocksShutdown` | demo/Grape/DummyGraph.cpp:282-306 | after shutdown's first section no worker is held by the gate or the work condition |
| `GraphTheorems.DrainIsBounded` | demo/Grape/DummyGraph.cpp:282-306 | after it the workers take at most nine steps each, whether or not the caller opens the gate |
| `GraphTheorems.NoClaimAfterShutdown` | demo/Grape/DummyGraph.cpp:481-488 | each worker finishes at most the frame it already had |
| `GraphTheorems.SecondShutdownIsIdle` | demo/Grape/DummyGraph.cpp:282-299 | repeating shutdown's first section on a graph that is down changes nothing |
| `GraphTheorems.FinishIsThreeSteps` | demo/Grape/DummyGraph.cpp:510-517 | the three unlocked steps of the protocol after an execution add up to what the class does in one piece |
| `GraphTheorems.ShutdownWakesWaiters` | demo/Grape/DummyGraph.cpp:282-320 | a caller asleep in waitForPhase is notified by a concurrent shutdown if and only if a frame was in flight at its first section |
| `GraphTheorems.ShutdownCanForgetACaller` | demo/Grape/DummyGraph.cpp:256-320 | a concrete run in which that caller is never notified |
| `GraphLaws.ClaimLaw` | demo/Grape/DummyGraph.cpp:477-503 | a worker sweeps exactly a cancelled phase and otherwise claims the first frame and the last free task whenever both are there |
| `GraphLaws.AccountLaw` | demo/Grape/DummyGraph.cpp:519-530 | the task and the frame are accounted for; a failed or cancelled frame takes the queue with it; the phase ends exactly when nothing is outstanding |
| `GraphLaws.JudgeLaw` | demo/Grape/DummyGraph.cpp:510-517 | what is delivered for a frame, and when the flag rises with it |
| `GraphLaws.StartPhaseLaw` | demo/Grape/DummyGraph.cpp:208-254 | when a phase starts, and what every field is afterwards; a refused one changes nothing but, for a queue that could not be built, the flag |
| `GraphLaws.CycleLaw` | demo/Grape/DummyGraph.cpp:162-280 | when a cycle starts and stops, and that failing at it only raises the flag |
| `GraphLaws.ShutdownLaw` | demo/Grape/DummyGraph.cpp:282-299 | an active phase loses its queue, then the warmup and the timed frames fail as far as they were never submitted, each delivered once and in order |
| `GraphLaws.FlagHasACause` | demo/Grape/DummyGraph.cpp:208-560 | the flag rises only by a failed execution, a failed start, stop or queue, somebody else, or the shutdown of an active phase |
| `GraphLaws.FailureIsExecuted` | demo/Grape/DummyGraph.cpp:505-509 | an execution counts as failed only if it failed or the flag was up before it began |
| `GraphLaws.FailureHasACause` | demo/Grape/DummyGraph.cpp:477-560 | over runs nobody is told of a failed frame before the flag has risen or shutdown has begun |
| `GraphLaws.WaitingIsExact` | demo/Grape/DummyGraph.cpp:256-263 | over runs waitForPhase returns true if and only if the phase is over and the flag is down |
| `GraphLaws.HealthyPhaseSucceeds` | demo/Grape/DummyGraph.cpp:256-263 | a phase that is over with the flag down has succeeded: each of its frames was executed and delivered once, as good |
| `GraphLaws.CallersLeaveForAReason` | demo/Grape/DummyGraph.cpp:256-263 | a caller of waitForPhase leaves only when it finds the phase over, and is notified only when a phase ends |
| `ResultPipeline.Scheduler.Take` | demo/ResultPipeline/ResultPipeline.cpp:42-50 | refines the take step: waits exactly on an empty queue without failure, else hands out the front slot |
| `ResultPipeline.Scheduler.Pass` | demo/ResultPipeline/ResultPipeline.cpp:52-57 | refines the pass step |
| `ResultPipeline.Scheduler.Cancel` | demo/ResultPipeline/ResultPipeline.cpp:27-31 | raises the failure flag and nothing else; for a stage that holds a slot this is the failure step of the schedule |
| `ResultPipeline.Scheduler.Arrive` | demo/ResultPipeline/ResultPipeline.cpp:33-37 | refines the arrival of a stage |
| `ResultPipeline.Scheduler.AwaitStart` | demo/ResultPipeline/ResultPipeline.cpp:38-39 | a stage goes on exactly after the signal or a failure, and only the former lets it work |
| `ResultPipeline.Scheduler.GiveSignal` | demo/ResultPipeline/ResultPipeline.cpp:140-146 | the signal is given exactly when all three stages have arrived or one has failed |
| `PipelineRuns.StepKeeps` | demo/ResultPipeline/ResultPipeline.cpp:15-138 | every step keeps the pool, the order of frames and the start-up protocol |
| `PipelineRuns.SlotsAreConserved` | demo/ResultPipeline/ResultPipeline.cpp:70-77 | each slot is in one queue or in one stage's hands; free + active = min(inFlight, frames) bounds the peak |
| `PipelineRuns.FramesKeepTheirOrder` | demo/ResultPipeline/ResultPipeline.cpp:95-132 | the k-th slot that a stage takes carries frame k |
| `PipelineRuns.NeverDeadlocked` | demo/ResultPipeline/ResultPipeline.cpp:42-58 | a pipeline that is not done can always take a step |
| `PipelineRuns.EveryStepCounts` | demo/ResultPipeline/ResultPipeline.cpp:95-138 | every step decreases a measure, so every run ends |
| `PipelineRuns.DoneMeansComplete` | demo/ResultPipeline/ResultPipeline.cpp:150-161 | done without a failure means all frames completed and all slots back |
| `PipelineLaws.TakeLaw` | demo/ResultPipeline/ResultPipeline.cpp:42-50 | a stage takes the front of its own queue; only the producer counts the slot, raises the peak and labels the slot with its frame |
| `PipelineLaws.PassLaw` | demo/ResultPipeline/ResultPipeline.cpp:52-57 | a slot goes to the end of the next queue; the consumer's goes back to the pool and completes a frame |
| `PipelineLaws.FailureHasACause` | demo/ResultPipeline/ResultPipeline.cpp:27-37 | the pipeline fails exactly when a stage gives up or cannot load |
| `PipelineLaws.FailureIsFinal` | demo/ResultPipeline/ResultPipeline.cpp:27-50 | after a failure no stage takes a slot any more, and those that wait stop |
| `PipelineLaws.PeakIsHighest` | demo/ResultPipeline/ResultPipeline.cpp:42-50 | over runs the recorded peak is the largest number of slots that were in use at once |
| `PipelineLaws.LeasesEndAsConfigured` | demo/ResultPipeline/ResultTasks.cpp:103-152 | the producer's result stays readable for the consumer, which keeps or discards it as configured; a fallback leaves the cache alone |
| `PipelineLaws.StagesKeepTheirStreams` | demo/ResultPipeline/ResultTasks.cpp:73-75 | over runs every lease of a stage is on the stage's own stream and every fallback is its own buffer |
| `ResultTasks.ChecksumAddsUp` | demo/ResultPipeline/ResultTasks.cpp:116-116 | a byte counts as its value and the sums of two payloads add up |
| `ResultTasks.ChecksumDetects` | demo/ResultPipeline/ResultTasks.cpp:116-116 | replacing one byte changes the sum by exactly the difference |
| `ResultTasks.ResultAtom.constructor` | demo/ResultPipeline/ResultTasks.cpp:14-27 | an atom of the given id and size: its description, its frame bytes, a zeroed result, not ready |
| `ResultTasks.ResultAtom.Reuse` | demo/ResultPipeline/ResultPipeline.cpp:99-107 | a recycled atom describes and carries its new frame and is not ready; the old result bytes stay until they are replaced |
| `ResultTasks.ResultAtom.ExecuteCpuStage` | demo/ResultPipeline/ResultTasks.cpp:112-120 | sums a ready result and counts the stage; refuses anything else |
| `ResultTasks.RunResultKernel` | demo/ResultPipeline/ResultKernel.cu:7-21 | every output byte is the input byte xor 0x5a |
| `ResultTasks.VerifyResult` | demo/ResultPipeline/ResultTasks.cpp:154-161 | accepts exactly the recorded result that is also the transformed frame, with its checksum |
| `ResultTasks.TransformIsInvolutive` | demo/ResultPipeline/ResultKernel.cu:7-11 | the kernel undoes itself |
| `ResultTasks.ChecksumFits` | demo/ResultPipeline/ResultTasks.cpp:116-116 | the largest accepted payload cannot overflow the 64-bit sum |
| `PipelineTransparency.BeginFacts` | demo/ResultPipeline/ResultTasks.cpp:85-91 | a lookup of the pipeline keeps the cache healthy and returns a usable lease or sleeps until its deadline |
| `PipelineTransparency.FinishFacts` | demo/ResultPipeline/ResultTasks.cpp:103-107 | a completion of the pipeline succeeds, because the payload is in place |
| `PipelineTransparency.PipelinesCanStart` | demo/ResultPipeline/ResultPipeline.cpp:66-77 | every accepted configuration, pool, capacity and policy has a start state, reached by one initialisation of a fresh manager |
| `PipelineTransparency.StepKeeps` | demo/ResultPipeline/ResultPipeline.cpp:95-133 | every step of pipeline and cache together keeps the joint invariant; no stage ever fails |
| `PipelineTransparency.ProducerNeverHits` | demo/ResultPipeline/ResultTasks.cpp:89-91 | the producer never meets its key in the cache and no stage gives up |
| `PipelineTransparency.ConsumerReadsTheResult` | demo/ResultPipeline/ResultTasks.cpp:136-160 | what the consumer reads through its lease, hit or not, is the frame xor 0x5a, and its checks pass |
| `PipelineTransparency.FinishedRunBalances` | demo/ResultPipeline/ResultTasks.cpp:132-145 | hit + fill + fallback = 2 x frames, cache hits = consumer hits, uploaded = (frames - hits) x bytes, for any capacity, policy, retention and outcome |
| `PipelineTransparency.StepsCount` | demo/ResultPipeline/ResultPipeline.cpp:95-138 | every joint step decreases the measure of the schedule |
| `PipelineTransparency.NeverStuck` | demo/ResultPipeline/ResultPipeline.cpp:42-58 | a joint state that is not done has a step to take |

## Left out

- CUDA calls and device memory: an allocation, a free and a stream synchronization are parameters with arbitrary outcomes; a device buffer is an opaque pointer whose bytes are a map entry in the transition systems.
- Host allocation failure while the manager installs or a sequence grows; the table's storage and the scheduler's queue are parameters instead.
- The second check of the manager's fields at the end of `initialize`: the installation is one atomic step, so a concurrent initialisation simply comes before or after it.
- The class stops at a defensive check that cannot fail; what such a branch would leave behind is stated only in the specification (`CacheSpec.Spoiled`).
- `GpuResidencyTable::swap`: replacing the table of an uninitialised manager is an assignment.
- The mixing function of `GpuDataKeyHash`: the table is proved for every hash function; keys and ids are unbounded naturals.
- The waits of condition variables are represented by the flags of notified sleepers; spurious wakeups are allowed everywhere, fairness and real-time latency are not claimed.
- Memory ordering of the cancellation flag: a flag that is only ever raised.
- DataCache.GpuDataCache.Release: joins its two locked sections without other threads in between; in `CacheSystem` they are separate steps with arbitrary steps in between.
- DataCache.GpuDataCache.Initialize: wait timeouts and sizes are unbounded integers apart from the table's size check, and the policy type has no invalid values.
- GraphScheduler.DummyGraph.FinishFrame: runs its three actions without interference; `RaiseOnFailure`, `JudgeFrame` and `DeliverFrameResult` are the separate ones, and in `GraphSystem` they are separate steps.
- Graph initialisation, worker start-up, parameters, task lifecycles and unloading; task execution is an arbitrary boolean.
- `StaticData::init` and `release` beyond the memory plan, static regions and their upload.
- Pipeline stages that throw, and a lease that a failing task leaves to its destructor: a failing stage stops, and the composed pipeline has no failures.
- Timing, latency percentiles, NUMA placement, diagnostics, tracing and statistics printing.
- The matrix kernels, image sizing, benchmarks, Python tools and command line of the repository.
