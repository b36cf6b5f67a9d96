/**
 * Conservation of the counters: in every reachable state of an initialised manager the statistics
 * account for every reservation, every resident entry, every fallback and every returned lookup.
 */
module CacheCounters {
  import opened Counting
  import opened GpuTypes
  import opened CacheSpec
  import opened CacheInvariant
  import opened CacheLeases
  import opened CacheSystem
  import opened CacheRuns

  ghost function InState(entries: seq<Entry>, state: GpuCacheState): set<nat> {
    set i: nat | i < |entries| && entries[i].state == state
  }

  ghost predicate FillsBalance(c: Cache) {
    && c.stats.fill == c.stats.fillSucceeded + c.stats.fillFailed + |InState(c.entries, Loading)|
    && c.stats.fillSucceeded == |InState(c.entries, Valid)| + c.stats.eviction + c.stats.discard
  }

  ghost predicate WaitsBalance(stats: CacheStatistics) {
    && stats.fallback == stats.fallbackReasons.Sum()
    && stats.waitedRequests <= stats.firstBlockedLoading + stats.firstBlockedFull
    && stats.maxWaitTime <= stats.totalWaitTime
  }

  ghost predicate ReturnsBalance(stats: CacheStatistics, answered: nat) {
    stats.hit + stats.fill + stats.fallback + stats.invalid == answered
  }

  ghost predicate CounterInv(s: System) {
    && (s.cache.initialized ==> FillsBalance(s.cache))
    && WaitsBalance(s.cache.stats)
    && ReturnsBalance(s.cache.stats, s.answered)
    && (forall id :: id in s.sleepers ==> s.sleepers[id].progress.requestWait <= s.cache.stats.totalWaitTime)
  }

  // ---------------------------------------------------------------- populations

  lemma PopulationAfterUpdate(entries: seq<Entry>, i: nat, e: Entry, state: GpuCacheState)
    requires i < |entries|
    ensures |InState(entries[i := e], state)| ==
            |InState(entries, state)| - One(entries[i].state == state) + One(e.state == state)
  {
    var before, after := InState(entries, state), InState(entries[i := e], state);
    assert i in before <==> entries[i].state == state;
    assert i in after <==> e.state == state;
    assert forall j :: j != i ==> (j in after <==> j in before);
    assert after - {i} == before - {i};
    hide InState;
    assert |before - {i}| == |before| - One(i in before);
    assert |after - {i}| == |after| - One(i in after);
  }

  lemma PopulationsAfterUpdate(entries: seq<Entry>, i: nat, e: Entry)
    requires i < |entries|
    ensures forall state :: |InState(entries[i := e], state)| ==
                            |InState(entries, state)| - One(entries[i].state == state) + One(e.state == state)
  {
    forall state
      ensures |InState(entries[i := e], state)| ==
              |InState(entries, state)| - One(entries[i].state == state) + One(e.state == state)
    {
      PopulationAfterUpdate(entries, i, e, state);
    }
  }

  lemma NobodyResident(entries: seq<Entry>)
    requires forall i :: 0 <= i < |entries| ==> entries[i].state == Empty
    ensures InState(entries, Loading) == {} && InState(entries, Valid) == {}
  {
  }

  // ---------------------------------------------------------------- fills

  lemma ServedBalances(c: Cache, md: FrameMetadata)
    requires RepInv(c) && IndicesInRange(c) && FillsBalance(c)
    ensures FillsBalance(Served(c, md))
  {
    hide RepInv, IndicesInRange, Find, Spoiled, InState;
    FindingIsTrue(c, md);
    match Find(c, md) {
      case Readable(i) => PopulationsAfterUpdate(c.entries, i, c.entries[i].(active := c.entries[i].active + 1));
      case FillableEmpty(i) => PopulationsAfterUpdate(c.entries, i, Reserve(c.entries[i], md));
      case FillableIdle(i) => PopulationsAfterUpdate(c.entries, i, Reserve(c.entries[i], md));
      case _ =>
    }
  }

  lemma ReaderEndBalances(c: Cache, i: nat, discardNow: bool)
    requires FillsBalance(c) && i < |c.entries| && c.entries[i].state == Valid && c.entries[i].active > 0
    ensures FillsBalance(EndReader(c, i, discardNow))
    ensures EndReader(c, i, discardNow).stats ==
            c.stats.(discard := c.stats.discard + One(EndReader(c, i, discardNow).entries[i].state == Empty))
  {
    hide InState, Without, ErasedKey;
    var e := c.entries[i].(active := c.entries[i].active - 1, discard := c.entries[i].discard || discardNow);
    PopulationsAfterUpdate(c.entries, i, e);
    PopulationsAfterUpdate(c.entries, i, e.Cleared());
    assert c.entries[i := e][i := e.Cleared()] == c.entries[i := e.Cleared()];
    if e.active == 0 {
      if e.discard {
      } else {
      }
    }
  }

  lemma FillEndBalances(c: Cache, i: nat, succeeded: bool, retention: CacheRetention)
    requires FillsBalance(c) && i < |c.entries| && c.entries[i].state == Loading
    ensures var c' := CountFill(if succeeded then Publish(c, i, retention) else ResetEntry(c, i), succeeded);
            && FillsBalance(c')
            && c'.stats == c.stats.(fillSucceeded := c'.stats.fillSucceeded, fillFailed := c'.stats.fillFailed,
               discard := c'.stats.discard)
  {
    var e := c.entries[i].(state := Valid, active := 0, replicaValid := true);
    PopulationsAfterUpdate(c.entries, i, e);
    PopulationsAfterUpdate(c.entries, i, e.Cleared());
    PopulationsAfterUpdate(c.entries, i, c.entries[i].Cleared());
    assert c.entries[i := e][i := e.Cleared()] == c.entries[i := e.Cleared()];
    if succeeded {
      if retention == Discard {
      } else {
      }
    }
  }

  /** What a section does to the counters of waits, fallbacks and returned lookups. */
  lemma SectionCounts(c: Cache, md: FrameMetadata, req: GpuCacheRequest, p: Progress, now: int)
    requires RepInv(c) && IndicesInRange(c)
    requires WaitsBalance(c.stats) && (p.blocked ==> p.waited)
    requires FillsBalance(c)
    ensures var Pass(c', p', out) := Section(c, md, req, p, now);
            && FillsBalance(c') && WaitsBalance(c'.stats)
            && c'.stats.hit + c'.stats.fill + c'.stats.fallback + c'.stats.invalid ==
               c.stats.hit + c.stats.fill + c.stats.fallback + c.stats.invalid + One(out.Returned?)
            && c'.stats.totalWaitTime == c.stats.totalWaitTime && p'.requestWait == p.requestWait
  {
    hide RepInv, IndicesInRange, Find, Spoiled;
    FindingIsTrue(c, md);
    ServedBalances(c, md);
    match Find(c, md) {
      case StillLoading => ObstructCounts(c, StillLoading, md, req, p, now);
      case Full => ObstructCounts(c, Full, md, req, p, now);
      case _ =>
    }
  }

  /** The counters after a pass that is obstructed, on the counters alone. */
  lemma ObstructStatistics(stats: CacheStatistics, onLoading: bool, blocked: bool, waited: bool,
      reason: CacheFallbackReason)
    requires WaitsBalance(stats) && (blocked ==> waited)
    ensures var stats1 := if blocked then stats else stats.CountFirstBlock(onLoading);
            && WaitsBalance(stats1.CountWaiter(waited)) && WaitsBalance(stats1.CountFallback(reason))
  {
    hide CacheFallbackStatistics.Count, CacheFallbackStatistics.Sum;
    CountSum(stats.fallbackReasons, reason);
  }

  lemma ObstructCounts(c: Cache, f: Finding, md: FrameMetadata, req: GpuCacheRequest, p: Progress, now: int)
    requires WaitsBalance(c.stats) && (p.blocked ==> p.waited) && FillsBalance(c)
    ensures var Pass(c', p', out) := Obstruct(c, f, md, req, p, now);
            && FillsBalance(c') && WaitsBalance(c'.stats)
            && c'.stats.hit + c'.stats.fill + c'.stats.fallback + c'.stats.invalid ==
               c.stats.hit + c.stats.fill + c.stats.fallback + c.stats.invalid + One(out.Returned?)
            && c'.stats.totalWaitTime == c.stats.totalWaitTime && p'.requestWait == p.requestWait
  {
    hide MayWait, TimeoutReason, CacheFallbackStatistics.Count, InState, WaitsBalance;
    ObstructStatistics(c.stats, f == StillLoading, p.blocked, p.waited, TimeoutReason(c, f));
  }

  lemma CountSum(reasons: CacheFallbackStatistics, reason: CacheFallbackReason)
    ensures reasons.Count(reason).Sum() == reasons.Sum() + 1
  {
  }

  // ---------------------------------------------------------------- steps

  /** A locked section that leaves wait times alone and counts as many returns as happened. */
  lemma SettleCounts(s: System, s': System, c': Cache)
    requires CounterInv(s)
    requires s'.cache == c' && s'.sleepers == Settle(s, c').sleepers
    requires c'.initialized ==> FillsBalance(c')
    requires WaitsBalance(c'.stats) && ReturnsBalance(c'.stats, s'.answered)
    requires c'.stats.totalWaitTime == s.cache.stats.totalWaitTime
    ensures CounterInv(s')
  {
  }

  lemma LookupCounts(s: System, call: nat, md: FrameMetadata, req: GpuCacheRequest, p: Progress, now: int)
    requires RepInv(s.cache) && IndicesInRange(s.cache) && s.cache.initialized && CounterInv(s)
    requires (p.blocked ==> p.waited) && p.requestWait <= s.cache.stats.totalWaitTime
    ensures var Pass(c', p', out) := Section(s.cache, md, req, p, now);
            CounterInv(Conclude(s, call, md, req, c', p', out))
  {
    SectionCounts(s.cache, md, req, p, now);
    hide Section, RepInv, IndicesInRange, FillsBalance, WaitsBalance;
  }

  lemma RejectionCounts(s: System, call: nat, md: FrameMetadata, req: GpuCacheRequest, p: Progress)
    requires CounterInv(s)
    ensures CounterInv(Conclude(s, call, md, req, Reject(s.cache), p, Returned(NO_ACCESS)))
  {
    SettleCounts(s, Conclude(s, call, md, req, Reject(s.cache), p, Returned(NO_ACCESS)), Reject(s.cache));
  }

  lemma WakeUpCounts(s: System, call: nat, elapsed: nat)
    requires CounterInv(s) && call in s.sleepers
    ensures CounterInv(WakeUp(s, call, elapsed))
    ensures Wake(s.cache, s.sleepers[call].progress, elapsed).progress.requestWait <=
            WakeUp(s, call, elapsed).cache.stats.totalWaitTime
  {
  }

  lemma CompletionCounts(c: Cache, accesses: Accesses, id: nat, succeeded: bool, retention: CacheRetention)
    requires c.initialized && !c.releasing && RepInv(c) && LeaseInv(c, accesses) && id in accesses && accesses[id].live
    requires FillsBalance(c)
    ensures var c' := Complete(c, accesses[id], succeeded, retention).cache;
            && FillsBalance(c')
            && c'.stats == c.stats.(fillSucceeded := c'.stats.fillSucceeded, fillFailed := c'.stats.fillFailed,
               discard := c'.stats.discard)
  {
    CompletionIsValid(c, accesses, id, succeeded, retention);
    hide RepInv, LeaseInv, Complete, EndReader, Publish, ResetEntry;
    var a := accesses[id];
    match a.status {
      case CacheHit => ReaderEndBalances(c, a.entryIndex, retention == Discard);
      case CacheFill => FillEndBalances(c, a.entryIndex, succeeded, retention);
      case TaskFallback =>
    }
  }

  lemma AbortCounts(c: Cache, accesses: Accesses, id: nat)
    requires RepInv(c) && LeaseInv(c, accesses) && id in accesses && accesses[id].live
    requires FillsBalance(c)
    ensures var c' := Abort(c, accesses[id]);
            && FillsBalance(c')
            && c'.stats == c.stats.(fillSucceeded := c'.stats.fillSucceeded, fillFailed := c'.stats.fillFailed,
               discard := c'.stats.discard)
  {
    AbortIsValid(c, accesses, id);
    hide RepInv, LeaseInv, Abort, EndReader, Publish, ResetEntry;
    var a := accesses[id];
    match a.status {
      case CacheHit => ReaderEndBalances(c, a.entryIndex, false);
      case CacheFill => FillEndBalances(c, a.entryIndex, false, Keep);
      case TaskFallback =>
    }
  }

  lemma LeaseEndCounts(s: System, id: nat, c': Cache)
    requires CounterInv(s)
    requires c'.initialized ==> FillsBalance(c')
    requires c'.stats == s.cache.stats.(fillSucceeded := c'.stats.fillSucceeded, fillFailed := c'.stats.fillFailed,
             discard := c'.stats.discard)
    ensures CounterInv(Settle(s, c').(accesses := s.accesses[id := NO_ACCESS]))
  {
    SettleCounts(s, Settle(s, c').(accesses := s.accesses[id := NO_ACCESS]), c');
  }

  lemma OnlyCountersMatter(s: System, s': System)
    requires CounterInv(s) && s'.cache == s.cache && s'.sleepers == s.sleepers && s'.answered == s.answered
    ensures CounterInv(s')
  {
  }

  lemma SyncFailureCounts(s: System)
    requires CounterInv(s)
    ensures CounterInv(Settle(s, NoteSyncFailure(s.cache)))
  {
    SettleCounts(s, Settle(s, NoteSyncFailure(s.cache)), NoteSyncFailure(s.cache));
  }

  lemma FreshCounts(s: System)
    requires s.cache.stats == NO_STATISTICS && s.answered == 0 && s.sleepers == map[]
    requires forall i :: 0 <= i < |s.cache.entries| ==> s.cache.entries[i].state == Empty
    ensures CounterInv(s)
  {
    NobodyResident(s.cache.entries);
  }

  lemma NobodyToNotify(s: System, c': Cache)
    requires s.sleepers == map[]
    ensures Settle(s, c').sleepers == map[] && Settle(s, c').cache == c'
  {
  }

  lemma ResetCounts(s: System)
    requires SysInv(s) && ResetCache(s.cache).ok
    ensures CounterInv(Settle(s, ResetCache(s.cache).cache).(answered := 0))
  {
    NobodySleeps(s);
    NobodyToNotify(s, ResetCache(s.cache).cache);
    hide SysInv, Settle, CounterInv;
    FreshCounts(Settle(s, ResetCache(s.cache).cache).(answered := 0));
  }

  lemma ReleaseCounts(s: System, c': Cache)
    requires CounterInv(s) && !c'.initialized && c'.stats == s.cache.stats
    ensures CounterInv(Settle(s, c'))
  {
    SettleCounts(s, Settle(s, c'), c');
  }

  lemma InitializeCounts(s: System, gpuId: int, bytes: nat, buffers: seq<DevicePointer>, waitTimeout: nat,
      policy: CacheEvictionPolicy)
    requires SysInv(s) && !s.cache.initialized
    ensures CounterInv(Settle(s, Initialized(s.cache, gpuId, bytes, buffers, waitTimeout, policy)).(answered := 0))
  {
    var c' := Initialized(s.cache, gpuId, bytes, buffers, waitTimeout, policy);
    NobodySleeps(s);
    NobodyToNotify(s, c');
    hide SysInv, Settle, CounterInv;
    FreshCounts(Settle(s, c').(answered := 0));
  }

  lemma CountersKeep(s: System, step: Step, payload: Payload)
    requires SysInv(s) && CounterInv(s) && Enabled(s, step, payload)
    ensures s.cache.initialized || s.sleepers.Keys != {} ==> IndicesInRange(s.cache)
    ensures CounterInv(Apply(s, step))
  {
    hide SysInv, RepInv, LeaseInv, Section, Complete, Abort, Conclude, CounterInv, FillsBalance, ResetCache, EndRelease,
         Initialized, Settle;
    StepKeeps(s, step, payload);
    match step
    case Begin(call, md, req, started, now) =>
      var p := Progress(Deadline(s.cache.waitTimeout, started), false, false, 0);
      if Admits(s.cache, md, req) {
        AdmittedMeansRunning(s, md, req);
        LookupCounts(s, call, md, req, p, now);
      } else {
        RejectionCounts(s, call, md, req, p);
      }
    case Resume(call, elapsed, now) =>
      WakeUpKeeps(s, call, elapsed);
      SleeperHasWaited(s, call);
      WakeUpCounts(s, call, elapsed);
      LookupCounts(WakeUp(s, call, elapsed), call, s.sleepers[call].md, s.sleepers[call].req,
                   Wake(s.cache, s.sleepers[call].progress, elapsed).progress, now);
    case Write(id, bytes) => OnlyCountersMatter(s, Apply(s, step));
    case WriteElsewhere(pointer, bytes) => OnlyCountersMatter(s, Apply(s, step));
    case Finish(id, succeeded, retention) =>
      FinishCounts(s, id, succeeded, retention);
    case Drop(id) =>
      DropCounts(s, id);
    case SyncFailure(id) => SyncFailureCounts(s);
    case Move(source, destination) => OnlyCountersMatter(s, Apply(s, step));
    case Reset =>
      if ResetCache(s.cache).ok {
        ResetCounts(s);
      }
    case StartRelease =>
      if BeginRelease(s.cache).ReleaseStarted? {
        ReleaseCounts(s, BeginRelease(s.cache).cache);
      }
    case FinishRelease(freed) =>
      EndReleaseCounts(s.cache, freed);
      ReleasingIsOff(s);
      ReleaseCounts(s, EndRelease(s.cache, freed));
    case Initialize(gpuIds, bytes, buffers, waitTimeout, policy) =>
      if CanInitialize(s.cache, gpuIds, bytes, waitTimeout) {
        InitializeCounts(s, gpuIds[0], bytes, buffers, waitTimeout, policy);
      }
  }

  lemma FinishCounts(s: System, id: nat, succeeded: bool, retention: CacheRetention)
    requires SysInv(s) && CounterInv(s) && Live(s, id)
    ensures var c' := Complete(s.cache, s.accesses[id], succeeded, retention).cache;
            CounterInv(Settle(s, c').(accesses := s.accesses[id := NO_ACCESS]))
  {
    LiveLeaseMeansRunning(s, id);
    CompletionCounts(s.cache, s.accesses, id, succeeded, retention);
    LeaseEndCounts(s, id, Complete(s.cache, s.accesses[id], succeeded, retention).cache);
  }

  lemma DropCounts(s: System, id: nat)
    requires SysInv(s) && CounterInv(s) && Live(s, id)
    ensures CounterInv(Settle(s, Abort(s.cache, s.accesses[id])).(accesses := s.accesses[id := NO_ACCESS]))
  {
    LiveLeaseMeansRunning(s, id);
    AbortCounts(s.cache, s.accesses, id);
    LeaseEndCounts(s, id, Abort(s.cache, s.accesses[id]));
  }

  lemma SleeperHasWaited(s: System, call: nat)
    requires SysInv(s) && call in s.sleepers
    ensures s.sleepers[call].progress.waited
  {
  }

  lemma EndReleaseCounts(c: Cache, freed: seq<bool>)
    requires |freed| == |c.entries|
    ensures EndRelease(c, freed).stats == c.stats
    ensures EndRelease(c, freed).initialized ==> c.initialized
  {
  }

  lemma ReleasingIsOff(s: System)
    requires SysInv(s) && s.cache.releasing
    ensures !s.cache.initialized
  {
  }
}
