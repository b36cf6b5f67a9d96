/**
 * The cache together with its callers: live leases, sleeping requests and device memory, as a
 * transition system. Each step is one locked section of the manager, or one action of a caller
 * between sections, so every interleaving of threads is a sequence of steps.
 */
module CacheSystem {
  import opened GpuTypes
  import opened CacheSpec
  import opened CacheInvariant
  import opened CacheLeases

  type Bytes = seq<bv8>

  /** What every caller agrees to store under a key. */
  type Payload = GpuDataKey -> Bytes

  datatype Sleeper = Sleeper(md: FrameMetadata, req: GpuCacheRequest, progress: Progress, notified: bool)

  datatype System = System(
    cache: Cache,
    // The access objects of the callers; an object that was never filled or was reset is not live.
    accesses: map<nat, Access>,
    // Requests inside wait_until, by the access object that will receive their result.
    sleepers: map<nat, Sleeper>,
    memory: map<DevicePointer, Bytes>,
    // Reference clock for the eviction order: when an entry last became idle, and when its fill completed.
    tick: nat, idleAt: seq<nat>, filledAt: seq<nat>,
    // How many lookups returned since the counters were last cleared.
    answered: nat)

  datatype Step =
    | Begin(call: nat, md: FrameMetadata, req: GpuCacheRequest, started: int, now: int)
    | Resume(call: nat, elapsed: nat, now: int)
    | Write(id: nat, bytes: Bytes)
    | WriteElsewhere(pointer: DevicePointer, bytes: Bytes)
    | Finish(id: nat, succeeded: bool, retention: CacheRetention)
    | Drop(id: nat)
    | SyncFailure(id: nat)
    | Move(source: nat, destination: nat)
    | Reset
    | StartRelease
    | FinishRelease(freed: seq<bool>)
    | Initialize(gpuIds: seq<int>, size: nat, buffers: seq<DevicePointer>, waitTimeout: int,
      policy: CacheEvictionPolicy)

  predicate Live(s: System, id: nat) {
    id in s.accesses && s.accesses[id].live
  }

  /** The obligations of callers, and of the allocator, for a step to be taken. */
  ghost predicate Enabled(s: System, step: Step, payload: Payload) {
    match step
    case Begin(call, md, req, started, now) =>
      !Live(s, call) && call !in s.sleepers && !IsBuffer(s.cache, req.d_fallback)
    case Resume(call, elapsed, now) => call in s.sleepers
    // Only CacheFill and TaskFallback leases hand out a writable pointer.
    case Write(id, bytes) => Live(s, id) && s.accesses[id].Writable()
    case WriteElsewhere(pointer, bytes) => !IsBuffer(s.cache, pointer)
    // A fill may only be declared successful when the whole payload has been written.
    case Finish(id, succeeded, retention) =>
      Live(s, id) &&
      (s.accesses[id].status == CacheFill && succeeded ==>
         s.accesses[id].data in s.memory && s.memory[s.accesses[id].data] == payload(s.accesses[id].key))
    case Drop(id) => Live(s, id)
    case SyncFailure(id) => Live(s, id)
    case Move(source, destination) =>
      Live(s, source) && !Live(s, destination) && destination !in s.sleepers
    case Reset => true
    case StartRelease => true
    case FinishRelease(freed) => s.cache.releasing && |freed| == |s.cache.entries|
    case Initialize(gpuIds, bytes, buffers, waitTimeout, policy) =>
      && |buffers| < NO_ENTRY
      && (forall i :: 0 <= i < |buffers| ==> buffers[i] != NULL_POINTER)
      && (forall i, j :: 0 <= i < j < |buffers| ==> buffers[i] != buffers[j])
  }

  // ---------------------------------------------------------------- reference clock

  ghost predicate IsIdle(c: Cache, i: nat) {
    i < |c.entries| && c.entries[i].state == Valid && c.entries[i].active == 0
  }

  ghost predicate IsFilled(c: Cache, i: nat) {
    i < |c.entries| && c.entries[i].state == Valid
  }

  ghost function IdleStamps(c: Cache, c': Cache, tick: nat, stamps: seq<nat>): seq<nat> {
    seq(|c'.entries|, i requires 0 <= i < |c'.entries| =>
      if IsIdle(c', i) && !IsIdle(c, i) then tick else if i < |stamps| then stamps[i] else 0)
  }

  ghost function FillStamps(c: Cache, c': Cache, tick: nat, stamps: seq<nat>): seq<nat> {
    seq(|c'.entries|, i requires 0 <= i < |c'.entries| =>
      if IsFilled(c', i) && !IsFilled(c, i) then tick else if i < |stamps| then stamps[i] else 0)
  }

  // ---------------------------------------------------------------- effects

  ghost function Notified(sleepers: map<nat, Sleeper>, now: bool): map<nat, Sleeper> {
    map id | id in sleepers :: sleepers[id].(notified := sleepers[id].notified || now)
  }

  /** Replaces the cache, delivering a broadcast to everyone asleep and advancing the reference clock. */
  ghost function Settle(s: System, c': Cache): System {
    s.(cache := c',
       sleepers := Notified(s.sleepers, c'.notices != s.cache.notices),
       tick := s.tick + 1,
       idleAt := IdleStamps(s.cache, c', s.tick, s.idleAt),
       filledAt := FillStamps(s.cache, c', s.tick, s.filledAt))
  }

  /** The end of a locked section: the request either holds its result or is asleep. */
  ghost function Conclude(s: System, call: nat, md: FrameMetadata, req: GpuCacheRequest, c': Cache, p: Progress,
      out: Outcome)
    : System
  {
    match out
    case Returned(a) => Settle(s, c').(accesses := s.accesses[call := a], answered := s.answered + 1)
    case Sleeping =>
      var s' := Settle(s, c');
      s'.(sleepers := s'.sleepers[call := Sleeper(md, req, p, false)])
  }

  /** A sleeper that holds the lock again, before it repeats its lookup. */
  ghost function WakeUp(s: System, call: nat, elapsed: nat): System
    requires call in s.sleepers
  {
    s.(cache := Wake(s.cache, s.sleepers[call].progress, elapsed).cache, sleepers := s.sleepers - {call})
  }

  ghost function Apply(s: System, step: Step): System
    requires s.cache.initialized || s.sleepers.Keys != {} ==> IndicesInRange(s.cache)
    requires step.Resume? ==> step.call in s.sleepers
    requires step.Write? ==> step.id in s.accesses
    requires step.Finish? ==> step.id in s.accesses
    requires step.Drop? ==> step.id in s.accesses
    requires step.Move? ==> step.source in s.accesses
    requires step.FinishRelease? ==> |step.freed| == |s.cache.entries|
  {
    match step
    case Begin(call, md, req, started, now) =>
      var Pass(c', p, out) := Lookup(s.cache, md, req, started, now);
      Conclude(s, call, md, req, c', p, out)
    case Resume(call, elapsed, now) =>
      var sl := s.sleepers[call];
      var s1 := WakeUp(s, call, elapsed);
      var Pass(c', p, out) := Section(s1.cache, sl.md, sl.req, Wake(s.cache, sl.progress, elapsed).progress, now);
      Conclude(s1, call, sl.md, sl.req, c', p, out)
    case Write(id, bytes) => s.(memory := s.memory[s.accesses[id].data := bytes])
    case WriteElsewhere(pointer, bytes) => s.(memory := s.memory[pointer := bytes])
    case Finish(id, succeeded, retention) =>
      Settle(s, Complete(s.cache, s.accesses[id], succeeded, retention).cache).(accesses := s.accesses[id := NO_ACCESS])
    case Drop(id) =>
      Settle(s, Abort(s.cache, s.accesses[id])).(accesses := s.accesses[id := NO_ACCESS])
    case SyncFailure(id) => Settle(s, NoteSyncFailure(s.cache))
    case Move(source, destination) =>
      s.(accesses := s.accesses[destination := s.accesses[source]][source := NO_ACCESS])
    case Reset =>
      var Reply(c', ok) := ResetCache(s.cache);
      if ok then Settle(s, c').(answered := 0) else s
    case StartRelease =>
      var start := BeginRelease(s.cache);
      if start.ReleaseStarted? then Settle(s, start.cache) else s
    case FinishRelease(freed) => Settle(s, EndRelease(s.cache, freed))
    case Initialize(gpuIds, bytes, buffers, waitTimeout, policy) =>
      if CanInitialize(s.cache, gpuIds, bytes, waitTimeout)
      then Settle(s, Initialized(s.cache, gpuIds[0], bytes, buffers, waitTimeout, policy)).(answered := 0)
      else s
  }

  ghost predicate Start(s: System) {
    && s.cache == NEVER_INITIALIZED && s.sleepers == map[] && s.answered == 0
    && s.tick == 0 && s.idleAt == [] && s.filledAt == []
    && (forall id :: id in s.accesses ==> s.accesses[id] == NO_ACCESS)
  }
}
