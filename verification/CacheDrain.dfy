/**
 * Work that outlives its lease. When a stream cannot be synchronized the lease ends all the same, and what
 * was submitted on the stream may still run. The manager then counts as failed until it is released: the
 * buffer of such a fill may be written at any time, and still no hit reads anything but its payload.
 */
module CacheDrain {
  import opened GpuTypes
  import opened CacheSpec
  import opened CacheInvariant
  import opened CacheLeases
  import opened CacheSystem
  import opened CacheRuns
  import opened CacheCoherence
  import opened CacheWaiting
  import opened CacheCounters
  import opened CacheOrder
  import CT = CacheTheorems

  datatype Drain = Drain(
    system: System,
    // The live leases whose stream has failed to synchronize.
    broken: set<nat>,
    // The buffers that the work of an ended fill lease may still write.
    undrained: set<DevicePointer>)

  datatype DrainStep = Inner(step: Step) | LateWrite(pointer: DevicePointer, bytes: Bytes)

  /** After a failed synchronization a completion is a failed one; late work writes what its lease could write. */
  ghost predicate MayDrain(d: Drain, ds: DrainStep, payload: Payload) {
    match ds
    case Inner(step) => Enabled(d.system, step, payload) && (step.Finish? && step.id in d.broken ==> !step.succeeded)
    case LateWrite(pointer, bytes) => pointer in d.undrained
  }

  ghost function BrokenAfter(broken: set<nat>, step: Step): set<nat> {
    match step
    case SyncFailure(id) => broken + {id}
    case Finish(id, _, _) => broken - {id}
    case Drop(id) => broken - {id}
    case Move(source, destination) => if source in broken then broken - {source} + {destination} else broken
    case _ => broken
  }

  /** The lease that the step ends without its stream having been synchronized. */
  ghost predicate Abandons(d: Drain, step: Step, pointer: DevicePointer) {
    match step
    case Finish(id, _, _) => id in d.broken && id in d.system.accesses && IsFillOn(d.system.accesses[id], pointer)
    case Drop(id) => id in d.broken && id in d.system.accesses && IsFillOn(d.system.accesses[id], pointer)
    case _ => false
  }

  predicate IsFillOn(a: Access, pointer: DevicePointer) {
    a.status == CacheFill && a.data == pointer
  }

  ghost predicate DrainNext(d: Drain, ds: DrainStep, d': Drain, payload: Payload) {
    && MayDrain(d, ds, payload)
    && match ds
       case Inner(step) =>
         && CT.Next(d.system, step, d'.system, payload)
         && d'.broken == BrokenAfter(d.broken, step)
         // Freeing a buffer waits for the device, so what has been freed is drained.
         && (forall p :: p in d'.undrained <==>
               (p in d.undrained || Abandons(d, step, p)) && (step.FinishRelease? ==> IsBuffer(d'.system.cache, p)))
       case LateWrite(pointer, bytes) =>
         d' == d.(system := d.system.(memory := d.system.memory[pointer := bytes]))
  }

  ghost predicate IsDrainRun(states: seq<Drain>, steps: seq<DrainStep>, payload: Payload) {
    && |states| == |steps| + 1 && Start(states[0].system) && states[0].broken == {} && states[0].undrained == {}
    && (forall k :: 0 <= k < |steps| ==> DrainNext(states[k], steps[k], states[k + 1], payload))
  }

  // ---------------------------------------------------------------- the invariant

  /** The pointer is the buffer of an entry that holds nothing. */
  ghost predicate Retired(c: Cache, pointer: DevicePointer) {
    exists i :: 0 <= i < |c.entries| && c.entries[i].buffer == pointer && c.entries[i].state == Empty
  }

  /** No device buffer belongs to two entries. */
  ghost predicate BuffersApart(c: Cache) {
    forall i, j :: 0 <= i < j < |c.entries| && c.entries[i].buffer != NULL_POINTER ==>
      c.entries[i].buffer != c.entries[j].buffer
  }

  ghost predicate DrainInv(d: Drain) {
    && BuffersApart(d.system.cache)
    && (forall id :: id in d.broken ==> Live(d.system, id))
    && (d.broken != {} || d.undrained != {} ==> d.system.cache.failed)
    && (forall p :: p in d.undrained ==> p != NULL_POINTER && Retired(d.system.cache, p))
  }

  /** In a failed manager an empty entry stays as it is until its buffer is freed. */
  lemma EmptyEntryStays(s: System, step: Step, s': System, payload: Payload, i: nat)
    requires SysInv(s) && CT.Next(s, step, s', payload) && s.cache.failed && i < |s.cache.entries|
    requires s.cache.entries[i].state == Empty && s.cache.entries[i].buffer != NULL_POINTER
    ensures (s'.cache.failed && i < |s'.cache.entries| && s'.cache.entries[i] == s.cache.entries[i])
            || (step.FinishRelease? && (i < |s'.cache.entries| ==> s'.cache.entries[i].buffer == NULL_POINTER)
                && (s'.cache.entries == [] || s'.cache.failed))
  {
    hide Complete, Abort, IndicesInRange, RepInv, LeaseInv, CanReset, SysInv, IdleStamps, FillStamps, Notified;
    match step
    case Finish(id, succeeded, retention) =>
      LiveLeaseMeansRunning(s, id);
      CompletionIsValid(s.cache, s.accesses, id, succeeded, retention);
      if s.accesses[id].status != TaskFallback {
        EndsElsewhere(s.cache, i, s.accesses[id].entryIndex, retention == Discard, retention);
      }
    case Drop(id) =>
      LiveLeaseMeansRunning(s, id);
      AbortIsValid(s.cache, s.accesses, id);
      if s.accesses[id].status != TaskFallback {
        EndsElsewhere(s.cache, i, s.accesses[id].entryIndex, false, Keep);
      }
    case _ =>
  }

  /** The end of a lease on one entry leaves every other entry and the failure alone. */
  lemma EndsElsewhere(c: Cache, i: nat, j: nat, discardNow: bool, retention: CacheRetention)
    requires i < |c.entries| && i != j
    ensures j < |c.entries| && c.entries[j].active > 0 ==> var c' := EndReader(c, j, discardNow);
              c'.failed == c.failed && |c'.entries| == |c.entries| && c'.entries[i] == c.entries[i]
    ensures j < |c.entries| ==> var c' := Publish(c, j, retention);
              c'.failed == c.failed && |c'.entries| == |c.entries| && c'.entries[i] == c.entries[i]
    ensures j < |c.entries| ==> var c' := ResetEntry(c, j);
              c'.failed == c.failed && |c'.entries| == |c.entries| && c'.entries[i] == c.entries[i]
  {
  }

  /** While a lease lives, a failed manager stays failed. */
  lemma FailureStays(s: System, step: Step, s': System, payload: Payload, id: nat)
    requires SysInv(s) && CT.Next(s, step, s', payload) && s.cache.failed && Live(s, id)
    ensures s'.cache.failed && !step.FinishRelease?
  {
    hide IndicesInRange, RepInv, LeaseInv, CanReset, SysInv, IdleStamps, FillStamps, Notified, EndReader, Publish,
         ResetEntry;
    LiveLeaseMeansRunning(s, id);
    match step
    case Finish(other, succeeded, retention) => EndsKeepStatus(s.cache, s.accesses[other], succeeded, retention);
    case Drop(other) => EndsKeepStatus(s.cache, s.accesses[other], false, Keep);
    case _ =>
  }

  ghost predicate SameStatus(c: Cache, c': Cache) {
    c'.initialized == c.initialized && c'.failed == c.failed
  }

  lemma EndsKeepStatus(c: Cache, a: Access, succeeded: bool, retention: CacheRetention)
    ensures SameStatus(c, Complete(c, a, succeeded, retention).cache) && SameStatus(c, Abort(c, a))
  {
    hide Complete, Abort;
    CompletionKeepsStatus(c, a, succeeded, retention);
    AbortKeepsStatus(c, a);
  }

  lemma CompletionKeepsStatus(c: Cache, a: Access, succeeded: bool, retention: CacheRetention)
    ensures SameStatus(c, Complete(c, a, succeeded, retention).cache)
  {
    hide EndReader, Publish, ResetEntry;
    if a.entryIndex < |c.entries| {
      EntryEndsKeepStatus(c, a.entryIndex, retention == Discard, retention);
    }
  }

  lemma AbortKeepsStatus(c: Cache, a: Access)
    ensures SameStatus(c, Abort(c, a))
  {
    hide EndReader, Publish, ResetEntry;
    if a.entryIndex < |c.entries| {
      EntryEndsKeepStatus(c, a.entryIndex, false, Keep);
      EntryEndsKeepStatus(CountFill(c, false), a.entryIndex, false, Keep);
    }
  }

  lemma EntryEndsKeepStatus(c: Cache, i: nat, discardNow: bool, retention: CacheRetention)
    requires i < |c.entries|
    ensures c.entries[i].active > 0 ==> SameStatus(c, EndReader(c, i, discardNow))
    ensures SameStatus(c, Publish(c, i, retention)) && SameStatus(c, ResetEntry(c, i))
  {
  }

  lemma AbandonedIsRetired(d: Drain, step: Step, s': System, payload: Payload, p: DevicePointer)
    requires SysInv(d.system) && MayDrain(d, Inner(step), payload) && CT.Next(d.system, step, s', payload)
    requires Abandons(d, step, p)
    ensures p != NULL_POINTER && Retired(s'.cache, p)
  {
    hide Complete, Abort, RepInv, LeaseInv, SysInv, IdleStamps, FillStamps, Notified;
    var s, id := d.system, step.id;
    LiveLeaseMeansRunning(s, id);
    var a := s.accesses[id];
    LeaseFacts(s.cache, s.accesses, id);
    if step.Finish? {
      CompletionIsValid(s.cache, s.accesses, id, step.succeeded, step.retention);
    } else {
      AbortIsValid(s.cache, s.accesses, id);
    }
    assert s'.cache.entries[a.entryIndex] == s.cache.entries[a.entryIndex].Cleared();
  }

  lemma LeaseFacts(c: Cache, accesses: Accesses, id: nat)
    requires RepInv(c) && LeaseInv(c, accesses) && id in accesses && accesses[id].live
             && accesses[id].status == CacheFill
    ensures var a := accesses[id];
            a.entryIndex < |c.entries| && c.entries[a.entryIndex].buffer == a.data && a.data != NULL_POINTER
  {
    assert LeaseOk(c, accesses[id]);
    assert Placed(c, accesses[id].entryIndex);
  }

  // ---------------------------------------------------------------- every step

  lemma RetiredStays(s: System, step: Step, s': System, payload: Payload, p: DevicePointer)
    requires SysInv(s) && CT.Next(s, step, s', payload) && s.cache.failed && p != NULL_POINTER && Retired(s.cache, p)
    requires BuffersApart(s.cache) && (step.FinishRelease? ==> IsBuffer(s'.cache, p))
    ensures s'.cache.failed && Retired(s'.cache, p)
  {
    hide SysInv, CT.Next;
    var i :| 0 <= i < |s.cache.entries| && s.cache.entries[i].buffer == p && s.cache.entries[i].state == Empty;
    EmptyEntryStays(s, step, s', payload, i);
    if step.FinishRelease? {
      FreedStaysInPlace(s, step, s', payload, i);
    }
  }

  /** A release frees or keeps each buffer where it is, so a buffer that is left is still in its own entry. */
  lemma FreedStaysInPlace(s: System, step: Step, s': System, payload: Payload, i: nat)
    requires BuffersApart(s.cache) && CT.Next(s, step, s', payload) && step.FinishRelease? && i < |s.cache.entries|
    requires s.cache.entries[i].buffer != NULL_POINTER && IsBuffer(s'.cache, s.cache.entries[i].buffer)
    ensures i < |s'.cache.entries| && s'.cache.entries[i].buffer == s.cache.entries[i].buffer
  {
    hide IndicesInRange, IdleStamps, FillStamps, Notified, AllNull;
    var j :| 0 <= j < |s'.cache.entries| && s'.cache.entries[j].buffer == s.cache.entries[i].buffer;
    assert s.cache.entries[j].buffer == s'.cache.entries[j].buffer;
  }

  lemma DrainKeeps(d: Drain, ds: DrainStep, d': Drain, payload: Payload)
    requires CT.AllInv(d.system, payload) && DrainInv(d) && DrainNext(d, ds, d', payload)
    ensures CT.AllInv(d'.system, payload) && DrainInv(d')
  {
    hide CT.AllInv, SysInv, Retired, CT.Next;
    SystemOfAll(d.system, payload);
    match ds
    case LateWrite(pointer, bytes) => LateWriteKeeps(d, pointer, bytes, payload);
    case Inner(step) =>
      CT.AllKeep(d.system, step, d'.system, payload);
      SystemOfAll(d'.system, payload);
      BuffersStayApart(d.system, step, d'.system, payload);
      BrokenLeasesLive(d, step, d'.system, payload);
      forall p | p in d'.undrained
        ensures d'.system.cache.failed && p != NULL_POINTER && Retired(d'.system.cache, p)
      {
        if p in d.undrained {
          RetiredStays(d.system, step, d'.system, payload, p);
        } else {
          AbandonedIsRetired(d, step, d'.system, payload, p);
          AbandonmentFailed(d, step, d'.system, payload, p);
        }
      }
  }

  lemma SystemOfAll(s: System, payload: Payload)
    requires CT.AllInv(s, payload)
    ensures SysInv(s) && MemoryInv(s, payload)
  {
  }

  lemma AbandonmentFailed(d: Drain, step: Step, s': System, payload: Payload, p: DevicePointer)
    requires SysInv(d.system) && DrainInv(d) && CT.Next(d.system, step, s', payload) && Abandons(d, step, p)
    ensures s'.cache.failed
  {
    hide SysInv, CT.Next;
    FailureStays(d.system, step, s', payload, step.id);
  }

  lemma BrokenLeasesLive(d: Drain, step: Step, s': System, payload: Payload)
    requires SysInv(d.system) && DrainInv(d) && MayDrain(d, Inner(step), payload)
             && CT.Next(d.system, step, s', payload)
    ensures forall id :: id in BrokenAfter(d.broken, step) ==> Live(s', id)
    ensures BrokenAfter(d.broken, step) != {} ==> s'.cache.failed
  {
    forall id | id in BrokenAfter(d.broken, step)
      ensures Live(s', id) && s'.cache.failed
    {
      OthersKeepTheirLease(d.system, step, s', payload, id);
      if d.broken != {} {
        var some :| some in d.broken;
        FailureStays(d.system, step, s', payload, some);
      }
    }
  }

  /** A step ends or moves only the lease that it names. */
  lemma OthersKeepTheirLease(s: System, step: Step, s': System, payload: Payload, id: nat)
    requires SysInv(s) && CT.Next(s, step, s', payload)
    ensures Live(s, id) && !(step.Finish? && step.id == id) && !(step.Drop? && step.id == id)
            && !(step.Move? && step.source == id)
            ==> Live(s', id)
    ensures step.Move? ==> Live(s', step.destination)
    ensures step.SyncFailure? ==> Live(s', step.id) && s'.cache.failed
  {
    hide Section, Complete, Abort, IndicesInRange, IdleStamps, FillStamps, Notified, CanReset, CanInitialize,
         ResetCache, BeginRelease;
    match step
    case _ =>
  }

  lemma BuffersStayApart(s: System, step: Step, s': System, payload: Payload)
    requires SysInv(s) && BuffersApart(s.cache) && CT.Next(s, step, s', payload) && SysInv(s')
    ensures BuffersApart(s'.cache)
  {
    hide SysInv, CT.Next;
    if s'.cache.initialized {
      RunningIsApart(s');
    } else if s.cache.initialized && !step.StartRelease? {
      StaysRunning(s, step, s', payload);
    } else {
      BuffersAreOnlyFreed(s, step, s', payload);
    }
  }

  lemma StaysRunning(s: System, step: Step, s': System, payload: Payload)
    requires SysInv(s) && CT.Next(s, step, s', payload) && s.cache.initialized && !step.StartRelease?
    ensures s'.cache.initialized
  {
    hide Section, Complete, Abort, IndicesInRange, RepInv, LeaseInv, IdleStamps, FillStamps, Notified, CanReset,
         CanInitialize;
    match step
    case Begin(_, md, req, started, now) =>
      if Admits(s.cache, md, req) {
        SectionKeepsStatus(s.cache, md, req, Progress(Deadline(s.cache.waitTimeout, started), false, false, 0), now);
      }
    case Resume(call, elapsed, now) =>
      var sl := s.sleepers[call];
      WakingKeepsRange(s, call, elapsed);
      SectionKeepsStatus(WakeUp(s, call, elapsed).cache, sl.md, sl.req, Wake(s.cache, sl.progress, elapsed).progress,
        now);
    case Finish(id, succeeded, retention) => EndsKeepStatus(s.cache, s.accesses[id], succeeded, retention);
    case Drop(id) => EndsKeepStatus(s.cache, s.accesses[id], false, Keep);
    case _ =>
  }

  lemma WakingKeepsRange(s: System, call: nat, elapsed: nat)
    requires IndicesInRange(s.cache) && call in s.sleepers
    ensures var c := WakeUp(s, call, elapsed).cache; IndicesInRange(c) && c.initialized == s.cache.initialized
  {
  }

  /** Between initialisations only a release touches the buffers, and it can only free them. */
  lemma BuffersAreOnlyFreed(s: System, step: Step, s': System, payload: Payload)
    requires SysInv(s) && BuffersApart(s.cache) && CT.Next(s, step, s', payload) && !s'.cache.initialized
    requires s.cache.initialized ==> step.StartRelease?
    ensures BuffersApart(s'.cache)
  {
    hide Section, Complete, Abort, IndicesInRange, RepInv, LeaseInv, IdleStamps, FillStamps, Notified, CanReset,
         CanInitialize, NothingHeld;
    match step
    case Resume(_, _, _) => SleepersPinTheManager(s);
    case Finish(id, _, _) => LiveLeaseMeansRunning(s, id);
    case Drop(id) => LiveLeaseMeansRunning(s, id);
    case _ =>
  }

  lemma SectionKeepsStatus(c: Cache, md: FrameMetadata, req: GpuCacheRequest, p: Progress, now: int)
    requires IndicesInRange(c)
    ensures SameStatus(c, Section(c, md, req, p, now).cache)
  {
    SectionEffect(c, md, req, p, now);
    hide Section, IndicesInRange, Find;
  }

  lemma RunningIsApart(s: System)
    requires SysInv(s) && s.cache.initialized
    ensures BuffersApart(s.cache)
  {
  }

  lemma LateWriteKeeps(d: Drain, pointer: DevicePointer, bytes: Bytes, payload: Payload)
    requires CT.AllInv(d.system, payload) && DrainInv(d) && pointer in d.undrained
    ensures var s' := d.system.(memory := d.system.memory[pointer := bytes]);
            CT.AllInv(s', payload) && DrainInv(d.(system := s'))
  {
    var s := d.system;
    var s' := s.(memory := s.memory[pointer := bytes]);
    forall i | 0 <= i < |s.cache.entries| && s.cache.entries[i].state == Valid
      ensures s.cache.entries[i].buffer != pointer
    {
      RetiredIsNotRead(s, pointer, i);
    }
    WriteKeepsMemory(s, pointer, bytes, payload);
    OnlyBytesChanged(s, s');
  }

  lemma RetiredIsNotRead(s: System, p: DevicePointer, i: nat)
    requires BuffersApart(s.cache) && p != NULL_POINTER && Retired(s.cache, p)
    requires i < |s.cache.entries| && s.cache.entries[i].state != Empty
    ensures s.cache.entries[i].buffer != p
  {
    var j :| 0 <= j < |s.cache.entries| && s.cache.entries[j].buffer == p && s.cache.entries[j].state == Empty;
  }

  lemma OnlyBytesChanged(s: System, s': System)
    requires s' == s.(memory := s'.memory)
    ensures SysInv(s) ==> SysInv(s')
    ensures WaitInv(s) ==> WaitInv(s')
    ensures CounterInv(s) ==> CounterInv(s')
    ensures OrderInv(s) ==> OrderInv(s')
  {
  }

  // ---------------------------------------------------------------- theorems

  lemma NothingToDrain(d: Drain)
    requires Start(d.system) && d.broken == {} && d.undrained == {}
    ensures DrainInv(d)
  {
  }

  lemma {:induction false} DrainRunsAreSafe(states: seq<Drain>, steps: seq<DrainStep>, payload: Payload, k: nat)
    requires IsDrainRun(states, steps, payload) && k < |states|
    ensures CT.AllInv(states[k].system, payload) && DrainInv(states[k])
  {
    hide CT.AllInv, DrainNext, Start;
    if k == 0 {
      CT.AllStart(states[0].system, payload);
      NothingToDrain(states[0]);
    } else {
      DrainRunsAreSafe(states, steps, payload, k - 1);
      assert DrainNext(states[k - 1], steps[k - 1], states[k], payload);
      DrainKeeps(states[k - 1], steps[k - 1], states[k], payload);
    }
  }

  /** Coherence survives failed synchronizations: whatever late work writes, a hit reads the payload of its key. */
  lemma HitsSurviveLateWrites(states: seq<Drain>, steps: seq<DrainStep>, payload: Payload, k: nat, id: nat)
    requires IsDrainRun(states, steps, payload) && k < |states|
    requires Live(states[k].system, id) && states[k].system.accesses[id].status == CacheHit
    ensures var s, a := states[k].system, states[k].system.accesses[id];
            HoldsPayload(s.memory, a.data, a.key, payload) && a.data !in states[k].undrained
  {
    hide IsDrainRun;
    DrainRunsAreSafe(states, steps, payload, k);
    SystemOfAll(states[k].system, payload);
    HitsReadThePayload(states[k].system, payload, id);
    UndrainedIsNotLeased(states[k], id);
  }

  lemma UndrainedIsNotLeased(d: Drain, id: nat)
    requires SysInv(d.system) && DrainInv(d) && Live(d.system, id)
    ensures d.system.accesses[id].data !in d.undrained
  {
    var s, a := d.system, d.system.accesses[id];
    LiveLeaseMeansRunning(s, id);
    assert LeaseOk(s.cache, a);
    if a.status != TaskFallback && a.data in d.undrained {
      RetiredIsNotRead(s, a.data, a.entryIndex);
    }
  }

  /**
   * Quarantine: from the moment an unsynchronized fill lease ends until a release frees it, its buffer stays
   * marked, belongs to no lease whatever its kind, and the manager stays failed.
   */
  lemma BuffersStayQuarantined(states: seq<Drain>, steps: seq<DrainStep>, payload: Payload, k: nat, p: DevicePointer)
    requires IsDrainRun(states, steps, payload) && k < |steps|
    requires p in states[k].undrained || (steps[k].Inner? && Abandons(states[k], steps[k].step, p))
    requires steps[k].Inner? && steps[k].step.FinishRelease? ==> IsBuffer(states[k + 1].system.cache, p)
    ensures p in states[k + 1].undrained && states[k + 1].system.cache.failed
    ensures var s := states[k + 1].system; forall id :: Live(s, id) ==> s.accesses[id].data != p
  {
    DrainRunsAreSafe(states, steps, payload, k + 1);
    var d' := states[k + 1];
    assert DrainNext(states[k], steps[k], d', payload);
    SystemOfAll(d'.system, payload);
    hide CT.AllInv, SysInv, Retired, CT.Next;
    forall id | Live(d'.system, id)
      ensures d'.system.accesses[id].data != p
    {
      UndrainedIsNotLeased(d', id);
    }
  }
}
