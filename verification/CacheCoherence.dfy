/**
 * Coherence: if every successful fill wrote the agreed payload of its key, then every hit reads that
 * payload for as long as its lease lives, and nobody else can write the buffer meanwhile.
 */
module CacheCoherence {
  import opened GpuTypes
  import opened CacheSpec
  import opened CacheInvariant
  import opened CacheLeases
  import opened CacheSystem
  import opened CacheRuns

  ghost predicate HoldsPayload(memory: map<DevicePointer, Bytes>, pointer: DevicePointer, key: GpuDataKey,
      payload: Payload) {
    pointer in memory && memory[pointer] == payload(key)
  }

  ghost predicate MemoryInv(s: System, payload: Payload) {
    forall i :: 0 <= i < |s.cache.entries| && s.cache.entries[i].state == Valid ==>
      HoldsPayload(s.memory, s.cache.entries[i].buffer, s.cache.entries[i].metadata.key, payload)
  }

  /** Every entry that is readable afterwards was readable before, under the same key; `except` aside. */
  ghost predicate NothingNewReadable(c: Cache, c': Cache, except: Option<nat>) {
    forall i :: 0 <= i < |c'.entries| && c'.entries[i].state == Valid && except != Some(i) ==>
      && i < |c.entries| && c.entries[i].state == Valid
      && c.entries[i].metadata == c'.entries[i].metadata && c.entries[i].buffer == c'.entries[i].buffer
  }

  lemma SectionPublishesNothing(c: Cache, md: FrameMetadata, req: GpuCacheRequest, p: Progress, now: int)
    requires RepInv(c)
    ensures IndicesInRange(c) && NothingNewReadable(c, Section(c, md, req, p, now).cache, None)
  {
    FindingIsTrue(c, md);
    SectionEffect(c, md, req, p, now);
    hide RepInv, Find, Section;
  }

  lemma ReaderEndPublishesNothing(c: Cache, i: nat, discardNow: bool)
    requires i < |c.entries| && c.entries[i].active > 0
    ensures NothingNewReadable(c, EndReader(c, i, discardNow), None)
  {
    hide Without, ErasedKey;
  }

  lemma FillEndPublishes(c: Cache, i: nat, succeeded: bool, retention: CacheRetention)
    requires i < |c.entries|
    ensures var c' := CountFill(if succeeded then Publish(c, i, retention) else ResetEntry(c, i), succeeded);
            && NothingNewReadable(c, c', if succeeded then Some(i) else None)
            && |c'.entries| == |c.entries| && c'.entries[i].buffer == c.entries[i].buffer
            && (c'.entries[i].state == Valid ==> c'.entries[i].metadata == c.entries[i].metadata)
  {
    hide Without, ErasedKey;
  }

  lemma CompletionPublishesOneFill(c: Cache, accesses: Accesses, id: nat, succeeded: bool, retention: CacheRetention)
    requires c.initialized && !c.releasing && RepInv(c) && LeaseInv(c, accesses) && id in accesses && accesses[id].live
    ensures var a := accesses[id];
            var c' := Complete(c, a, succeeded, retention).cache;
            && NothingNewReadable(c, c', if a.status == CacheFill && succeeded then Some(a.entryIndex) else None)
            && (a.status == CacheFill && succeeded ==>
                  a.entryIndex < |c'.entries| && (c'.entries[a.entryIndex].state == Valid ==>
                    c'.entries[a.entryIndex].buffer == a.data && c'.entries[a.entryIndex].metadata.key == a.key))
  {
    assert LeaseOk(c, accesses[id]);
    hide RepInv, LeaseInv, Complete, EndReader, Publish, ResetEntry;
    CompletionIsValid(c, accesses, id, succeeded, retention);
    match accesses[id].status {
      case TaskFallback =>
      case CacheHit => ReaderEndPublishesNothing(c, accesses[id].entryIndex, retention == Discard);
      case CacheFill => FillEndPublishes(c, accesses[id].entryIndex, succeeded, retention);
    }
  }

  lemma AbortPublishesNothing(c: Cache, accesses: Accesses, id: nat)
    requires RepInv(c) && LeaseInv(c, accesses) && id in accesses && accesses[id].live
    ensures NothingNewReadable(c, Abort(c, accesses[id]), None)
  {
    hide RepInv, LeaseInv, Abort, EndReader, Publish, ResetEntry;
    AbortIsValid(c, accesses, id);
    match accesses[id].status {
      case TaskFallback =>
      case CacheHit => ReaderEndPublishesNothing(c, accesses[id].entryIndex, false);
      case CacheFill => FillEndPublishes(c, accesses[id].entryIndex, false, Keep);
    }
  }

  /** A writable lease can only write where no published payload lies. */
  lemma WritersAreApart(s: System, id: nat)
    requires SysInv(s) && Live(s, id) && s.accesses[id].Writable()
    ensures forall i :: 0 <= i < |s.cache.entries| && s.cache.entries[i].state == Valid ==>
              s.cache.entries[i].buffer != s.accesses[id].data
  {
    LiveLeaseMeansRunning(s, id);
    assert LeaseOk(s.cache, s.accesses[id]);
  }

  lemma NothingPublished(s: System, c': Cache, payload: Payload)
    requires MemoryInv(s, payload) && NothingNewReadable(s.cache, c', None)
    ensures MemoryInv(Settle(s, c'), payload)
  {
  }

  lemma LookupKeepsMemory(s: System, call: nat, md: FrameMetadata, req: GpuCacheRequest, p: Progress, now: int,
      payload: Payload)
    requires RepInv(s.cache) && IndicesInRange(s.cache) && MemoryInv(s, payload)
    ensures var Pass(c', p', out) := Section(s.cache, md, req, p, now);
            MemoryInv(Conclude(s, call, md, req, c', p', out), payload)
  {
    SectionPublishesNothing(s.cache, md, req, p, now);
    NothingPublished(s, Section(s.cache, md, req, p, now).cache, payload);
    hide Section, RepInv, IndicesInRange, NothingNewReadable;
  }

  lemma FinishKeepsMemory(s: System, id: nat, succeeded: bool, retention: CacheRetention, payload: Payload)
    requires SysInv(s) && MemoryInv(s, payload) && Enabled(s, Finish(id, succeeded, retention), payload)
    ensures MemoryInv(Settle(s, Complete(s.cache, s.accesses[id], succeeded, retention).cache), payload)
  {
    LiveLeaseMeansRunning(s, id);
    CompletionPublishesOneFill(s.cache, s.accesses, id, succeeded, retention);
    hide SysInv, Complete, RepInv;
  }

  lemma MemoryKeeps(s: System, step: Step, payload: Payload)
    requires SysInv(s) && MemoryInv(s, payload) && Enabled(s, step, payload)
    ensures s.cache.initialized || s.sleepers.Keys != {} ==> IndicesInRange(s.cache)
    ensures MemoryInv(Apply(s, step), payload)
  {
    hide SysInv, RepInv, LeaseInv, Section, Complete, Abort, Conclude, MemoryInv, NothingNewReadable, CanInitialize;
    StepKeeps(s, step, payload);
    match step
    case Begin(call, md, req, started, now) =>
      if Admits(s.cache, md, req) {
        AdmittedMeansRunning(s, md, req);
        LookupKeepsMemory(s, call, md, req, Progress(Deadline(s.cache.waitTimeout, started), false, false, 0), now,
          payload);
      } else {
        RejectionKeepsMemory(s, call, md, req, Progress(Deadline(s.cache.waitTimeout, started), false, false, 0),
          payload);
      }
    case Resume(call, elapsed, now) =>
      WakeUpKeeps(s, call, elapsed);
      OnlyMemoryMatters(s, WakeUp(s, call, elapsed), payload);
      LookupKeepsMemory(WakeUp(s, call, elapsed), call, s.sleepers[call].md, s.sleepers[call].req,
                        Wake(s.cache, s.sleepers[call].progress, elapsed).progress, now, payload);
    case Write(id, bytes) =>
      WritersAreApart(s, id);
      WriteKeepsMemory(s, s.accesses[id].data, bytes, payload);
    case WriteElsewhere(pointer, bytes) => WriteKeepsMemory(s, pointer, bytes, payload);
    case Finish(id, succeeded, retention) =>
      FinishKeepsMemory(s, id, succeeded, retention, payload);
      OnlyMemoryMatters(Settle(s, Complete(s.cache, s.accesses[id], succeeded, retention).cache), Apply(s, step),
        payload);
    case Drop(id) =>
      LiveLeaseMeansRunning(s, id);
      AbortPublishesNothing(s.cache, s.accesses, id);
      NothingPublished(s, Abort(s.cache, s.accesses[id]), payload);
      OnlyMemoryMatters(Settle(s, Abort(s.cache, s.accesses[id])), Apply(s, step), payload);
    case SyncFailure(id) => OnlyMemoryMatters(s, Apply(s, step), payload);
    case Move(source, destination) => OnlyMemoryMatters(s, Apply(s, step), payload);
    case Reset => LifeCycleKeepsMemory(s, step, payload);
    case StartRelease => LifeCycleKeepsMemory(s, step, payload);
    case FinishRelease(freed) => LifeCycleKeepsMemory(s, step, payload);
    case Initialize(gpuIds, bytes, buffers, waitTimeout, policy) => LifeCycleKeepsMemory(s, step, payload);
  }

  lemma OnlyMemoryMatters(s: System, s': System, payload: Payload)
    requires MemoryInv(s, payload) && s'.cache.entries == s.cache.entries && s'.memory == s.memory
    ensures MemoryInv(s', payload)
  {
  }

  lemma WriteKeepsMemory(s: System, pointer: DevicePointer, bytes: Bytes, payload: Payload)
    requires MemoryInv(s, payload)
    requires forall i :: 0 <= i < |s.cache.entries| && s.cache.entries[i].state == Valid ==>
             s.cache.entries[i].buffer != pointer
    ensures MemoryInv(s.(memory := s.memory[pointer := bytes]), payload)
  {
  }

  lemma LifeCycleKeepsMemory(s: System, step: Step, payload: Payload)
    requires MemoryInv(s, payload)
    requires s.cache.initialized || s.sleepers.Keys != {} ==> IndicesInRange(s.cache)
    requires step.Reset? || step.StartRelease? || step.Initialize? ||
             (step.FinishRelease? && |step.freed| == |s.cache.entries|)
    ensures MemoryInv(Apply(s, step), payload)
  {
    hide CanReset, CanInitialize, NothingHeld;
  }

  lemma RejectionKeepsMemory(s: System, call: nat, md: FrameMetadata, req: GpuCacheRequest, p: Progress,
      payload: Payload)
    requires MemoryInv(s, payload)
    ensures MemoryInv(Conclude(s, call, md, req, Reject(s.cache), p, Returned(NO_ACCESS)), payload)
  {
    OnlyMemoryMatters(s, Conclude(s, call, md, req, Reject(s.cache), p, Returned(NO_ACCESS)), payload);
  }

  /** A hit lease reads the payload of its key, and no other live lease may write its buffer. */
  lemma HitsReadThePayload(s: System, payload: Payload, id: nat)
    requires SysInv(s) && MemoryInv(s, payload)
    requires Live(s, id) && s.accesses[id].status == CacheHit
    ensures HoldsPayload(s.memory, s.accesses[id].data, s.accesses[id].key, payload)
    ensures forall other :: Live(s, other) && s.accesses[other].Writable() ==>
            s.accesses[other].data != s.accesses[id].data
  {
    var a := s.accesses[id];
    assert LeaseOk(s.cache, a);
    forall other | Live(s, other) && s.accesses[other].Writable()
      ensures s.accesses[other].data != a.data
    {
      WritersAreApart(s, other);
    }
  }

  /** At most one fill lease exists per key, and its writer is alone on its buffer. */
  lemma OneFillPerKey(s: System, id: nat, other: nat)
    requires SysInv(s) && Live(s, id) && s.accesses[id].status == CacheFill
    requires Live(s, other) && s.accesses[other].status != TaskFallback && id != other
    ensures s.accesses[other].key != s.accesses[id].key && s.accesses[other].data != s.accesses[id].data
  {
    LiveLeaseMeansRunning(s, id);
    var a, b := s.accesses[id], s.accesses[other];
    assert LeaseOk(s.cache, a) && LeaseOk(s.cache, b);
    assert Placed(s.cache, a.entryIndex) && Placed(s.cache, b.entryIndex);
    HoldersOf(s.cache, s.accesses, a.entryIndex, id);
    assert b.Holds(b.entryIndex);
  }
}
