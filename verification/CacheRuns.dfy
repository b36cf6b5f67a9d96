/**
 * Every step of the cache system keeps the representation invariant and the lease accounting.
 */
module CacheRuns {
  import opened GpuTypes
  import opened CacheSpec
  import opened CacheInvariant
  import opened CacheLeases
  import opened CacheSystem

  /** A request that passed validation still fits the manager it is waiting for. */
  ghost predicate RequestFits(c: Cache, md: FrameMetadata, req: GpuCacheRequest) {
    && md.bytes == c.dataBytes && c.gpuId == Some(req.gpuId) && req.stream != 0
    && req.d_fallback != NULL_POINTER && !IsBuffer(c, req.d_fallback)
  }

  ghost predicate SleeperOk(c: Cache, sl: Sleeper) {
    RequestFits(c, sl.md, sl.req) && sl.progress.blocked && sl.progress.waited
  }

  ghost predicate SysInv(s: System) {
    && CacheInv(s.cache)
    && LeaseInv(s.cache, s.accesses)
    && |s.sleepers| == s.cache.waiting
    && (forall id :: id in s.sleepers ==> SleeperOk(s.cache, s.sleepers[id]) && !Live(s, id))
  }

  lemma NotifiedKeys(sleepers: map<nat, Sleeper>, now: bool)
    ensures Notified(sleepers, now).Keys == sleepers.Keys && |Notified(sleepers, now)| == |sleepers|
  {
    assert |Notified(sleepers, now)| == |Notified(sleepers, now).Keys| && |sleepers| == |sleepers.Keys|;
  }

  /** The manager cannot be reset or released under a sleeping request. */
  lemma SleepersPinTheManager(s: System)
    requires SysInv(s) && s.sleepers != map[]
    ensures s.cache.initialized && !s.cache.releasing && !CanReset(s.cache)
  {
    var id :| id in s.sleepers;
    assert s.sleepers.Keys != {};
    assert |s.sleepers| == |s.sleepers.Keys|;
  }

  /** Settling on a new cache, when the leases and the waiting requests are accounted for. */
  lemma SettleKeeps(s: System, c': Cache, accesses': Accesses)
    requires CacheInv(c') && LeaseInv(c', accesses') && |s.sleepers| == c'.waiting
    requires forall id :: id in s.sleepers ==> SleeperOk(c', s.sleepers[id])
    requires forall id :: id in s.sleepers ==> Absent(accesses', id)
    ensures SysInv(Settle(s, c').(accesses := accesses'))
  {
    NotifiedKeys(s.sleepers, c'.notices != s.cache.notices);
  }

  /** A request keeps fitting while configuration and buffers stay. */
  lemma StillFits(c: Cache, c': Cache, md: FrameMetadata, req: GpuCacheRequest)
    requires RequestFits(c, md, req)
    requires c'.dataBytes == c.dataBytes && c'.gpuId == c.gpuId && |c'.entries| == |c.entries|
    requires forall i :: 0 <= i < |c.entries| ==> c'.entries[i].buffer == c.entries[i].buffer
    ensures RequestFits(c', md, req)
  {
    assert forall p :: IsBuffer(c', p) ==> IsBuffer(c, p);
  }

  ghost predicate SameShape(c: Cache, c': Cache) {
    && c'.initialized == c.initialized && c'.releasing == c.releasing
    && c'.dataBytes == c.dataBytes && c'.gpuId == c.gpuId && c'.policy == c.policy && c'.waitTimeout == c.waitTimeout
    && |c'.entries| == |c.entries|
    && (forall i :: 0 <= i < |c.entries| ==> c'.entries[i].buffer == c.entries[i].buffer)
  }

  /** A step that keeps the shape of the manager and the number of waiters keeps the invariant once the leases agree. */
  lemma ShapedStepKeeps(s: System, c': Cache, accesses': Accesses)
    requires SysInv(s) && s.cache.initialized && SameShape(s.cache, c') && RepInv(c') && c'.waiting == s.cache.waiting
    requires LeaseInv(c', accesses')
    requires forall id :: id in s.sleepers ==> Absent(accesses', id)
    ensures SysInv(Settle(s, c').(accesses := accesses'))
  {
    forall id | id in s.sleepers
      ensures SleeperOk(c', s.sleepers[id])
    {
      StillFits(s.cache, c', s.sleepers[id].md, s.sleepers[id].req);
    }
    SettleKeeps(s, c', accesses');
  }

  // ---------------------------------------------------------------- lookups

  lemma FallingAsleepKeeps(s: System, call: nat, md: FrameMetadata, req: GpuCacheRequest, c': Cache, p: Progress)
    requires SysInv(s) && s.cache.initialized && RequestFits(s.cache, md, req) && call !in s.sleepers && !Live(s, call)
    requires c' == s.cache.(stats := c'.stats, waiting := s.cache.waiting + 1) && p.blocked && p.waited
    ensures SysInv(Conclude(s, call, md, req, c', p, Sleeping))
  {
    var s' := Conclude(s, call, md, req, c', p, Sleeping);
    StatsDoNotMatter(s.cache, c');
    LeasesIgnoreBookkeeping(s.cache, c', s.accesses);
    NotifiedKeys(s.sleepers, false);
    assert s'.sleepers.Keys == s.sleepers.Keys + {call};
    assert |s'.sleepers| == |s'.sleepers.Keys| && |s.sleepers| == |s.sleepers.Keys|;
    forall id | id in s'.sleepers
      ensures SleeperOk(c', s'.sleepers[id])
    {
      if id != call {
        StillFits(s.cache, c', s.sleepers[id].md, s.sleepers[id].req);
      } else {
        StillFits(s.cache, c', md, req);
      }
    }
  }

  lemma ReturningKeeps(s: System, call: nat, md: FrameMetadata, req: GpuCacheRequest, c': Cache, p: Progress, a: Access)
    requires SysInv(s) && s.cache.initialized && call !in s.sleepers
    requires SameShape(s.cache, c') && RepInv(c') && c'.waiting == s.cache.waiting
    requires LeaseInv(c', s.accesses[call := a])
    ensures SysInv(Conclude(s, call, md, req, c', p, Returned(a)))
  {
    ShapedStepKeeps(s, c', s.accesses[call := a]);
  }

  lemma ServingKeeps(c: Cache, accesses: Accesses, call: nat, md: FrameMetadata, req: GpuCacheRequest, p: Progress,
      now: int)
    requires RepInv(c) && LeaseInv(c, accesses) && RequestFits(c, md, req) && Absent(accesses, call)
    requires IndicesInRange(c) && !Obstructed(Find(c, md)) && |c.entries| < NO_ENTRY
    ensures var Pass(c', p', out) := Section(c, md, req, p, now);
            && SameShape(c, c') && RepInv(c') && c'.waiting == c.waiting
            && out.Returned? && LeaseInv(c', accesses[call := out.access])
  {
    hide RepInv, LeaseInv, Find, IndicesInRange;
    FindingIsTrue(c, md);
    var Pass(c', p', out) := Section(c, md, req, p, now);
    match Find(c, md)
    case Refused =>
      StatsDoNotMatter(c, c');
      RejectionTakesNoLease(c, accesses, call);
    case Readable(i) =>
      HitKeeps(c, i);
      HitTakesLease(c, accesses, call, i, md, req);
    case FillableEmpty(i) =>
      FillEmptyKeeps(c, md);
      FillTakesLease(c, c', accesses, call, i, md, req);
    case FillableIdle(i) =>
      FillIdleKeeps(c, i, md);
      FillTakesLease(c, c', accesses, call, i, md, req);
    case NoCapacity =>
      StatsDoNotMatter(c, c');
      FallbackTakesLease(c, accesses, call, md, req, CapacityZero);
  }

  lemma SystemParts(s: System, call: nat)
    requires SysInv(s) && s.cache.initialized && !Live(s, call)
    ensures RepInv(s.cache) && LeaseInv(s.cache, s.accesses) && Absent(s.accesses, call) && |s.cache.entries| < NO_ENTRY
  {
  }

  lemma ObstructedSection(c: Cache, md: FrameMetadata, req: GpuCacheRequest, p: Progress, now: int)
    requires IndicesInRange(c) && Obstructed(Find(c, md))
    ensures Section(c, md, req, p, now) == Obstruct(c, Find(c, md), md, req, p, now)
  {
    hide IndicesInRange, Find, Obstruct;
  }

  /** One pass of the lookup loop, whatever it finds. */
  lemma SectionKeeps(s: System, call: nat, md: FrameMetadata, req: GpuCacheRequest, p: Progress, now: int)
    requires SysInv(s) && s.cache.initialized && RequestFits(s.cache, md, req) && call !in s.sleepers && !Live(s, call)
    ensures IndicesInRange(s.cache)
    ensures var Pass(c', p', out) := Section(s.cache, md, req, p, now);
            SameShape(s.cache, c') && SysInv(Conclude(s, call, md, req, c', p', out))
  {
    SystemParts(s, call);
    RepInRange(s.cache);
    hide SysInv, RepInv, LeaseInv, IndicesInRange, Find, Section, Obstruct, Obstructed, Conclude, SameShape, RequestFits,
         Absent, Live;
    var f := Find(s.cache, md);
    if Obstructed(f) {
      ObstructedSection(s.cache, md, req, p, now);
      ObstructKeeps(s, call, f, md, req, p, now);
    } else {
      var Pass(c', p', out) := Section(s.cache, md, req, p, now);
      ServingKeeps(s.cache, s.accesses, call, md, req, p, now);
      ReturningKeeps(s, call, md, req, c', p', out.access);
    }
  }

  lemma ObstructKeeps(s: System, call: nat, f: Finding, md: FrameMetadata, req: GpuCacheRequest, p: Progress, now: int)
    requires SysInv(s) && s.cache.initialized && RequestFits(s.cache, md, req) && call !in s.sleepers && !Live(s, call)
    ensures var Pass(c', p', out) := Obstruct(s.cache, f, md, req, p, now);
            SameShape(s.cache, c') && SysInv(Conclude(s, call, md, req, c', p', out))
  {
    var c := s.cache;
    var Pass(c', p', out) := Obstruct(c, f, md, req, p, now);
    if MayWait(c, p.deadline, now) {
      FallingAsleepKeeps(s, call, md, req, c', p');
    } else {
      var c1 := if p.blocked then c else CountFirstBlock(c, f);
      StatsDoNotMatter(c, c');
      LeasesIgnoreBookkeeping(c, c1, s.accesses);
      assert forall p :: IsBuffer(c1, p) ==> IsBuffer(c, p);
      FallbackTakesLease(c1, s.accesses, call, md, req, TimeoutReason(c, f));
      assert FallbackLease(c1, md, req) == FallbackLease(c, md, req);
      ReturningKeeps(s, call, md, req, c', p', out.access);
    }
  }

  lemma WakeUpKeeps(s: System, call: nat, elapsed: nat)
    requires SysInv(s) && call in s.sleepers
    ensures SysInv(WakeUp(s, call, elapsed)) && s.cache.initialized && RepInv(WakeUp(s, call, elapsed).cache)
    ensures WakeUp(s, call, elapsed).cache ==
            s.cache.(waiting := s.cache.waiting - 1, stats := WakeUp(s, call, elapsed).cache.stats)
    ensures RequestFits(WakeUp(s, call, elapsed).cache, s.sleepers[call].md, s.sleepers[call].req)
  {
    SleepersPinTheManager(s);
    var s' := WakeUp(s, call, elapsed);
    StatsDoNotMatter(s.cache, s'.cache);
    LeasesIgnoreBookkeeping(s.cache, s'.cache, s.accesses);
    assert |s.sleepers| == |s.sleepers.Keys| && |s'.sleepers| == |s'.sleepers.Keys|;
    assert s'.sleepers.Keys == s.sleepers.Keys - {call};
    forall id | id in s.sleepers
      ensures RequestFits(s'.cache, s.sleepers[id].md, s.sleepers[id].req)
    {
      StillFits(s.cache, s'.cache, s.sleepers[id].md, s.sleepers[id].req);
    }
  }

  lemma AdmittedMeansRunning(s: System, md: FrameMetadata, req: GpuCacheRequest)
    requires SysInv(s) && Admits(s.cache, md, req)
    ensures RepInv(s.cache) && IndicesInRange(s.cache)
  {
  }

  lemma BeginKeeps(s: System, call: nat, md: FrameMetadata, req: GpuCacheRequest, started: int, now: int)
    requires SysInv(s) && call !in s.sleepers && !Live(s, call) && !IsBuffer(s.cache, req.d_fallback)
    ensures s.cache.initialized ==> IndicesInRange(s.cache)
    ensures SysInv(Apply(s, Begin(call, md, req, started, now)))
  {
    if Admits(s.cache, md, req) {
      SectionKeeps(s, call, md, req, Progress(Deadline(s.cache.waitTimeout, started), false, false, 0), now);
    } else {
      var c' := Reject(s.cache);
      RejectionTakesNoLease(s.cache, s.accesses, call);
      if s.cache.initialized {
        StatsDoNotMatter(s.cache, c');
      }
      forall id | id in s.sleepers
        ensures SleeperOk(c', s.sleepers[id])
      {
        StillFits(s.cache, c', s.sleepers[id].md, s.sleepers[id].req);
      }
      SettleKeeps(s, c', s.accesses[call := NO_ACCESS]);
    }
  }

  lemma ResumeKeeps(s: System, call: nat, elapsed: nat, now: int)
    requires SysInv(s) && call in s.sleepers
    ensures IndicesInRange(s.cache) && SysInv(Apply(s, Resume(call, elapsed, now)))
  {
    var sl := s.sleepers[call];
    WakeUpKeeps(s, call, elapsed);
    SectionKeeps(WakeUp(s, call, elapsed), call, sl.md, sl.req, Wake(s.cache, sl.progress, elapsed).progress, now);
  }

  // ---------------------------------------------------------------- completions

  /**
   * Every defensive check of a completion passes for a live lease: the manager does exactly what the
   * status calls for and reports the caller's own success flag.
   */
  lemma CompletionIsValid(c: Cache, accesses: Accesses, id: nat, succeeded: bool, retention: CacheRetention)
    requires c.initialized && !c.releasing && RepInv(c) && LeaseInv(c, accesses) && id in accesses && accesses[id].live
    ensures var a := accesses[id];
            var Reply(c', ok) := Complete(c, a, succeeded, retention);
            && ok == succeeded
            && match a.status
               case CacheHit =>
                 a.entryIndex < |c.entries| && c.entries[a.entryIndex].state == Valid
                   && c.entries[a.entryIndex].active > 0
                 && c' == EndReader(c, a.entryIndex, retention == Discard)
               case CacheFill =>
                 a.entryIndex < |c.entries| && c.entries[a.entryIndex].state == Loading
                 && c' == CountFill(if succeeded then Publish(c, a.entryIndex, retention)
                    else ResetEntry(c, a.entryIndex), succeeded)
               case TaskFallback => c.fallbacks > 0 && c' == c.(fallbacks := c.fallbacks - 1)
               case Invalid => false
  {
    var a := accesses[id];
    assert LeaseOk(c, a);
    if a.status == TaskFallback {
      assert id in FallbackHolders(accesses);
    } else {
      assert Placed(c, a.entryIndex);
      HoldersOf(c, accesses, a.entryIndex, id);
    }
  }

  /** The same for the end of a lease by destruction or overwriting. */
  lemma AbortIsValid(c: Cache, accesses: Accesses, id: nat)
    requires RepInv(c) && LeaseInv(c, accesses) && id in accesses && accesses[id].live
    ensures var a := accesses[id];
            var c' := Abort(c, a);
            match a.status
            case CacheHit =>
              a.entryIndex < |c.entries| && c.entries[a.entryIndex].state == Valid && c.entries[a.entryIndex].active > 0
              && c' == EndReader(c, a.entryIndex, false)
            case CacheFill =>
              a.entryIndex < |c.entries| && c.entries[a.entryIndex].state == Loading
              && c' == CountFill(ResetEntry(c, a.entryIndex), false)
            case TaskFallback => c.fallbacks > 0 && c' == c.(fallbacks := c.fallbacks - 1)
            case Invalid => false
  {
    var a := accesses[id];
    assert LeaseOk(c, a);
    if a.status == TaskFallback {
      assert id in FallbackHolders(accesses);
    } else {
      assert Placed(c, a.entryIndex);
      HoldersOf(c, accesses, a.entryIndex, id);
    }
  }

  lemma ReaderEndKeeps(c: Cache, accesses: Accesses, id: nat, discardNow: bool)
    requires RepInv(c) && LeaseInv(c, accesses) && id in accesses && accesses[id].live && |c.entries| < NO_ENTRY
    requires accesses[id].status == CacheHit && accesses[id].entryIndex < |c.entries|
    requires c.entries[accesses[id].entryIndex].state == Valid && c.entries[accesses[id].entryIndex].active > 0
    ensures var c' := EndReader(c, accesses[id].entryIndex, discardNow);
            SameShape(c, c') && c'.waiting == c.waiting && RepInv(c') && LeaseInv(c', accesses[id := NO_ACCESS])
  {
    hide RepInv, LeaseInv;
    var i := accesses[id].entryIndex;
    EndReaderKeeps(c, i, discardNow);
    LeasesAfterTake(c, EndReader(c, i, discardNow), accesses, id, i);
  }

  /** What a section may change about entry `i` when it ends the only lease on it. */
  ghost predicate EndsLoading(c: Cache, c': Cache, i: nat) {
    && i < |c.entries| == |c'.entries| && c'.entries[i].active == 0
    && c'.entries == c.entries[i := c'.entries[i]] && c'.entries[i].buffer == c.entries[i].buffer
    && c' == c.(entries := c'.entries, table := c'.table, empties := c'.empties, idle := c'.idle, filled := c'.filled,
                notices := c'.notices, stats := c'.stats)
  }

  lemma PublishEndsLoading(c: Cache, i: nat, retention: CacheRetention)
    requires i < |c.entries|
    ensures EndsLoading(c, CountFill(Publish(c, i, retention), true), i)
    ensures EndsLoading(c, CountFill(ResetEntry(c, i), false), i)
  {
  }

  lemma FillEndKeeps(c: Cache, accesses: Accesses, id: nat, succeeded: bool, retention: CacheRetention)
    requires RepInv(c) && LeaseInv(c, accesses) && id in accesses && accesses[id].live && |c.entries| < NO_ENTRY
    requires accesses[id].status == CacheFill && accesses[id].entryIndex < |c.entries|
    requires c.entries[accesses[id].entryIndex].state == Loading
    ensures var i := accesses[id].entryIndex;
            var c' := CountFill(if succeeded then Publish(c, i, retention) else ResetEntry(c, i), succeeded);
            SameShape(c, c') && c'.waiting == c.waiting && RepInv(c') && LeaseInv(c', accesses[id := NO_ACCESS])
  {
    var i := accesses[id].entryIndex;
    assert c.entries[i].active == 1 by { assert Placed(c, i); }
    hide RepInv, LeaseInv, Publish, ResetEntry;
    var c1 := if succeeded then Publish(c, i, retention) else ResetEntry(c, i);
    var c' := CountFill(c1, succeeded);
    if succeeded {
      PublishKeeps(c, i, retention);
    } else {
      RollBackKeeps(c, i);
    }
    PublishEndsLoading(c, i, retention);
    StatsDoNotMatter(c1, c');
    LeasesAfterTake(c, c', accesses, id, i);
  }

  lemma LiveLeaseMeansRunning(s: System, id: nat)
    requires SysInv(s) && Live(s, id)
    ensures s.cache.initialized && !s.cache.releasing && RepInv(s.cache) && |s.cache.entries| < NO_ENTRY
    ensures LeaseInv(s.cache, s.accesses) && id !in s.sleepers
  {
    if !s.cache.initialized {
      QuietHasNoLeases(s.cache, s.accesses);
    }
  }

  lemma CompletionKeeps(c: Cache, accesses: Accesses, id: nat, succeeded: bool, retention: CacheRetention)
    requires c.initialized && !c.releasing && |c.entries| < NO_ENTRY
    requires RepInv(c) && LeaseInv(c, accesses) && id in accesses && accesses[id].live
    ensures var c' := Complete(c, accesses[id], succeeded, retention).cache;
            SameShape(c, c') && c'.waiting == c.waiting && RepInv(c') && LeaseInv(c', accesses[id := NO_ACCESS])
  {
    CompletionIsValid(c, accesses, id, succeeded, retention);
    hide RepInv, LeaseInv, Complete, EndReader, Publish, ResetEntry;
    var c' := Complete(c, accesses[id], succeeded, retention).cache;
    match accesses[id].status {
      case CacheHit => ReaderEndKeeps(c, accesses, id, retention == Discard);
      case CacheFill => FillEndKeeps(c, accesses, id, succeeded, retention);
      case TaskFallback =>
        StatsDoNotMatter(c, c');
        LeasesAfterFallback(c, c', accesses, id);
    }
  }

  lemma AbortKeeps(c: Cache, accesses: Accesses, id: nat)
    requires |c.entries| < NO_ENTRY
    requires RepInv(c) && LeaseInv(c, accesses) && id in accesses && accesses[id].live
    ensures var c' := Abort(c, accesses[id]);
            SameShape(c, c') && c'.waiting == c.waiting && RepInv(c') && LeaseInv(c', accesses[id := NO_ACCESS])
  {
    AbortIsValid(c, accesses, id);
    hide RepInv, LeaseInv, Abort, EndReader, Publish, ResetEntry;
    var c' := Abort(c, accesses[id]);
    match accesses[id].status {
      case CacheHit => ReaderEndKeeps(c, accesses, id, false);
      case CacheFill => FillEndKeeps(c, accesses, id, false, Keep);
      case TaskFallback =>
        StatsDoNotMatter(c, c');
        LeasesAfterFallback(c, c', accesses, id);
    }
  }

  lemma FinishKeeps(s: System, id: nat, succeeded: bool, retention: CacheRetention)
    requires SysInv(s) && Live(s, id)
    ensures s.cache.initialized && IndicesInRange(s.cache) && SysInv(Apply(s, Finish(id, succeeded, retention)))
  {
    LiveLeaseMeansRunning(s, id);
    RepInRange(s.cache);
    CompletionKeeps(s.cache, s.accesses, id, succeeded, retention);
    ShapedStepKeeps(s, Complete(s.cache, s.accesses[id], succeeded, retention).cache, s.accesses[id := NO_ACCESS]);
  }

  lemma DropKeeps(s: System, id: nat)
    requires SysInv(s) && Live(s, id)
    ensures s.cache.initialized && IndicesInRange(s.cache) && SysInv(Apply(s, Drop(id)))
  {
    LiveLeaseMeansRunning(s, id);
    RepInRange(s.cache);
    AbortKeeps(s.cache, s.accesses, id);
    ShapedStepKeeps(s, Abort(s.cache, s.accesses[id]), s.accesses[id := NO_ACCESS]);
  }

  lemma SyncFailureKeeps(s: System, id: nat)
    requires SysInv(s) && Live(s, id)
    ensures IndicesInRange(s.cache) && SysInv(Apply(s, SyncFailure(id)))
  {
    LiveLeaseMeansRunning(s, id);
    RepInRange(s.cache);
    var c' := NoteSyncFailure(s.cache);
    StatsDoNotMatter(s.cache, c');
    LeasesIgnoreBookkeeping(s.cache, c', s.accesses);
    ShapedStepKeeps(s, c', s.accesses);
    assert Settle(s, c').(accesses := s.accesses) == Settle(s, c');
  }

  lemma MoveKeeps(s: System, source: nat, destination: nat)
    requires SysInv(s) && Live(s, source) && !Live(s, destination) && destination !in s.sleepers
    ensures IndicesInRange(s.cache) && SysInv(Apply(s, Move(source, destination)))
  {
    LiveLeaseMeansRunning(s, source);
    RepInRange(s.cache);
    MoveKeepsLeases(s.cache, s.accesses, source, destination);
  }

  // ---------------------------------------------------------------- life cycle

  lemma NobodySleeps(s: System)
    requires SysInv(s) && s.cache.waiting == 0
    ensures s.sleepers == map[]
  {
    assert |s.sleepers| == |s.sleepers.Keys|;
    assert s.sleepers.Keys == {};
  }

  /** A life-cycle section on a manager that nobody uses. */
  lemma QuietStepKeeps(s: System, c': Cache)
    requires SysInv(s) && Quiet(s.cache) && CacheInv(c') && Quiet(c')
    ensures SysInv(Settle(s, c'))
  {
    QuietHasNoLeases(s.cache, s.accesses);
    NoLeasesInv(c', s.accesses);
    NobodySleeps(s);
    SettleKeeps(s, c', s.accesses);
    assert Settle(s, c').(accesses := s.accesses) == Settle(s, c');
  }

  lemma ResetStepKeeps(s: System)
    requires SysInv(s)
    ensures s.cache.initialized ==> IndicesInRange(s.cache)
    ensures s.sleepers.Keys != {} ==> s.cache.initialized
    ensures SysInv(Apply(s, Reset))
  {
    if s.sleepers.Keys != {} {
      SleepersPinTheManager(s);
    }
    var Reply(c', ok) := ResetCache(s.cache);
    if ok {
      ResetKeeps(s.cache);
      StatsDoNotMatter(ResetEntries(s.cache), c');
      QuietStepKeeps(s, c');
    }
  }

  lemma StartReleaseKeeps(s: System)
    requires SysInv(s) && BeginRelease(s.cache).ReleaseStarted?
    ensures SysInv(Settle(s, BeginRelease(s.cache).cache))
  {
    QuietStepKeeps(s, BeginRelease(s.cache).cache);
  }

  lemma FinishReleaseKeeps(s: System, freed: seq<bool>)
    requires SysInv(s) && s.cache.releasing && |freed| == |s.cache.entries|
    ensures SysInv(Settle(s, EndRelease(s.cache, freed)))
  {
    QuietStepKeeps(s, EndRelease(s.cache, freed));
  }

  lemma InitializeKeeps(s: System, gpuId: int, bytes: nat, buffers: seq<DevicePointer>, waitTimeout: nat,
      policy: CacheEvictionPolicy)
    requires SysInv(s) && Enabled(s, Initialize([gpuId], bytes, buffers, waitTimeout, policy), _ => [])
    requires CanInitialize(s.cache, [gpuId], bytes, waitTimeout)
    ensures SysInv(Settle(s, Initialized(s.cache, gpuId, bytes, buffers, waitTimeout, policy)))
  {
    var c' := Initialized(s.cache, gpuId, bytes, buffers, waitTimeout, policy);
    AllEmptyIsPlaced(c');
    QuietStepKeeps(s, c');
  }

  /** The invariants hold after every step of every caller, from every state in which they hold. */
  lemma StepKeeps(s: System, step: Step, payload: Payload)
    requires SysInv(s) && Enabled(s, step, payload)
    ensures s.cache.initialized || s.sleepers.Keys != {} ==> IndicesInRange(s.cache)
    ensures SysInv(Apply(s, step))
  {
    if s.sleepers.Keys != {} {
      SleepersPinTheManager(s);
    }
    if s.cache.initialized {
      RepInRange(s.cache);
    }
    match step
    case Begin(call, md, req, started, now) => BeginKeeps(s, call, md, req, started, now);
    case Resume(call, elapsed, now) => ResumeKeeps(s, call, elapsed, now);
    case Write(id, bytes) =>
    case WriteElsewhere(pointer, bytes) =>
    case Finish(id, succeeded, retention) => FinishKeeps(s, id, succeeded, retention);
    case Drop(id) => DropKeeps(s, id);
    case SyncFailure(id) => SyncFailureKeeps(s, id);
    case Move(source, destination) => MoveKeeps(s, source, destination);
    case Reset => ResetStepKeeps(s);
    case StartRelease =>
      if BeginRelease(s.cache).ReleaseStarted? {
        StartReleaseKeeps(s);
      }
    case FinishRelease(freed) => FinishReleaseKeeps(s, freed);
    case Initialize(gpuIds, bytes, buffers, waitTimeout, policy) =>
      if CanInitialize(s.cache, gpuIds, bytes, waitTimeout) {
        assert gpuIds == [gpuIds[0]];
        InitializeKeeps(s, gpuIds[0], bytes, buffers, waitTimeout, policy);
      }
  }

  lemma StartHolds(s: System)
    requires Start(s)
    ensures SysInv(s)
  {
    NoLeasesInv(s.cache, s.accesses);
  }
}
