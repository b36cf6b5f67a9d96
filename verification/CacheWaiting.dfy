/**
 * Waiting: a request that sleeps without having been notified is still really blocked, whatever the
 * other callers did meanwhile, and a request only gives up for the reason it reports.
 */
module CacheWaiting {
  import opened Counting
  import opened GpuTypes
  import opened CacheSpec
  import opened CacheInvariant
  import opened CacheLeases
  import opened CacheSystem
  import opened CacheRuns

  /** The key is still being loaded, or it is absent and no entry is empty or idle; and the manager works. */
  ghost predicate ReallyBlocked(c: Cache, md: FrameMetadata) {
    && !c.failed
    && (if md.key in c.table then
          c.table[md.key] < |c.entries| && c.entries[c.table[md.key]].state == Loading
            && c.entries[c.table[md.key]].metadata == md
        else c.empties == [] && c.idle == [] && c.entries != [])
  }

  ghost predicate WaitInv(s: System) {
    forall id :: id in s.sleepers && !s.sleepers[id].notified ==> ReallyBlocked(s.cache, s.sleepers[id].md)
  }

  /** A section that wakes nobody leaves every blocked request blocked. */
  ghost predicate KeepsBlocked(c: Cache, c': Cache) {
    c'.notices == c.notices ==> forall md :: ReallyBlocked(c, md) ==> ReallyBlocked(c', md)
  }

  lemma BlockedIsObstructed(c: Cache, md: FrameMetadata)
    requires RepInv(c)
    ensures IndicesInRange(c)
    ensures ReallyBlocked(c, md) <==> Obstructed(Find(c, md))
  {
    FindingIsTrue(c, md);
  }

  lemma BlockedStays(c: Cache, blocked: FrameMetadata, md: FrameMetadata, req: GpuCacheRequest, p: Progress, now: int)
    requires RepInv(c) && ReallyBlocked(c, blocked)
    ensures IndicesInRange(c) && ReallyBlocked(Section(c, md, req, p, now).cache, blocked)
  {
    if blocked.key in c.table {
      assert Placed(c, c.table[blocked.key]);
    }
    hide RepInv, Find, Section, IndicesInRange, Without, Spoiled;
    FindingIsTrue(c, md);
    SectionEffect(c, md, req, p, now);
  }

  lemma SleepMeansObstructed(c: Cache, md: FrameMetadata, req: GpuCacheRequest, p: Progress, now: int)
    requires IndicesInRange(c)
    ensures Section(c, md, req, p, now).outcome == Sleeping ==> Obstructed(Find(c, md)) && MayWait(c, p.deadline, now)
  {
    hide Find;
  }

  lemma SectionKeepsBlocked(c: Cache, md: FrameMetadata, req: GpuCacheRequest, p: Progress, now: int)
    requires RepInv(c)
    ensures IndicesInRange(c) && KeepsBlocked(c, Section(c, md, req, p, now).cache)
    ensures Section(c, md, req, p, now).outcome == Sleeping ==> ReallyBlocked(Section(c, md, req, p, now).cache, md)
    ensures Section(c, md, req, p, now).cache.notices == c.notices
  {
    FindingIsTrue(c, md);
    BlockedIsObstructed(c, md);
    var f := Find(c, md);
    var c' := Section(c, md, req, p, now).cache;
    forall blocked | ReallyBlocked(c, blocked)
      ensures ReallyBlocked(c', blocked)
    {
      BlockedStays(c, blocked, md, req, p, now);
    }
    SectionEffect(c, md, req, p, now);
    SleepMeansObstructed(c, md, req, p, now);
    hide RepInv, Find, Section;
  }

  lemma CompletionKeepsBlocked(c: Cache, accesses: Accesses, id: nat, succeeded: bool, retention: CacheRetention)
    requires c.initialized && !c.releasing && RepInv(c) && LeaseInv(c, accesses) && id in accesses && accesses[id].live
    ensures KeepsBlocked(c, Complete(c, accesses[id], succeeded, retention).cache)
    ensures KeepsBlocked(c, Abort(c, accesses[id]))
  {
    hide RepInv, LeaseInv, Complete, Abort, EndReader, Publish, ResetEntry, KeepsBlocked;
    CompletionIsValid(c, accesses, id, succeeded, retention);
    AbortIsValid(c, accesses, id);
    var a := accesses[id];
    match a.status {
      case TaskFallback =>
        SameEntriesStayBlocked(c, Complete(c, a, succeeded, retention).cache);
        SameEntriesStayBlocked(c, Abort(c, a));
      case CacheHit =>
        ReaderEndKeepsBlocked(c, a.entryIndex, retention == Discard);
        ReaderEndKeepsBlocked(c, a.entryIndex, false);
      case CacheFill =>
        FillEndKeepsBlocked(c, a.entryIndex, succeeded, retention);
        FillEndKeepsBlocked(c, a.entryIndex, false, Keep);
    }
  }

  lemma SameEntriesStayBlocked(c: Cache, c': Cache)
    requires c'.entries == c.entries && c'.table == c.table && c'.empties == c.empties && c'.idle == c.idle
             && c'.failed == c.failed
    ensures KeepsBlocked(c, c')
  {
  }

  lemma ReaderEndKeepsBlocked(c: Cache, i: nat, discardNow: bool)
    requires i < |c.entries| && c.entries[i].state == Valid && c.entries[i].active > 0
    ensures KeepsBlocked(c, EndReader(c, i, discardNow))
  {
  }

  /** The end of a fill always notifies. */
  lemma FillEndKeepsBlocked(c: Cache, i: nat, succeeded: bool, retention: CacheRetention)
    requires i < |c.entries|
    ensures KeepsBlocked(c, CountFill(if succeeded then Publish(c, i, retention) else ResetEntry(c, i), succeeded))
  {
  }

  lemma SettleKeepsWaiting(s: System, c': Cache)
    requires WaitInv(s) && KeepsBlocked(s.cache, c')
    ensures WaitInv(Settle(s, c'))
  {
  }

  lemma LookupKeepsWaiting(s: System, call: nat, md: FrameMetadata, req: GpuCacheRequest, p: Progress, now: int)
    requires RepInv(s.cache) && IndicesInRange(s.cache) && WaitInv(s)
    ensures var Pass(c', p', out) := Section(s.cache, md, req, p, now);
            WaitInv(Conclude(s, call, md, req, c', p', out))
  {
    SectionKeepsBlocked(s.cache, md, req, p, now);
    hide Section, RepInv, IndicesInRange, ReallyBlocked;
  }

  lemma WakeUpKeepsWaiting(s: System, call: nat, elapsed: nat)
    requires SysInv(s) && WaitInv(s) && call in s.sleepers
    ensures WaitInv(WakeUp(s, call, elapsed))
  {
    WakeUpKeeps(s, call, elapsed);
  }

  lemma RejectionKeepsWaiting(s: System, call: nat, md: FrameMetadata, req: GpuCacheRequest, p: Progress)
    requires WaitInv(s)
    ensures WaitInv(Conclude(s, call, md, req, Reject(s.cache), p, Returned(NO_ACCESS)))
  {
  }

  lemma WaitingKeeps(s: System, step: Step, payload: Payload)
    requires SysInv(s) && WaitInv(s) && Enabled(s, step, payload)
    ensures s.cache.initialized || s.sleepers.Keys != {} ==> IndicesInRange(s.cache)
    ensures WaitInv(Apply(s, step))
  {
    hide SysInv, RepInv, LeaseInv, Section, Complete, Abort, Conclude, ReallyBlocked, WaitInv, KeepsBlocked,
         CanInitialize;
    StepKeeps(s, step, payload);
    match step
    case Begin(call, md, req, started, now) =>
      var p := Progress(Deadline(s.cache.waitTimeout, started), false, false, 0);
      if Admits(s.cache, md, req) {
        AdmittedMeansRunning(s, md, req);
        LookupKeepsWaiting(s, call, md, req, p, now);
      } else {
        RejectionKeepsWaiting(s, call, md, req, p);
      }
    case Resume(call, elapsed, now) =>
      WakeUpKeeps(s, call, elapsed);
      WakeUpKeepsWaiting(s, call, elapsed);
      LookupKeepsWaiting(WakeUp(s, call, elapsed), call, s.sleepers[call].md, s.sleepers[call].req,
                         Wake(s.cache, s.sleepers[call].progress, elapsed).progress, now);
    case Write(id, bytes) => OnlySleepersMatter(s, Apply(s, step));
    case WriteElsewhere(pointer, bytes) => OnlySleepersMatter(s, Apply(s, step));
    case Finish(id, succeeded, retention) =>
      LiveLeaseMeansRunning(s, id);
      CompletionKeepsBlocked(s.cache, s.accesses, id, succeeded, retention);
      SettleKeepsWaiting(s, Complete(s.cache, s.accesses[id], succeeded, retention).cache);
      OnlySleepersMatter(Settle(s, Complete(s.cache, s.accesses[id], succeeded, retention).cache), Apply(s, step));
    case Drop(id) =>
      LiveLeaseMeansRunning(s, id);
      CompletionKeepsBlocked(s.cache, s.accesses, id, false, Keep);
      SettleKeepsWaiting(s, Abort(s.cache, s.accesses[id]));
      OnlySleepersMatter(Settle(s, Abort(s.cache, s.accesses[id])), Apply(s, step));
    case SyncFailure(id) =>
      BroadcastKeepsBlocked(s.cache, NoteSyncFailure(s.cache));
      SettleKeepsWaiting(s, NoteSyncFailure(s.cache));
    case Move(source, destination) => OnlySleepersMatter(s, Apply(s, step));
    case Reset => LifeCycleKeepsWaiting(s, step);
    case StartRelease => LifeCycleKeepsWaiting(s, step);
    case FinishRelease(freed) => LifeCycleKeepsWaiting(s, step);
    case Initialize(gpuIds, bytes, buffers, waitTimeout, policy) => LifeCycleKeepsWaiting(s, step);
  }

  lemma OnlySleepersMatter(s: System, s': System)
    requires WaitInv(s) && s'.cache == s.cache && s'.sleepers == s.sleepers
    ensures WaitInv(s')
  {
  }

  lemma BroadcastKeepsBlocked(c: Cache, c': Cache)
    requires c'.notices > c.notices
    ensures KeepsBlocked(c, c')
  {
  }

  /** Life-cycle sections that change anything meet no sleeper. */
  lemma LifeCycleKeepsWaiting(s: System, step: Step)
    requires SysInv(s) && WaitInv(s)
    requires s.cache.initialized || s.sleepers.Keys != {} ==> IndicesInRange(s.cache)
    requires step.Reset? || step.StartRelease? || step.Initialize? ||
             (step.FinishRelease? && s.cache.releasing && |step.freed| == |s.cache.entries|)
    ensures WaitInv(Apply(s, step))
  {
    LifeCycleHasNoSleepers(s);
    hide SysInv, ReallyBlocked;
  }

  lemma LifeCycleHasNoSleepers(s: System)
    requires SysInv(s)
    ensures CanReset(s.cache) || !s.cache.initialized ==> s.sleepers == map[]
  {
    if s.sleepers != map[] {
      SleepersPinTheManager(s);
    }
  }

  /** No broadcast is missed: who sleeps un-notified would only go back to sleep (or time out) if woken. */
  lemma NoLostWakeup(s: System, id: nat)
    requires SysInv(s) && WaitInv(s) && id in s.sleepers && !s.sleepers[id].notified
    ensures s.cache.initialized && IndicesInRange(s.cache) && Obstructed(Find(s.cache, s.sleepers[id].md))
  {
    SleepersPinTheManager(s);
    BlockedIsObstructed(s.cache, s.sleepers[id].md);
  }

  // ---------------------------------------------------------------- why a request gives up

  /** The state of affairs that each fallback reason claims. */
  ghost predicate ReasonHolds(c: Cache, md: FrameMetadata, reason: CacheFallbackReason, deadline: int, now: int) {
    match reason
    case CapacityZero => c.entries == []
    case LoadingTimeout => ReallyBlocked(c, md) && md.key in c.table && c.waitTimeout != 0 && now >= deadline
    case LoadingNoWait => ReallyBlocked(c, md) && md.key in c.table && c.waitTimeout == 0
    case FullTimeout => ReallyBlocked(c, md) && md.key !in c.table && c.waitTimeout != 0 && now >= deadline
    case FullNoWait => ReallyBlocked(c, md) && md.key !in c.table && c.waitTimeout == 0
    case ReplicaUnavailable => false
  }

  /** The counter of this reason moved by one, and no other. */
  predicate OneMoreFor(r: CacheFallbackStatistics, r': CacheFallbackStatistics, reason: CacheFallbackReason) {
    && r'.capacityZero == r.capacityZero + One(reason == CapacityZero)
    && r'.loadingTimeout == r.loadingTimeout + One(reason == LoadingTimeout)
    && r'.loadingNoWait == r.loadingNoWait + One(reason == LoadingNoWait)
    && r'.fullTimeout == r.fullTimeout + One(reason == FullTimeout)
    && r'.fullNoWait == r.fullNoWait + One(reason == FullNoWait)
    && r'.replicaUnavailable == r.replicaUnavailable + One(reason == ReplicaUnavailable)
  }

  lemma CountIsOneMore(r: CacheFallbackStatistics, reason: CacheFallbackReason)
    ensures OneMoreFor(r, r.Count(reason), reason)
  {
  }

  /** The outcome of a pass moves its own counter only, states a true reason, and a sleep has time left. */
  ghost predicate Justified(c: Cache, md: FrameMetadata, deadline: int, now: int, c': Cache, out: Outcome)
    requires IndicesInRange(c)
  {
    match out
    case Sleeping =>
      && c.waitTimeout != 0 && c.entries != [] && now < deadline && ReallyBlocked(c, md)
      && c'.stats.hit == c.stats.hit && c'.stats.fill == c.stats.fill
      && c'.stats.fallback == c.stats.fallback && c'.stats.invalid == c.stats.invalid
    case Returned(a) =>
      && (a.live <==> a.status != Invalid)
      && c'.stats.hit == c.stats.hit + One(a.status == CacheHit)
      && c'.stats.fill == c.stats.fill + One(a.status == CacheFill)
      && c'.stats.fallback == c.stats.fallback + One(a.status == TaskFallback)
      && c'.stats.invalid == c.stats.invalid + One(a.status == Invalid)
      && (a.status == Invalid <==> c.failed || (md.key in c.table && c.entries[c.table[md.key]].metadata != md))
      && (a.status == TaskFallback ==>
            exists reason :: ReasonHolds(c, md, reason, deadline, now)
              && OneMoreFor(c.stats.fallbackReasons, c'.stats.fallbackReasons, reason))
      && (a.status != TaskFallback ==> c'.stats.fallbackReasons == c.stats.fallbackReasons)
  }

  lemma ObstructIsJustified(c: Cache, f: Finding, md: FrameMetadata, req: GpuCacheRequest, p: Progress, now: int)
    requires IndicesInRange(c) && ReallyBlocked(c, md) && Obstructed(f) && (f == StillLoading <==> md.key in c.table)
    requires !c.failed && (md.key in c.table ==> c.entries[c.table[md.key]].metadata == md)
    ensures var Pass(c', p', out) := Obstruct(c, f, md, req, p, now); Justified(c, md, p.deadline, now, c', out)
  {
    if !MayWait(c, p.deadline, now) && c.entries != [] {
      assert ReasonHolds(c, md, TimeoutReason(c, f), p.deadline, now);
    }
    hide ReallyBlocked, IndicesInRange, CacheFallbackStatistics.Count, OneMoreFor;
    CountIsOneMore(c.stats.fallbackReasons, TimeoutReason(c, f));
  }

  /**
   * What one pass of a valid request may do: exactly one outcome counter moves when it returns, a
   * fallback states a true reason, and it only sleeps before the deadline of a waiting manager.
   */
  lemma OutcomeIsJustified(c: Cache, md: FrameMetadata, req: GpuCacheRequest, p: Progress, now: int)
    requires RepInv(c)
    ensures IndicesInRange(c)
    ensures var Pass(c', p', out) := Section(c, md, req, p, now); Justified(c, md, p.deadline, now, c', out)
  {
    hide RepInv, IndicesInRange, Find, Spoiled, ReallyBlocked, Obstruct, CacheFallbackStatistics.Count, OneMoreFor;
    CountIsOneMore(c.stats.fallbackReasons, CapacityZero);
    FindingIsTrue(c, md);
    BlockedIsObstructed(c, md);
    match Find(c, md)
    case StillLoading => ObstructIsJustified(c, StillLoading, md, req, p, now);
    case Full => ObstructIsJustified(c, Full, md, req, p, now);
    case NoCapacity => assert ReasonHolds(c, md, CapacityZero, p.deadline, now);
    case _ =>
  }

  /**
   * One deadline per request: never before the start, never past the clock's range, never earlier than asked for if it
   * fits.
   */
  lemma DeadlineIsSound(waitTimeout: nat, started: int)
    requires 0 <= started <= CLOCK_MAX
    ensures started <= Deadline(waitTimeout, started) <= CLOCK_MAX
    ensures started + waitTimeout * NANOSECONDS_PER_MILLISECOND <= CLOCK_MAX ==>
              Deadline(waitTimeout, started) == started + waitTimeout * NANOSECONDS_PER_MILLISECOND
    ensures started + waitTimeout * NANOSECONDS_PER_MILLISECOND > CLOCK_MAX ==>
              CLOCK_MAX - NANOSECONDS_PER_MILLISECOND < Deadline(waitTimeout, started)
  {
  }
}
