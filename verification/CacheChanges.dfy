/**
 * What alone can change an entry of a running manager, step by step: what marks it for discard, what takes it
 * out of residency, what brings a key in, and what fails the manager.
 */
module CacheChanges {
  import opened GpuTypes
  import opened CacheSpec
  import opened CacheInvariant
  import opened CacheLeases
  import opened CacheSystem
  import opened CacheRuns
  import opened CacheLaws
  import opened CacheEndLaws
  import CT = CacheTheorems

  /**
   * A lookup lets a reader join a readable entry, or reserves an unread one for an absent key; a readable one only
   * without an empty one.
   */
  ghost predicate LookedUp(c: Cache, md: FrameMetadata, e: Entry, e': Entry) {
    || (e' == e.(active := e.active + 1) && e.state == Valid && e.metadata == md)
    || (e' == Entry(md, Loading, 1, false, e.buffer, false) && e.active == 0 && md.key !in c.table
        && (e.state == Empty || (e.state == Valid && c.empties == [])))
  }

  /** The end of a lease on this entry: a reader leaves it, or it is published or emptied. */
  ghost predicate LeaseEnded(a: Access, i: nat, e: Entry, e': Entry, succeeded: bool, retention: CacheRetention) {
    && a.entryIndex == i
    && match a.status
       case CacheHit =>
         && e.state == Valid && e.active > 0
         && if e.active == 1 && (e.discard || retention == Discard) then Blank(e', e.buffer)
            else e' == e.(active := e.active - 1, discard := e.discard || retention == Discard)
       case CacheFill =>
         && e.state == Loading
         && if succeeded && retention == Keep then e' == Entry(e.metadata, Valid, 0, false, e.buffer, true)
            else Blank(e', e.buffer)
       case _ => false
  }

  /** What a step can do to entry `i` of a running manager, which holds `e` before and `e'` after it. */
  ghost predicate Change(s: System, step: Step, i: nat, e: Entry, e': Entry) {
    match step
    case Begin(_, md, _, _, _) => LookedUp(s.cache, md, e, e')
    case Resume(call, _, _) => call in s.sleepers && LookedUp(s.cache, s.sleepers[call].md, e, e')
    case Finish(id, succeeded, retention) => Live(s, id) && LeaseEnded(s.accesses[id], i, e, e', succeeded, retention)
    case Drop(id) => Live(s, id) && LeaseEnded(s.accesses[id], i, e, e', false, Keep)
    case Reset => NobodyThere(s) && !s.cache.failed && Blank(e', e.buffer)
    case _ => false
  }

  lemma LookupTouchesOneEntry(c: Cache, md: FrameMetadata, req: GpuCacheRequest, p: Progress, now: int, j: nat)
    requires RepInv(c) && j < |c.entries|
    ensures IndicesInRange(c)
    ensures var c' := Section(c, md, req, p, now).cache;
            && |c'.entries| == |c.entries| && c'.failed == c.failed
            && (c'.entries[j] == c.entries[j] || LookedUp(c, md, c.entries[j], c'.entries[j]))
  {
    hide IndicesInRange, Section, OneMoreFallback, FirstObstacle, Rekeyed, Without;
    RepInRange(c);
    ListedMeansEntries(c);
    if md.key in c.table {
      assert Placed(c, c.table[md.key]);
    }
    NextVictimIsUnread(c);
    hide RepInv, IsNextVictim;
    if c.failed || (md.key in c.table && c.entries[c.table[md.key]].metadata != md) {
      RefusalLaw(c, md, req, p, now);
    } else if Resident(c, md) {
      HitLaw(c, md, req, p, now);
    } else if Stuck(c, md) {
      StuckLaw(c, md, req, p, now);
    } else if c.entries != [] {
      FillLaw(c, md, req, p, now);
    }
  }

  lemma NextVictimIsUnread(c: Cache)
    requires RepInv(c)
    ensures forall i: nat {:trigger IsNextVictim(c, i)} ::
              i < |c.entries| && IsNextVictim(c, i) && (c.empties != [] || c.idle != []) ==>
              c.entries[i].active == 0 && (c.entries[i].state == Empty ||
                (c.entries[i].state == Valid && c.empties == []))
  {
    forall i: nat | i < |c.entries| && IsNextVictim(c, i) && (c.empties != [] || c.idle != [])
      ensures c.entries[i].active == 0 && (c.entries[i].state == Empty ||
              (c.entries[i].state == Valid && c.empties == []))
    {
      assert Placed(c, i);
    }
  }

  lemma BeginChanges(s: System, call: nat, md: FrameMetadata, req: GpuCacheRequest, started: int, now: int, i: nat)
    requires SysInv(s) && s.cache.initialized && i < |s.cache.entries|
    ensures IndicesInRange(s.cache)
    ensures var c' := Lookup(s.cache, md, req, started, now).cache;
            && |c'.entries| == |s.cache.entries| && c'.failed == s.cache.failed
            && (c'.entries[i] == s.cache.entries[i] || LookedUp(s.cache, md, s.cache.entries[i], c'.entries[i]))
  {
    hide RepInv, IndicesInRange, Section, Lookup, LookedUp;
    LookupLaw(s.cache, md, req, started, now);
    LookupTouchesOneEntry(s.cache, md, req, Progress(Deadline(s.cache.waitTimeout, started), false, false, 0), now, i);
  }

  lemma ResumeChanges(s: System, call: nat, elapsed: nat, now: int, i: nat)
    requires SysInv(s) && s.cache.initialized && i < |s.cache.entries| && call in s.sleepers
    ensures IndicesInRange(WakeUp(s, call, elapsed).cache)
    ensures var sl := s.sleepers[call];
            var c' := Section(WakeUp(s, call, elapsed).cache, sl.md, sl.req,
              Wake(s.cache, sl.progress, elapsed).progress, now).cache;
            && |c'.entries| == |s.cache.entries| && c'.failed == s.cache.failed
            && (c'.entries[i] == s.cache.entries[i] || LookedUp(s.cache, sl.md, s.cache.entries[i], c'.entries[i]))
  {
    hide RepInv, IndicesInRange, Section;
    WakeUpKeeps(s, call, elapsed);
    LookupTouchesOneEntry(WakeUp(s, call, elapsed).cache, s.sleepers[call].md, s.sleepers[call].req,
                          Wake(s.cache, s.sleepers[call].progress, elapsed).progress, now, i);
  }

  lemma ReaderChange(c: Cache, c': Cache, a: Access, i: nat, succeeded: bool, retention: CacheRetention)
    requires RepInv(c) && a.status == CacheHit && a.entryIndex < |c.entries| && i < |c.entries|
    requires c.entries[a.entryIndex].state == Valid && c.entries[a.entryIndex].active > 0
    requires ReaderLeft(c, c', a.entryIndex, retention == Discard)
    ensures |c'.entries| == |c.entries| && c'.failed == c.failed
    ensures c'.entries[i] == c.entries[i] || LeaseEnded(a, i, c.entries[i], c'.entries[i], succeeded, retention)
  {
    assert Placed(c, a.entryIndex);
    hide RepInv;
  }

  lemma FillerChange(c: Cache, c': Cache, a: Access, i: nat, succeeded: bool, retention: CacheRetention)
    requires a.status == CacheFill && a.entryIndex < |c.entries| && i < |c.entries|
    requires c.entries[a.entryIndex].state == Loading
    requires FillerLeft(c, c', a.entryIndex, succeeded, succeeded && retention == Keep)
    ensures |c'.entries| == |c.entries| && c'.failed == c.failed
    ensures c'.entries[i] == c.entries[i] || LeaseEnded(a, i, c.entries[i], c'.entries[i], succeeded, retention)
  {
  }

  lemma EndChanges(c: Cache, accesses: Accesses, id: nat, succeeded: bool, retention: CacheRetention, i: nat)
    requires c.initialized && !c.releasing && RepInv(c) && LeaseInv(c, accesses) && id in accesses && accesses[id].live
    requires i < |c.entries|
    ensures var c' := Complete(c, accesses[id], succeeded, retention).cache;
            && |c'.entries| == |c.entries| && c'.failed == c.failed
            && (c'.entries[i] == c.entries[i] || LeaseEnded(accesses[id], i, c.entries[i], c'.entries[i], succeeded,
               retention))
    ensures var c' := Abort(c, accesses[id]);
            && |c'.entries| == |c.entries| && c'.failed == c.failed
            && (c'.entries[i] == c.entries[i] || LeaseEnded(accesses[id], i, c.entries[i], c'.entries[i], false, Keep))
  {
    assert LeaseOk(c, accesses[id]) && Placed(c, i);
    assert accesses[id].status == CacheHit ==> c.entries[accesses[id].entryIndex].active > 0 by {
      if accesses[id].status == CacheHit {
        HolderIsCounted(c, accesses, id);
      }
    }
    hide RepInv, LeaseInv, Complete, Abort, ReaderLeft, FillerLeft;
    var a := accesses[id];
    match a.status {
      case CacheHit =>
        ReaderEndLaw(c, accesses, id, succeeded, retention);
        ReaderChange(c, Complete(c, a, succeeded, retention).cache, a, i, succeeded, retention);
        ReaderChange(c, Abort(c, a), a, i, false, Keep);
      case CacheFill =>
        FillEndLaw(c, accesses, id, succeeded, retention);
        FillerChange(c, Complete(c, a, succeeded, retention).cache, a, i, succeeded, retention);
        FillerChange(c, Abort(c, a), a, i, false, Keep);
      case TaskFallback => FallbackEndLaw(c, accesses, id, succeeded, retention);
    }
  }

  /** Every step leaves an entry of a running manager alone or changes it in the way its kind allows. */
  lemma EntryChanges(s: System, step: Step, s': System, payload: Payload, i: nat)
    requires SysInv(s) && CT.Next(s, step, s', payload) && s.cache.initialized && i < |s.cache.entries|
    ensures |s'.cache.entries| == |s.cache.entries|
    ensures s'.cache.entries[i] == s.cache.entries[i] || Change(s, step, i, s.cache.entries[i], s'.cache.entries[i])
  {
    hide Section, Lookup, Complete, Abort, IndicesInRange, RepInv, LeaseInv, IdleStamps, FillStamps, Notified, CanReset,
         SysInv, LookedUp, LeaseEnded;
    match step
    case Begin(call, md, req, started, now) => BeginChanges(s, call, md, req, started, now, i);
    case Resume(call, elapsed, now) => ResumeChanges(s, call, elapsed, now, i);
    case Finish(id, succeeded, retention) =>
      LiveLeaseMeansRunning(s, id);
      EndChanges(s.cache, s.accesses, id, succeeded, retention, i);
    case Drop(id) =>
      LiveLeaseMeansRunning(s, id);
      EndChanges(s.cache, s.accesses, id, false, Keep, i);
    case Reset => ResetLaw(s);
    case FinishRelease(_) => NotReleasing(s);
    case _ =>
  }

  lemma NotReleasing(s: System)
    requires SysInv(s) && s.cache.initialized
    ensures !s.cache.releasing
  {
  }

  // ---------------------------------------------------------------- theorems

  /** The step completes a hit on entry `i` and asks for a discard. */
  ghost predicate AsksForDiscard(s: System, step: Step, i: nat) {
    && step.Finish? && step.retention == Discard && Live(s, step.id)
    && s.accesses[step.id].status == CacheHit && s.accesses[step.id].entryIndex == i
  }

  /** A pending discard was asked for by name: nothing else ever marks an entry. */
  lemma MarksComeFromDiscards(s: System, step: Step, s': System, payload: Payload, i: nat)
    requires SysInv(s) && CT.Next(s, step, s', payload) && s.cache.initialized
    requires i < |s.cache.entries| && i < |s'.cache.entries| && !s.cache.entries[i].discard
             && s'.cache.entries[i].discard
    ensures AsksForDiscard(s, step, i)
  {
    hide CT.Next, SysInv;
    EntryChanges(s, step, s', payload, i);
  }

  /** The end of the lease of the last reader of entry `i`. */
  ghost predicate EndsLastReader(s: System, id: nat, i: nat)
    requires i < |s.cache.entries|
  {
    Live(s, id) && s.accesses[id].status == CacheHit && s.accesses[id].entryIndex == i && s.cache.entries[i].active == 1
  }

  /** What may take a readable entry out of residency: an eviction, a discard that was asked for, a reset. */
  ghost predicate MayLeave(s: System, step: Step, i: nat)
    requires i < |s.cache.entries|
  {
    var e := s.cache.entries[i];
    match step
    case Begin(_, md, _, _, _) => s.cache.empties == [] && e.active == 0 && md.key !in s.cache.table
    case Resume(call, _, _) =>
      call in s.sleepers && s.cache.empties == [] && e.active == 0 && s.sleepers[call].md.key !in s.cache.table
    case Finish(id, _, retention) => EndsLastReader(s, id, i) && (e.discard || retention == Discard)
    case Drop(id) => EndsLastReader(s, id, i) && e.discard
    case Reset => NobodyThere(s) && !s.cache.failed
    case _ => false
  }

  lemma ResidentsLeaveForAReason(s: System, step: Step, s': System, payload: Payload, i: nat)
    requires SysInv(s) && CT.Next(s, step, s', payload) && s.cache.initialized
    requires i < |s.cache.entries| && s.cache.entries[i].state == Valid
    ensures |s'.cache.entries| == |s.cache.entries|
    ensures (s'.cache.entries[i].state == Valid && s'.cache.entries[i].metadata == s.cache.entries[i].metadata
             && s'.cache.entries[i].buffer == s.cache.entries[i].buffer)
            || MayLeave(s, step, i)
  {
    hide CT.Next, SysInv;
    EntryChanges(s, step, s', payload, i);
  }

  /**
   * A key becomes readable only by the successful, kept end of a fill of it, and a fill only starts by a lookup of it.
   */
  lemma ResidentsComeFromFills(s: System, step: Step, s': System, payload: Payload, i: nat)
    requires SysInv(s) && CT.Next(s, step, s', payload) && s.cache.initialized
    requires i < |s.cache.entries| && i < |s'.cache.entries|
    ensures s'.cache.entries[i].state == Valid && s.cache.entries[i].state != Valid ==>
              && step.Finish? && step.succeeded && step.retention == Keep && Live(s, step.id)
              && s.accesses[step.id].status == CacheFill && s.accesses[step.id].entryIndex == i
              && s'.cache.entries[i].metadata == s.cache.entries[i].metadata
    ensures s'.cache.entries[i].state == Loading && s.cache.entries[i].state != Loading ==>
              (step.Begin? && s'.cache.entries[i].metadata == step.md)
              || (step.Resume? && step.call in s.sleepers && s'.cache.entries[i].metadata == s.sleepers[step.call].md)
  {
    hide CT.Next, SysInv;
    EntryChanges(s, step, s', payload, i);
  }

  /**
   * A manager fails by a failed synchronization only, and recovers by the end of a release or an initialisation only.
   */
  lemma FailureHasACause(s: System, step: Step, s': System, payload: Payload)
    requires SysInv(s) && CT.Next(s, step, s', payload)
    ensures !s.cache.failed && s'.cache.failed ==> step.SyncFailure?
    ensures s.cache.failed && !s'.cache.failed ==> step.FinishRelease? || step.Initialize?
  {
    hide Section, Lookup, Complete, Abort, IndicesInRange, RepInv, LeaseInv, IdleStamps, FillStamps, Notified, CanReset,
         SysInv, CanInitialize;
    match step
    case Begin(call, md, req, started, now) => LookupKeepsFailure(s, md, req, started, now);
    case Resume(call, elapsed, now) => ResumeKeepsFailure(s, call, elapsed, now);
    case Finish(id, succeeded, retention) => EndKeepsFailure(s, id, succeeded, retention);
    case Drop(id) => EndKeepsFailure(s, id, false, Keep);
    case _ =>
  }

  lemma LookupKeepsFailure(s: System, md: FrameMetadata, req: GpuCacheRequest, started: int, now: int)
    requires SysInv(s)
    ensures s.cache.initialized ==> IndicesInRange(s.cache)
    ensures Lookup(s.cache, md, req, started, now).cache.failed == s.cache.failed
  {
    LookupLaw(s.cache, md, req, started, now);
    if !Unfit(s.cache, md, req) {
      SectionEffect(s.cache, md, req, Progress(Deadline(s.cache.waitTimeout, started), false, false, 0), now);
    }
    hide RepInv, IndicesInRange, Section, Lookup, Find;
  }

  lemma ResumeKeepsFailure(s: System, call: nat, elapsed: nat, now: int)
    requires SysInv(s) && call in s.sleepers
    ensures IndicesInRange(WakeUp(s, call, elapsed).cache)
    ensures var sl := s.sleepers[call];
            Section(WakeUp(s, call, elapsed).cache, sl.md, sl.req, Wake(s.cache, sl.progress, elapsed).progress,
              now).cache.failed
            == s.cache.failed
  {
    hide RepInv, IndicesInRange, Section, Find, SysInv;
    WakeUpKeeps(s, call, elapsed);
    var c1, sl := WakeUp(s, call, elapsed).cache, s.sleepers[call];
    RepInRange(c1);
    SectionEffect(c1, sl.md, sl.req, Wake(s.cache, sl.progress, elapsed).progress, now);
  }

  lemma EndKeepsFailure(s: System, id: nat, succeeded: bool, retention: CacheRetention)
    requires SysInv(s) && Live(s, id)
    ensures Complete(s.cache, s.accesses[id], succeeded, retention).cache.failed == s.cache.failed
    ensures Abort(s.cache, s.accesses[id]).failed == s.cache.failed
  {
    hide RepInv, LeaseInv, Complete, Abort, SysInv;
    LiveLeaseMeansRunning(s, id);
    if s.cache.entries != [] {
      EndChanges(s.cache, s.accesses, id, succeeded, retention, 0);
    } else {
      NoEntriesMeansFallback(s.cache, s.accesses, id);
      FallbackEndLaw(s.cache, s.accesses, id, succeeded, retention);
    }
  }

  lemma NoEntriesMeansFallback(c: Cache, accesses: Accesses, id: nat)
    requires c.entries == [] && LeaseInv(c, accesses) && id in accesses && accesses[id].live
    ensures accesses[id].status == TaskFallback
  {
    assert LeaseOk(c, accesses[id]);
  }

  // ---------------------------------------------------------------- over runs

  /** Every live lease can be ended by its holder: it is on a usable stream, of the manager's GPU and size. */
  lemma LeasesCanEnd(states: seq<System>, steps: seq<Step>, payload: Payload, k: nat, id: nat)
    requires CT.IsRun(states, steps, payload) && k < |states| && Live(states[k], id)
    ensures var c, a := states[k].cache, states[k].accesses[id];
            && a.stream != 0 && c.gpuId == Some(a.gpuId) && a.bytes == c.dataBytes && a.status != Invalid
            && c.initialized && !c.releasing
    ensures forall succeeded, retention ::
              Complete(states[k].cache, states[k].accesses[id], succeeded, retention).ok == succeeded
  {
    CT.RunsAreSafe(states, steps, payload, k);
    var s := states[k];
    LiveLeaseMeansRunning(s, id);
    assert LeaseOk(s.cache, s.accesses[id]);
    forall succeeded, retention
      ensures Complete(s.cache, s.accesses[id], succeeded, retention).ok == succeeded
    {
      CompletionIsValid(s.cache, s.accesses, id, succeeded, retention);
    }
    hide Complete, RepInv, LeaseInv;
  }
}
