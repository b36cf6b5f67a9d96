/**
 * The defensive branches of a lookup: an admitted request is refused only for a failed manager or for
 * metadata that differ from the resident ones, a missing replica is never met, and when metadata are a
 * function of the key no admitted request is ever refused by a healthy manager.
 */
module CacheDefences {
  import opened GpuTypes
  import opened CacheSpec
  import opened CacheInvariant
  import opened CacheLeases
  import opened CacheSystem
  import opened CacheRuns
  import opened CacheStores
  import opened CacheTheorems
  import opened CacheOrder

  /** The one frame description that belongs to each key. */
  type Layout = GpuDataKey -> FrameMetadata

  /** An admitted request is refused exactly for a failed manager or a metadata mismatch. */
  lemma InvalidMeansMismatch(c: Cache, md: FrameMetadata, req: GpuCacheRequest, p: Progress, now: int)
    requires RepInv(c)
    ensures IndicesInRange(c)
    ensures var out := Section(c, md, req, p, now).outcome;
            (out.Returned? && out.access.status == Invalid) <==>
            (c.failed || (md.key in c.table && c.entries[c.table[md.key]].metadata != md))
  {
    FindingIsTrue(c, md);
    hide RepInv, IndicesInRange, Find;
    match Find(c, md)
    case Refused =>
    case _ =>
  }

  ghost predicate Uniform(entries: seq<Entry>, layout: Layout) {
    forall i :: 0 <= i < |entries| && entries[i].state != Empty ==>
      entries[i].metadata == layout(entries[i].metadata.key)
  }

  ghost predicate Clean(c: Cache, layout: Layout) {
    Uniform(c.entries, layout) && c.stats.fallbackReasons.replicaUnavailable == 0
  }

  ghost predicate CleanInv(s: System, layout: Layout) {
    && Clean(s.cache, layout)
    && (forall id :: id in s.sleepers ==> s.sleepers[id].md == layout(s.sleepers[id].md.key))
  }

  /** The step looks up only frames that follow the layout. */
  predicate Follows(step: Step, layout: Layout) {
    step.Begin? ==> step.md == layout(step.md.key)
  }

  lemma ObstructIsClean(c: Cache, f: Finding, md: FrameMetadata, req: GpuCacheRequest, p: Progress, now: int,
      layout: Layout)
    requires Clean(c, layout)
    ensures Clean(Obstruct(c, f, md, req, p, now).cache, layout)
  {
    if MayWait(c, p.deadline, now) {
    } else {
    }
  }

  lemma SectionIsClean(c: Cache, md: FrameMetadata, req: GpuCacheRequest, p: Progress, now: int, layout: Layout)
    requires RepInv(c) && Clean(c, layout) && md == layout(md.key)
    ensures IndicesInRange(c) && Clean(Section(c, md, req, p, now).cache, layout)
  {
    hide RepInv, IndicesInRange, Find, Obstruct, Spoiled;
    FindingIsTrue(c, md);
    ObstructIsClean(c, StillLoading, md, req, p, now, layout);
    ObstructIsClean(c, Full, md, req, p, now, layout);
  }

  lemma CountingIsClean(c: Cache, layout: Layout)
    requires Clean(c, layout)
    ensures Clean(CountFill(c, true), layout) && Clean(CountFill(c, false), layout)
            && CountFill(c, false).entries == c.entries
    ensures forall n: nat :: Clean(c.(fallbacks := n), layout)
  {
  }

  lemma LeaseEndIsClean(c: Cache, a: Access, succeeded: bool, retention: CacheRetention, layout: Layout)
    requires Clean(c, layout)
    ensures Clean(Complete(c, a, succeeded, retention).cache, layout) && Clean(Abort(c, a), layout)
  {
    hide EndReader, Publish, ResetEntry, Uniform, Clean, CountFill;
    CountingIsClean(c, layout);
    if a.entryIndex < |c.entries| {
      EntryEndIsClean(c, a.entryIndex, retention == Discard, retention, layout);
      EntryEndIsClean(c, a.entryIndex, false, retention, layout);
      EntryEndIsClean(CountFill(c, false), a.entryIndex, false, retention, layout);
      CountingIsClean(ResetEntry(c, a.entryIndex), layout);
      if c.entries[a.entryIndex].state != Empty {
        CountingIsClean(Publish(c, a.entryIndex, retention), layout);
      }
    }
    match a.status {
      case TaskFallback =>
      case CacheHit =>
      case CacheFill =>
      case Invalid =>
    }
  }

  lemma UniformUpdate(entries: seq<Entry>, i: nat, e: Entry, layout: Layout)
    requires Uniform(entries, layout) && i < |entries|
    requires e.state == Empty || e.metadata == layout(e.metadata.key)
    ensures Uniform(entries[i := e], layout)
  {
  }

  lemma EntryEndIsClean(c: Cache, i: nat, discardNow: bool, retention: CacheRetention, layout: Layout)
    requires Clean(c, layout) && i < |c.entries|
    ensures Clean(ResetEntry(c, i), layout)
    ensures c.entries[i].active > 0 && c.entries[i].state != Empty ==> Clean(EndReader(c, i, discardNow), layout)
    ensures c.entries[i].state != Empty ==> Clean(Publish(c, i, retention), layout)
  {
    var e := c.entries[i];
    assert e.state != Empty ==> e.metadata == layout(e.metadata.key);
    hide Uniform, Without, ErasedKey;
    UniformUpdate(c.entries, i, c.entries[i].Cleared(), layout);
    if c.entries[i].state != Empty {
      var reader := OneReaderLess(c.entries[i], discardNow);
      var valid := c.entries[i].(state := Valid, active := 0, replicaValid := true);
      UniformUpdate(c.entries, i, reader, layout);
      UniformUpdate(c.entries, i, valid, layout);
      UniformUpdate(c.entries[i := reader], i, reader.Cleared(), layout);
      UniformUpdate(c.entries[i := valid], i, valid.Cleared(), layout);
    }
  }

  lemma LifeCycleIsClean(s: System, step: Step, layout: Layout)
    requires SysInv(s) && CleanInv(s, layout)
    requires step.Reset? || step.StartRelease? || step.Initialize? ||
             (step.FinishRelease? && |step.freed| == |s.cache.entries|)
    requires s.cache.initialized || s.sleepers.Keys != {} ==> IndicesInRange(s.cache)
    ensures CleanInv(Apply(s, step), layout)
  {
    hide SysInv, CanReset, CanInitialize, IndicesInRange;
    match step
    case Reset =>
    case StartRelease =>
    case FinishRelease(freed) =>
    case Initialize(_, _, _, _, _) =>
  }

  lemma ConcludeIsClean(s: System, call: nat, md: FrameMetadata, req: GpuCacheRequest, pass: Pass, layout: Layout)
    requires CleanInv(s, layout) && Clean(pass.cache, layout) && md == layout(md.key)
    ensures CleanInv(Conclude(s, call, md, req, pass.cache, pass.progress, pass.outcome), layout)
  {
    hide Clean, IdleStamps, FillStamps;
    match pass.outcome {
      case Returned(_) =>
      case Sleeping =>
    }
  }

  /** Every step that follows the layout keeps resident metadata uniform and never misses a replica. */
  lemma CleanKeeps(s: System, step: Step, payload: Payload, layout: Layout)
    requires SysInv(s) && CleanInv(s, layout) && Enabled(s, step, payload) && Follows(step, layout)
    ensures s.cache.initialized || s.sleepers.Keys != {} ==> IndicesInRange(s.cache)
    ensures CleanInv(Apply(s, step), layout)
  {
    hide SysInv, RepInv, LeaseInv, Section, Complete, Abort, Conclude, IndicesInRange, Uniform;
    StepKeeps(s, step, payload);
    match step
    case Begin(call, md, req, started, now) =>
      if Admits(s.cache, md, req) {
        AdmittedMeansRunning(s, md, req);
        SectionIsClean(s.cache, md, req, Progress(Deadline(s.cache.waitTimeout, started), false, false, 0), now,
          layout);
      }
      ConcludeIsClean(s, call, md, req, Lookup(s.cache, md, req, started, now), layout);
    case Resume(call, elapsed, now) =>
      WakeUpKeeps(s, call, elapsed);
      var s1, sl := WakeUp(s, call, elapsed), s.sleepers[call];
      RepInRange(s1.cache);
      var pass := Section(s1.cache, sl.md, sl.req, Wake(s.cache, sl.progress, elapsed).progress, now);
      SectionIsClean(s1.cache, sl.md, sl.req, Wake(s.cache, sl.progress, elapsed).progress, now, layout);
      ConcludeIsClean(s1, call, sl.md, sl.req, pass, layout);
    case Write(id, bytes) =>
    case WriteElsewhere(pointer, bytes) =>
    case Finish(id, succeeded, retention) => LeaseEndIsClean(s.cache, s.accesses[id], succeeded, retention, layout);
    case Drop(id) => LeaseEndIsClean(s.cache, s.accesses[id], false, Keep, layout);
    case SyncFailure(id) =>
    case Move(source, destination) =>
    case Reset => LifeCycleIsClean(s, step, layout);
    case StartRelease => LifeCycleIsClean(s, step, layout);
    case FinishRelease(freed) => LifeCycleIsClean(s, step, layout);
    case Initialize(_, _, _, _, _) => LifeCycleIsClean(s, step, layout);
  }

  lemma {:induction false} RunsAreClean(states: seq<System>, steps: seq<Step>, payload: Payload, layout: Layout, k: nat)
    requires IsRun(states, steps, payload) && k < |states|
    requires forall j :: 0 <= j < |steps| ==> Follows(steps[j], layout)
    ensures CleanInv(states[k], layout)
  {
    hide AllInv, CleanInv, Apply;
    if k == 0 {
      StartIsClean(states[0], layout);
    } else {
      RunsAreClean(states, steps, payload, layout, k - 1);
      RunsAreSafe(states, steps, payload, k - 1);
      AllIncludesSystem(states[k - 1], payload);
      assert Next(states[k - 1], steps[k - 1], states[k], payload);
      CleanKeeps(states[k - 1], steps[k - 1], payload, layout);
    }
  }

  lemma StartIsClean(s: System, layout: Layout)
    requires Start(s)
    ensures CleanInv(s, layout)
  {
  }

  lemma AllIncludesSystem(s: System, payload: Payload)
    requires AllInv(s, payload)
    ensures SysInv(s)
  {
  }

  /**
   * The defensive branches are dead: in any run whose lookups follow one layout, no fallback was ever due
   * to a missing replica, and a healthy manager refuses a request that follows the layout exactly when
   * its validation fails.
   */
  lemma DefencesAreDead(states: seq<System>, steps: seq<Step>, payload: Payload, layout: Layout, k: nat,
                        md: FrameMetadata, req: GpuCacheRequest, started: int, now: int)
    requires IsRun(states, steps, payload) && k < |states|
    requires forall j :: 0 <= j < |steps| ==> Follows(steps[j], layout)
    requires md == layout(md.key)
    ensures states[k].cache.stats.fallbackReasons.replicaUnavailable == 0
    ensures states[k].cache.initialized ==> IndicesInRange(states[k].cache)
    ensures var out := Lookup(states[k].cache, md, req, started, now).outcome;
            (out.Returned? && out.access.status == Invalid) <==> !Admits(states[k].cache, md, req)
  {
    var c := states[k].cache;
    RunsAreClean(states, steps, payload, layout, k);
    RunsAreSafe(states, steps, payload, k);
    AllIncludesSystem(states[k], payload);
    if c.initialized {
      RunningIsRep(states[k]);
      RepInRange(c);
    }
    if Admits(c, md, req) {
      InvalidMeansMismatch(c, md, req, Progress(Deadline(c.waitTimeout, started), false, false, 0), now);
      if md.key in c.table {
        assert Placed(c, c.table[md.key]);
      }
    }
    hide Section, RepInv;
  }
}
