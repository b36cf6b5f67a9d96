/**
 * The cache is transparent to the result pipeline: whatever its capacity, policy, retention and lookup
 * outcomes, every stage succeeds, every consumer check passes, and the counters add up.
 */
module PipelineTransparency {
  import opened GpuTypes
  import opened CacheSpec
  import opened CacheInvariant
  import opened CacheLeases
  import opened CacheCoherence
  import opened ResultTasks
  import opened PipelineSystem
  import CS = CacheSystem
  import CR = CacheRuns
  import CT = CacheTheorems
  import CD = CacheDefences
  import PS = PipelineSchedule
  import PR = PipelineRuns

  // ---------------------------------------------------------------- what one lookup or completion does

  /** How many lookups of stage `i` have been answered: one per frame whose lease it has had. */
  function Answered(s: PS.Schedule, i: nat): nat
    requires i < |s.stages|
  {
    match s.stages[i]
    case Taking(frame) => frame
    case Busy(frame, _, Entered) => frame
    case Busy(frame, _, Asleep(_, _)) => frame
    case Busy(frame, _, _) => frame + 1
    case Finished => s.frames
    case _ => 0
  }

  ghost predicate Healthy(cfg: Config, c: Cache) {
    && c.initialized && !c.releasing && !c.failed && c.dataBytes == cfg.bytes && c.gpuId == Some(cfg.gpuId)
    && c.stats.invalid == 0
    && !IsBuffer(c, cfg.producerBuffer) && !IsBuffer(c, cfg.consumerBuffer)
  }

  /** The cache system is in a reachable state and in good health. */
  ghost predicate CacheOk(cfg: Config, cs: CS.System) {
    CT.AllInv(cs, PayloadOf(cfg)) && CD.CleanInv(cs, LayoutOf(cfg)) && Healthy(cfg, cs.cache)
  }

  lemma SectionFacts(cfg: Config, c: Cache, frame: nat, i: nat, p: Progress, now: int)
    requires RepInv(c) && Healthy(cfg, c) && CD.Uniform(c.entries, LayoutOf(cfg)) && CallsCache(i)
    ensures IndicesInRange(c)
    ensures var md := MetadataOf(cfg, frame);
            var Pass(c', p', out) := Section(c, md, RequestOf(cfg, i), p, now);
            && c'.failed == c.failed && c'.stats.invalid == c.stats.invalid && p'.deadline == p.deadline
            && c'.stats.hit == c.stats.hit + (if out.Returned? && out.access.status == CacheHit then 1 else 0)
            && (forall k :: k in c'.table ==> k in c.table || k == md.key)
            && match out
               case Returned(a) =>
                 && a.live && a.status != Invalid && a.key == md.key && (md.key !in c.table ==> a.status != CacheHit)
                 && (a.status == TaskFallback ==> a.data == BufferOf(cfg, i)) && a.stream == StreamOf(cfg, i)
               case Sleeping => now < p.deadline && c'.table == c.table
  {
    var md := MetadataOf(cfg, frame);
    if md.key in c.table {
      assert Placed(c, c.table[md.key]);
    }
    hide RepInv, Find, IndicesInRange, IsBuffer, Spoiled, CacheStatistics.CountFirstBlock, CacheStatistics.CountWaiter,
         TimeoutReason;
    FindingIsTrue(c, md);
    match Find(c, md)
    case Refused => assert false;
    case Corrupt => assert false;
    case MissingReplica => assert false;
    case Readable(_) =>
    case FillableEmpty(_) =>
    case FillableIdle(_) =>
    case NoCapacity =>
    case StillLoading => ObstructFacts(c, StillLoading, md, RequestOf(cfg, i), p, now);
    case Full => ObstructFacts(c, Full, md, RequestOf(cfg, i), p, now);
  }

  lemma ObstructFacts(c: Cache, f: Finding, md: FrameMetadata, req: GpuCacheRequest, p: Progress, now: int)
    ensures var Pass(c', p', out) := Obstruct(c, f, md, req, p, now);
            && c'.failed == c.failed && c'.stats.invalid == c.stats.invalid && c'.stats.hit == c.stats.hit
            && c'.table == c.table
            && p'.deadline == p.deadline
            && match out
               case Returned(a) => a == FallbackLease(c, md, req)
               case Sleeping => now < p.deadline
  {
    if MayWait(c, p.deadline, now) {
    } else {
    }
  }

  lemma CompletionFacts(c: Cache, a: Access, succeeded: bool, retention: CacheRetention)
    ensures var c' := Complete(c, a, succeeded, retention).cache;
            && c'.failed == c.failed && c'.stats.invalid == c.stats.invalid && c'.stats.hit == c.stats.hit
            && (forall k :: k in c'.table ==> k in c.table)
  {
    hide Without, Matches;
    match a.status {
      case TaskFallback =>
      case CacheHit =>
      case CacheFill =>
      case Invalid =>
    }
  }

  // ---------------------------------------------------------------- cache steps of the stages

  /** Everybody but caller `i` keeps access object and sleep; a notification may arrive. */
  ghost predicate OthersUntouched(cs: CS.System, cs': CS.System, i: nat) {
    && (forall id :: id != i ==> (id in cs'.accesses <==> id in cs.accesses))
    && (forall id :: id != i && id in cs.accesses ==> cs'.accesses[id] == cs.accesses[id])
    && (forall id :: id != i ==> (id in cs'.sleepers <==> id in cs.sleepers))
    && (forall id :: id != i && id in cs.sleepers ==>
          && id in cs'.sleepers && cs'.sleepers[id].md == cs.sleepers[id].md
          && cs'.sleepers[id].req == cs.sleepers[id].req
          && cs'.sleepers[id].progress == cs.sleepers[id].progress)
  }

  /** Caller `i` sleeps in the lookup of `frame` until `deadline`. */
  ghost predicate SleepsOn(cfg: Config, cs: CS.System, i: nat, frame: nat, deadline: int) {
    && i in cs.sleepers && cs.sleepers[i].md == MetadataOf(cfg, frame) && cs.sleepers[i].req == RequestOf(cfg, i)
    && cs.sleepers[i].progress.deadline == deadline && !CS.Live(cs, i)
  }

  /** Caller `i` holds a lease for `frame` on its own stream; a fallback lease is its own buffer. */
  ghost predicate LeasesOn(cfg: Config, cs: CS.System, i: nat, frame: nat) {
    && i !in cs.sleepers && CS.Live(cs, i) && cs.accesses[i].key == KeyOf(frame) && cs.accesses[i].status != Invalid
    && (cs.accesses[i].status == TaskFallback ==> cs.accesses[i].data == BufferOf(cfg, i))
    && cs.accesses[i].stream == StreamOf(cfg, i)
  }

  /** The effect of a pass of caller `i` for `frame`; `fresh` is whether the key was absent. */
  ghost predicate PassDone(cfg: Config, cs: CS.System, cs': CS.System, i: nat, frame: nat, now: int) {
    && OthersUntouched(cs, cs', i) && cs'.memory == cs.memory
    && (forall k :: k in cs'.cache.table ==> k in cs.cache.table || k == KeyOf(frame))
    && if i in cs'.sleepers then
         && SleepsOn(cfg, cs', i, frame, cs'.sleepers[i].progress.deadline) && now < cs'.sleepers[i].progress.deadline
         && cs'.answered == cs.answered && cs'.cache.stats.hit == cs.cache.stats.hit
         && cs'.cache.table == cs.cache.table
       else
         && LeasesOn(cfg, cs', i, frame) && cs'.answered == cs.answered + 1
         && (KeyOf(frame) !in cs.cache.table ==> cs'.accesses[i].status != CacheHit)
         && cs'.cache.stats.hit == cs.cache.stats.hit + (if cs'.accesses[i].status == CacheHit then 1 else 0)
  }

  lemma ConcludeReturned(cs: CS.System, i: nat, md: FrameMetadata, req: GpuCacheRequest, c': Cache, p: Progress,
      a: Access)
    requires i !in cs.sleepers
    ensures var cs' := CS.Conclude(cs, i, md, req, c', p, Returned(a));
            && OthersUntouched(cs, cs', i) && cs'.memory == cs.memory && cs'.cache == c'
            && cs'.answered == cs.answered + 1
            && i !in cs'.sleepers && i in cs'.accesses && cs'.accesses[i] == a
  {
    hide CS.IdleStamps, CS.FillStamps;
  }

  lemma ConcludeSleeping(cs: CS.System, i: nat, md: FrameMetadata, req: GpuCacheRequest, c': Cache, p: Progress)
    ensures var cs' := CS.Conclude(cs, i, md, req, c', p, Sleeping);
            && OthersUntouched(cs, cs', i) && cs'.memory == cs.memory && cs'.cache == c' && cs'.answered == cs.answered
            && cs'.accesses == cs.accesses
            && i in cs'.sleepers && cs'.sleepers[i].md == md && cs'.sleepers[i].req == req
            && cs'.sleepers[i].progress == p
  {
    hide CS.IdleStamps, CS.FillStamps;
  }

  lemma ConcludeFacts(cfg: Config, cs: CS.System, i: nat, frame: nat, p: Progress, now: int)
    requires RepInv(cs.cache) && Healthy(cfg, cs.cache) && CD.Uniform(cs.cache.entries, LayoutOf(cfg)) && CallsCache(i)
    requires i !in cs.sleepers && !CS.Live(cs, i)
    ensures IndicesInRange(cs.cache)
    ensures var md := MetadataOf(cfg, frame);
            var Pass(c', p', out) := Section(cs.cache, md, RequestOf(cfg, i), p, now);
            var cs' := CS.Conclude(cs, i, md, RequestOf(cfg, i), c', p', out);
            && PassDone(cfg, cs, cs', i, frame, now) && cs'.cache == c'
            && (i in cs'.sleepers ==> cs'.sleepers[i].progress.deadline == p.deadline)
            && c'.failed == cs.cache.failed && c'.stats.invalid == cs.cache.stats.invalid
  {
    SectionFacts(cfg, cs.cache, frame, i, p, now);
    var md, req := MetadataOf(cfg, frame), RequestOf(cfg, i);
    assert md.key == KeyOf(frame);
    var pass := Section(cs.cache, md, req, p, now);
    hide RepInv, IndicesInRange, Section, Healthy, CS.Conclude, CD.Uniform, MetadataOf, RequestOf, OthersUntouched;
    match pass.outcome {
      case Returned(a) => ConcludeReturned(cs, i, md, req, pass.cache, pass.progress, a);
      case Sleeping => ConcludeSleeping(cs, i, md, req, pass.cache, pass.progress);
    }
  }

  lemma Facts(cfg: Config, cs: CS.System)
    requires CacheOk(cfg, cs)
    ensures CR.SysInv(cs) && MemoryInv(cs, PayloadOf(cfg)) && Healthy(cfg, cs.cache) && CD.CleanInv(cs, LayoutOf(cfg))
    ensures RepInv(cs.cache) && IndicesInRange(cs.cache) && CD.Uniform(cs.cache.entries, LayoutOf(cfg))
    ensures CT.AllInv(cs, PayloadOf(cfg))
  {
  }

  lemma StaysHealthy(cfg: Config, c: Cache, c': Cache)
    requires Healthy(cfg, c) && CR.SameShape(c, c') && c'.failed == c.failed && c'.stats.invalid == c.stats.invalid
    ensures Healthy(cfg, c')
  {
    forall pointer | IsBuffer(c', pointer)
      ensures IsBuffer(c, pointer)
    {
      var j :| 0 <= j < |c'.entries| && c'.entries[j].buffer == pointer;
      assert c.entries[j].buffer == pointer;
    }
  }

  lemma RequestIsFit(cfg: Config, c: Cache, frame: nat, i: nat)
    requires ConfigOk(cfg) && Healthy(cfg, c) && CallsCache(i)
    ensures CR.RequestFits(c, MetadataOf(cfg, frame), RequestOf(cfg, i))
            && Admits(c, MetadataOf(cfg, frame), RequestOf(cfg, i))
    ensures MetadataOf(cfg, frame) == LayoutOf(cfg)(KeyOf(frame))
  {
  }

  /** One enabled step of the cache system keeps all its invariants. */
  lemma CacheStepKeeps(cfg: Config, cs: CS.System, step: CS.Step)
    requires CacheOk(cfg, cs) && CS.Enabled(cs, step, PayloadOf(cfg)) && CD.Follows(step, LayoutOf(cfg))
    ensures IndicesInRange(cs.cache)
    ensures CT.AllInv(CS.Apply(cs, step), PayloadOf(cfg)) && CD.CleanInv(CS.Apply(cs, step), LayoutOf(cfg))
  {
    Facts(cfg, cs);
    hide CT.AllInv, CD.CleanInv, CS.Enabled, IndicesInRange, RepInv, CR.SysInv;
    CT.AllKeep(cs, step, CS.Apply(cs, step), PayloadOf(cfg));
    CD.CleanKeeps(cs, step, PayloadOf(cfg), LayoutOf(cfg));
  }

  lemma BeginFacts(cfg: Config, cs: CS.System, i: nat, frame: nat, started: int, now: int)
    requires ConfigOk(cfg) && CacheOk(cfg, cs) && CallsCache(i) && i !in cs.sleepers && !CS.Live(cs, i)
    ensures IndicesInRange(cs.cache)
    ensures var cs' := CS.Apply(cs, CS.Begin(i, MetadataOf(cfg, frame), RequestOf(cfg, i), started, now));
            CacheOk(cfg, cs') && PassDone(cfg, cs, cs', i, frame, now)
  {
    Facts(cfg, cs);
    RequestIsFit(cfg, cs.cache, frame, i);
    var md, req := MetadataOf(cfg, frame), RequestOf(cfg, i);
    var p := Progress(Deadline(cs.cache.waitTimeout, started), false, false, 0);
    ConcludeFacts(cfg, cs, i, frame, p, now);
    CR.SectionKeeps(cs, i, md, req, p, now);
    var c' := Section(cs.cache, md, req, p, now).cache;
    StaysHealthy(cfg, cs.cache, c');
    assert CS.Enabled(cs, CS.Begin(i, md, req, started, now), PayloadOf(cfg));
    CacheStepKeeps(cfg, cs, CS.Begin(i, md, req, started, now));
    hide CT.AllInv, CD.CleanInv, Healthy, RepInv, IndicesInRange, CR.SysInv, Section, PassDone, CS.Conclude, Admits,
         MetadataOf, RequestOf;
  }

  lemma WakeUpFacts(cfg: Config, cs: CS.System, i: nat, elapsed: nat)
    requires CacheOk(cfg, cs) && i in cs.sleepers
    ensures var cs1 := CS.WakeUp(cs, i, elapsed);
            && CR.SysInv(cs1) && RepInv(cs1.cache) && Healthy(cfg, cs1.cache)
            && CD.Uniform(cs1.cache.entries, LayoutOf(cfg))
            && i !in cs1.sleepers && OthersUntouched(cs, cs1, i) && cs1.accesses == cs.accesses
            && cs1.memory == cs.memory
            && cs1.cache.table == cs.cache.table && cs1.cache.stats.hit == cs.cache.stats.hit
            && cs1.answered == cs.answered
            && !CS.Live(cs1, i)
  {
    hide CacheOk, Healthy, CT.AllInv, CR.SysInv, RepInv, CD.Uniform, CD.CleanInv, IndicesInRange, MemoryInv;
    Facts(cfg, cs);
    SleeperHasNoLease(cs, i);
    CR.WakeUpKeeps(cs, i, elapsed);
    StaysHealthy(cfg, cs.cache, CS.WakeUp(cs, i, elapsed).cache);
  }

  lemma SleeperHasNoLease(cs: CS.System, i: nat)
    requires CR.SysInv(cs) && i in cs.sleepers
    ensures !CS.Live(cs, i)
  {
  }

  /** Waking up first makes no difference to what the pass does. */
  lemma PassAfterWaking(cfg: Config, cs: CS.System, cs1: CS.System, cs': CS.System, i: nat, frame: nat, now: int)
    requires OthersUntouched(cs, cs1, i) && cs1.accesses == cs.accesses && cs1.memory == cs.memory
    requires cs1.cache.table == cs.cache.table && cs1.cache.stats.hit == cs.cache.stats.hit
             && cs1.answered == cs.answered
    requires PassDone(cfg, cs1, cs', i, frame, now)
    ensures PassDone(cfg, cs, cs', i, frame, now)
  {
    hide SleepsOn, LeasesOn;
  }

  lemma ResumeIsAPass(cfg: Config, cs: CS.System, i: nat, frame: nat, deadline: int, elapsed: nat, now: int)
    requires ConfigOk(cfg) && CacheOk(cfg, cs) && CallsCache(i) && SleepsOn(cfg, cs, i, frame, deadline)
    ensures IndicesInRange(cs.cache)
    ensures var cs1, cs' := CS.WakeUp(cs, i, elapsed), CS.Apply(cs, CS.Resume(i, elapsed, now));
            && Healthy(cfg, cs'.cache) && PassDone(cfg, cs1, cs', i, frame, now)
            && (i in cs'.sleepers ==> cs'.sleepers[i].progress.deadline == deadline)
  {
    hide CacheOk, Healthy, RepInv, IndicesInRange, CR.SysInv, Section, CS.Conclude, Admits, PassDone, OthersUntouched,
         CS.WakeUp, MetadataOf, RequestOf, CR.RequestFits;
    Facts(cfg, cs);
    WakeUpFacts(cfg, cs, i, elapsed);
    var cs1, sl := CS.WakeUp(cs, i, elapsed), cs.sleepers[i];
    var p := Wake(cs.cache, sl.progress, elapsed).progress;
    RequestIsFit(cfg, cs1.cache, frame, i);
    ConcludeFacts(cfg, cs1, i, frame, p, now);
    CR.SectionKeeps(cs1, i, sl.md, sl.req, p, now);
    HealthIsRunning(cfg, cs1.cache);
    StaysHealthy(cfg, cs1.cache, Section(cs1.cache, sl.md, sl.req, p, now).cache);
  }

  lemma HealthIsRunning(cfg: Config, c: Cache)
    requires Healthy(cfg, c)
    ensures c.initialized
  {
  }

  lemma ResumeFacts(cfg: Config, cs: CS.System, i: nat, frame: nat, deadline: int, elapsed: nat, now: int)
    requires ConfigOk(cfg) && CacheOk(cfg, cs) && CallsCache(i) && SleepsOn(cfg, cs, i, frame, deadline)
    ensures IndicesInRange(cs.cache)
    ensures var cs' := CS.Apply(cs, CS.Resume(i, elapsed, now));
            && CacheOk(cfg, cs') && PassDone(cfg, cs, cs', i, frame, now)
            && (i in cs'.sleepers ==> cs'.sleepers[i].progress.deadline == deadline)
  {
    ResumeIsAPass(cfg, cs, i, frame, deadline, elapsed, now);
    var cs1, cs' := CS.WakeUp(cs, i, elapsed), CS.Apply(cs, CS.Resume(i, elapsed, now));
    hide CT.AllInv, CD.CleanInv, Healthy, IndicesInRange, CS.Apply, CS.WakeUp, PassDone, OthersUntouched, RepInv;
    WakeUpFacts(cfg, cs, i, elapsed);
    PassAfterWaking(cfg, cs, cs1, cs', i, frame, now);
    CacheStepKeeps(cfg, cs, CS.Resume(i, elapsed, now));
  }

  // ---------------------------------------------------------------- writing and completing

  /** Two live leases never share memory if one of them is written through, private buffers being apart. */
  lemma LeasesAreApart(cfg: Config, cs: CS.System, i: nat, j: nat, frame: nat, other: nat)
    requires ConfigOk(cfg) && CacheOk(cfg, cs) && CallsCache(i) && CallsCache(j) && i != j
    requires LeasesOn(cfg, cs, i, frame) && LeasesOn(cfg, cs, j, other) && cs.accesses[i].Writable()
    ensures cs.accesses[i].data != cs.accesses[j].data
  {
    Facts(cfg, cs);
    var a, b := cs.accesses[i], cs.accesses[j];
    assert LeaseOk(cs.cache, a) && LeaseOk(cs.cache, b);
    if b.status == CacheHit {
      HitsReadThePayload(cs, PayloadOf(cfg), j);
    } else if a.status == CacheFill && b.status == CacheFill {
      OneFillPerKey(cs, i, j);
    }
  }

  lemma WriteFacts(cfg: Config, cs: CS.System, i: nat, frame: nat, bytes: Bytes)
    requires CacheOk(cfg, cs) && LeasesOn(cfg, cs, i, frame) && cs.accesses[i].Writable()
    ensures IndicesInRange(cs.cache)
    ensures var cs' := CS.Apply(cs, CS.Write(i, bytes));
            CacheOk(cfg, cs') && cs' == cs.(memory := cs.memory[cs.accesses[i].data := bytes])
  {
    Facts(cfg, cs);
    CacheStepKeeps(cfg, cs, CS.Write(i, bytes));
    hide CT.AllInv, CD.CleanInv, Healthy, RepInv, IndicesInRange, CR.SysInv;
  }

  /** A completion succeeds, and its caller is left without a lease. */
  ghost predicate LeaseEnded(cs: CS.System, cs': CS.System, i: nat) {
    && OthersUntouched(cs, cs', i) && cs'.memory == cs.memory && cs'.answered == cs.answered
    && cs'.cache.stats.hit == cs.cache.stats.hit
    && i in cs.accesses && cs'.accesses == cs.accesses[i := NO_ACCESS] && i !in cs'.sleepers
    && (forall k :: k in cs'.cache.table ==> k in cs.cache.table)
  }

  lemma PayloadOfKey(cfg: Config, cs: CS.System, i: nat, frame: nat)
    requires LeasesOn(cfg, cs, i, frame) && HoldsPayload(cs.memory, cs.accesses[i].data, KeyOf(frame), PayloadOf(cfg))
    ensures cs.accesses[i].data in cs.memory && cs.memory[cs.accesses[i].data] == PayloadOf(cfg)(cs.accesses[i].key)
  {
  }

  lemma FinishFacts(cfg: Config, cs: CS.System, i: nat, frame: nat, retention: CacheRetention)
    requires CacheOk(cfg, cs) && LeasesOn(cfg, cs, i, frame)
    requires HoldsPayload(cs.memory, cs.accesses[i].data, KeyOf(frame), PayloadOf(cfg))
    ensures IndicesInRange(cs.cache)
    ensures var cs' := CS.Apply(cs, CS.Finish(i, true, retention));
            && CacheOk(cfg, cs') && LeaseEnded(cs, cs', i)
            && Complete(cs.cache, cs.accesses[i], true, retention).ok
  {
    hide CT.AllInv, CD.CleanInv, Healthy, RepInv, IndicesInRange, CR.SysInv, Complete, LeaseInv, CS.IdleStamps,
         CS.FillStamps, CR.SameShape, HoldsPayload, EndReader, Publish, ResetEntry, CountFill;
    Facts(cfg, cs);
    CR.LiveLeaseMeansRunning(cs, i);
    CR.CompletionIsValid(cs.cache, cs.accesses, i, true, retention);
    CR.CompletionKeeps(cs.cache, cs.accesses, i, true, retention);
    CompletionFacts(cs.cache, cs.accesses[i], true, retention);
    StaysHealthy(cfg, cs.cache, Complete(cs.cache, cs.accesses[i], true, retention).cache);
    PayloadOfKey(cfg, cs, i, frame);
    CacheStepKeeps(cfg, cs, CS.Finish(i, true, retention));
  }

  // ---------------------------------------------------------------- the invariant of the pipeline

  ghost predicate StageCall(cfg: Config, s: Pipeline, i: nat)
    requires i < |s.schedule.stages|
  {
    match s.schedule.stages[i]
    case Busy(frame, _, Asleep(_, deadline)) => SleepsOn(cfg, s.cache, i, frame, deadline)
    case Busy(frame, _, Leased) =>
      LeasesOn(cfg, s.cache, i, frame) && (i == PS.PRODUCER ==> s.cache.accesses[i].status != CacheHit)
    case Busy(frame, _, Written) =>
      && LeasesOn(cfg, s.cache, i, frame) && (i == PS.PRODUCER ==> s.cache.accesses[i].status != CacheHit)
      && HoldsPayload(s.cache.memory, s.cache.accesses[i].data, KeyOf(frame), PayloadOf(cfg))
    case _ => i !in s.cache.sleepers && !CS.Live(s.cache, i)
  }

  predicate Prepared(cfg: Config, atom: Atom, frame: nat) {
    atom.frameId == frame + 1 && atom.frame == FrameBytes(frame + 1, cfg.bytes) && |atom.result| == cfg.bytes
  }

  predicate Produced(cfg: Config, atom: Atom, frame: nat) {
    Prepared(cfg, atom, frame) && atom.ready && atom.cpuStages == 0 && atom.result == ResultOf(cfg, frame)
  }

  predicate Checked(cfg: Config, atom: Atom, frame: nat) {
    && Prepared(cfg, atom, frame) && atom.ready && atom.cpuStages == cfg.cpuStages
    && atom.result == ResultOf(cfg, frame) && atom.checksum == Checksum(atom.result)
  }

  /** What stage `i` knows about the atom that it works on. */
  predicate AtomFits(cfg: Config, i: nat, activity: PS.Activity, atom: Atom, frame: nat) {
    if i == PS.PRODUCER then
      (if activity.Ended? then Produced(cfg, atom, frame)
        else Prepared(cfg, atom, frame) && !atom.ready && atom.cpuStages == 0)
    else if i == PS.CPU then (if activity.Ended? then Checked(cfg, atom, frame) else Produced(cfg, atom, frame))
    else Checked(cfg, atom, frame)
  }

  ghost predicate AtomsOk(cfg: Config, s: Pipeline) {
    && |s.atoms| == s.schedule.slots == |s.schedule.carries|
    && (forall x :: 0 <= x < |s.atoms| ==> |s.atoms[x].result| == cfg.bytes)
    && (forall x :: x in s.schedule.cpuQueue ==> x < |s.atoms| && Produced(cfg, s.atoms[x], s.schedule.carries[x]))
    && (forall x :: x in s.schedule.consumerQueue ==> x < |s.atoms| && Checked(cfg, s.atoms[x], s.schedule.carries[x]))
    && (forall i: nat {:trigger AtWork(s, i)} :: i < |s.schedule.stages| && s.schedule.stages[i].Busy? ==>
          AtWork(s, i) && AtomFits(cfg, i, s.schedule.stages[i].activity, AtomOf(s, i), s.schedule.stages[i].frame))
  }

  predicate KnownKey(k: GpuDataKey, n: nat) {
    k.cameraId == 0 && k.variantId == 0 && 1 <= k.frameId <= n
  }

  /** How many of its leases the consumer has used. */
  function UsedBy(s: PS.Schedule, i: nat): nat
    requires i < |s.stages|
  {
    match s.stages[i]
    case Taking(frame) => frame
    case Busy(frame, _, Written) => frame + 1
    case Busy(frame, _, Ended) => frame + 1
    case Busy(frame, _, _) => frame
    case Finished => s.frames
    case _ => 0
  }

  ghost predicate HoldsHit(s: Pipeline) {
    && |s.schedule.stages| == 3 && s.schedule.stages[PS.CONSUMER].Busy?
    && s.schedule.stages[PS.CONSUMER].activity.Leased?
    && PS.CONSUMER in s.cache.accesses && s.cache.accesses[PS.CONSUMER].status == CacheHit
  }

  ghost predicate CountsOk(cfg: Config, s: Pipeline)
    requires |s.schedule.stages| == 3
  {
    && s.cache.answered == Answered(s.schedule, PS.PRODUCER) + Answered(s.schedule, PS.CONSUMER)
    && s.cache.cache.stats.hit == s.hits + (if HoldsHit(s) then 1 else 0)
    && s.hits <= UsedBy(s.schedule, PS.CONSUMER)
    && s.uploadedBytes == (UsedBy(s.schedule, PS.CONSUMER) - s.hits) * cfg.bytes
    && (forall k :: k in s.cache.cache.table ==> KnownKey(k, Answered(s.schedule, PS.PRODUCER)))
  }

  ghost predicate ScheduleOk(s: PS.Schedule) {
    PS.Inv(s) && PR.ActivitiesFit(s) && !s.failed && |s.stages| == 3
  }

  ghost predicate PipelineInv(cfg: Config, s: Pipeline) {
    && ConfigOk(cfg) && ScheduleOk(s.schedule) && CacheOk(cfg, s.cache)
    && StageCall(cfg, s, PS.PRODUCER) && StageCall(cfg, s, PS.CONSUMER)
    && AtomsOk(cfg, s) && CountsOk(cfg, s)
  }

  lemma Parts(cfg: Config, s: Pipeline)
    requires PipelineInv(cfg, s)
    ensures ConfigOk(cfg) && ScheduleOk(s.schedule) && CacheOk(cfg, s.cache) && |s.schedule.stages| == 3
    ensures StageCall(cfg, s, PS.PRODUCER) && StageCall(cfg, s, PS.CONSUMER) && AtomsOk(cfg, s) && CountsOk(cfg, s)
  {
  }

  lemma Assembled(cfg: Config, s: Pipeline)
    requires ConfigOk(cfg) && ScheduleOk(s.schedule) && CacheOk(cfg, s.cache) && |s.schedule.stages| == 3
    requires StageCall(cfg, s, PS.PRODUCER) && StageCall(cfg, s, PS.CONSUMER) && AtomsOk(cfg, s) && CountsOk(cfg, s)
    ensures PipelineInv(cfg, s)
  {
  }

  lemma CacheIsReady(cfg: Config, s: Pipeline)
    requires PipelineInv(cfg, s)
    ensures CacheReady(s)
  {
    hide PipelineInv, CacheOk, ScheduleOk, AtomsOk, CountsOk, RepInv, IndicesInRange, Healthy, StageCall;
    Parts(cfg, s);
    Facts(cfg, s.cache);
    forall i: nat | CallsCache(i) && AtWork(s, i)
      ensures s.schedule.stages[i].activity.Asleep? ==> i in s.cache.sleepers
      ensures s.schedule.stages[i].activity.Leased? || s.schedule.stages[i].activity.Written? ==> i in s.cache.accesses
    {
      CallIsThere(cfg, s, i);
    }
  }

  lemma CallIsThere(cfg: Config, s: Pipeline, i: nat)
    requires AtWork(s, i) && StageCall(cfg, s, i)
    ensures s.schedule.stages[i].activity.Asleep? ==> i in s.cache.sleepers
    ensures s.schedule.stages[i].activity.Leased? || s.schedule.stages[i].activity.Written? ==> i in s.cache.accesses
  {
  }

  /** The schedule moves along with the pipeline. */
  lemma ScheduleMoves(s: PS.Schedule, step: PS.Step)
    requires ScheduleOk(s) && PS.Enabled(s, step) && !step.Fail? && (step.Arrive? ==> step.loaded)
    ensures ScheduleOk(PS.Apply(s, step))
  {
    PR.StepKeeps(s, step);
    PR.ActivitiesStayFit(s, step);
    hide PS.Inv, PR.ActivitiesFit;
  }

  // ---------------------------------------------------------------- steps of the stages

  lemma SlotsOfStages(s: PS.Schedule, i: nat)
    requires ScheduleOk(s) && i < 3 && s.stages[i].Busy?
    ensures s.stages[i].frame < s.frames && s.stages[i].slot < s.slots == |s.carries|
            && s.carries[s.stages[i].slot] == s.stages[i].frame
    ensures s.stages[i].slot !in s.free && s.stages[i].slot !in s.cpuQueue && s.stages[i].slot !in s.consumerQueue
    ensures forall j :: 0 <= j < 3 && j != i && s.stages[j].Busy? ==> s.stages[j].slot != s.stages[i].slot
  {
    assert PS.StageOk(s, i) by { assert PS.StageOk(s, 0) && PS.StageOk(s, 1) && PS.StageOk(s, 2); }
    assert PS.Holds(s.stages[i]) == Some(s.stages[i].slot);
    forall j | 0 <= j < 3 && j != i && s.stages[j].Busy?
      ensures s.stages[j].slot != s.stages[i].slot
    {
      assert PS.Holds(s.stages[j]) == Some(s.stages[j].slot);
    }
  }

  /** Stage `i` goes on to another activity, having rewritten the atom in its slot. */
  ghost predicate MovesOn(s: Pipeline, s': Pipeline, i: nat, activity: PS.Activity, atom: Atom) {
    && AtWork(s, i) && s'.schedule == WorkedSchedule(s.schedule, i, activity)
    && s'.atoms == s.atoms[s.schedule.stages[i].slot := atom]
  }

  lemma MovingOnKeepsAtoms(cfg: Config, s: Pipeline, s': Pipeline, i: nat, activity: PS.Activity, atom: Atom)
    requires AtomsOk(cfg, s) && ScheduleOk(s.schedule) && i < 3 && MovesOn(s, s', i, activity, atom)
    requires AtomFits(cfg, i, activity, atom, s.schedule.stages[i].frame) && |atom.result| == cfg.bytes
    ensures AtomsOk(cfg, s')
  {
    SlotsOfStages(s.schedule, i);
    hide ScheduleOk, Produced, Checked, AtomFits;
    forall j: nat | j < |s'.schedule.stages| && s'.schedule.stages[j].Busy?
      ensures AtWork(s', j) && AtomFits(cfg, j, s'.schedule.stages[j].activity, AtomOf(s', j),
              s'.schedule.stages[j].frame)
    {
      assert AtWork(s, j);
    }
  }

  ghost function WorkedSchedule(s: PS.Schedule, i: nat, activity: PS.Activity): PS.Schedule
    requires i < |s.stages| && s.stages[i].Busy?
  {
    s.(stages := s.stages[i := s.stages[i].(activity := activity)])
  }

  lemma MovedSchedule(s: Pipeline, s': Pipeline, i: nat, activity: PS.Activity, atom: Atom)
    requires MovesOn(s, s', i, activity, atom)
    ensures s'.schedule == WorkedSchedule(s.schedule, i, activity) && |s'.schedule.stages| == |s.schedule.stages|
  {
  }

  lemma MovingOnIsWork(s: PS.Schedule, i: nat, activity: PS.Activity)
    requires ScheduleOk(s) && i < 3 && s.stages[i].Busy? && PS.Follows(i, s.stages[i].activity, activity)
    ensures ScheduleOk(WorkedSchedule(s, i, activity))
  {
    assert |s.stages| == 3;
    hide ScheduleOk;
    ScheduleMoves(s, PS.Work(i, activity));
  }

  /** The call of the other caller is not affected when caller `i` steps without writing to memory. */
  lemma OtherCallKeeps(cfg: Config, s: Pipeline, s': Pipeline, i: nat, j: nat)
    requires CallsCache(i) && CallsCache(j) && i != j && |s.schedule.stages| == |s'.schedule.stages| == 3
    requires s'.schedule.stages[j] == s.schedule.stages[j] && StageCall(cfg, s, j)
    requires OthersUntouched(s.cache, s'.cache, i) && s'.cache.memory == s.cache.memory
    ensures StageCall(cfg, s', j)
  {
  }

  /** Slots move forward only: the consumer is never ahead of the producer. */
  lemma ConsumerIsBehind(s: PS.Schedule)
    requires ScheduleOk(s) && s.stages[PS.CONSUMER].Busy?
    ensures s.stages[PS.CONSUMER].frame < Answered(s, PS.PRODUCER)
  {
    assert PS.StageOk(s, 0) && PS.StageOk(s, 1) && PS.StageOk(s, 2);
  }

  lemma AfterLookupKeeps(cfg: Config, s: Pipeline, i: nat, cs': CS.System, now: int)
    requires PipelineInv(cfg, s) && CallsCache(i) && AtWork(s, i)
    requires var activity := s.schedule.stages[i].activity;
             activity.Entered? || (activity.Asleep? && activity.now < now &&
                                   (i in cs'.sleepers ==> cs'.sleepers[i].progress.deadline == activity.deadline))
    requires CacheOk(cfg, cs') && PassDone(cfg, s.cache, cs', i, s.schedule.stages[i].frame, now)
    ensures PipelineInv(cfg, AfterLookup(s, i, cs', now))
  {
    hide PipelineInv, ScheduleOk, CacheOk, AtomsOk, CountsOk, StageCall, AfterLookup, PassDone, MovesOn, AtomFits;
    Parts(cfg, s);
    var s' := AfterLookup(s, i, cs', now);
    SlotsOfStages(s.schedule, i);
    if i == PS.CONSUMER {
      ConsumerIsBehind(s.schedule);
    }
    LookupLeaves(cfg, s, i, cs', now);
    var activity := s'.schedule.stages[i].activity;
    LookupFollows(cfg, s, i, cs', now);
    AtomStillFits(cfg, s, i, activity);
    MovedSchedule(s, s', i, activity, AtomOf(s, i));
    MovingOnIsWork(s.schedule, i, activity);
    MovingOnKeepsAtoms(cfg, s, s', i, activity, AtomOf(s, i));
    PassLeavesOthers(cfg, s.cache, cs', i, s.schedule.stages[i].frame, now);
    OtherCallKeeps(cfg, s, s', i, PS.PRODUCER + PS.CONSUMER - i);
    LookupCounts(cfg, s, s', i, now);
    Assembled(cfg, s');
  }

  lemma PassLeavesOthers(cfg: Config, cs: CS.System, cs': CS.System, i: nat, frame: nat, now: int)
    requires PassDone(cfg, cs, cs', i, frame, now)
    ensures OthersUntouched(cs, cs', i) && cs'.memory == cs.memory
    ensures i in cs'.sleepers ==> now < cs'.sleepers[i].progress.deadline
    ensures i !in cs'.sleepers ==> i in cs'.accesses
  {
  }

  lemma LookupFollows(cfg: Config, s: Pipeline, i: nat, cs': CS.System, now: int)
    requires PipelineInv(cfg, s) && CallsCache(i) && AtWork(s, i)
    requires var activity := s.schedule.stages[i].activity;
             activity.Entered? || (activity.Asleep? && activity.now < now &&
                                   (i in cs'.sleepers ==> cs'.sleepers[i].progress.deadline == activity.deadline))
    requires PassDone(cfg, s.cache, cs', i, s.schedule.stages[i].frame, now)
    ensures var stage := AfterLookup(s, i, cs', now).schedule.stages[i];
            stage.Busy? && PS.Follows(i, s.schedule.stages[i].activity, stage.activity)
  {
    hide PipelineInv, PassDone, AfterLookup;
    LookupLeaves(cfg, s, i, cs', now);
    PassLeavesOthers(cfg, s.cache, cs', i, s.schedule.stages[i].frame, now);
  }

  lemma AtomStillFits(cfg: Config, s: Pipeline, i: nat, activity: PS.Activity)
    requires AtomsOk(cfg, s) && CallsCache(i) && AtWork(s, i) && !s.schedule.stages[i].activity.Ended?
             && !activity.Ended?
    ensures AtomFits(cfg, i, activity, AtomOf(s, i), s.schedule.stages[i].frame) && |AtomOf(s, i).result| == cfg.bytes
  {
    assert AtWork(s, i);
  }

  /** The lookup neither fails the stage nor gives the producer a hit: its key has never been used. */
  lemma LookupLeaves(cfg: Config, s: Pipeline, i: nat, cs': CS.System, now: int)
    requires PipelineInv(cfg, s) && CallsCache(i) && AtWork(s, i)
    requires s.schedule.stages[i].activity.Entered? || s.schedule.stages[i].activity.Asleep?
    requires PassDone(cfg, s.cache, cs', i, s.schedule.stages[i].frame, now)
    ensures var s' := AfterLookup(s, i, cs', now);
            && s'.cache == cs' && s'.hits == s.hits && s'.uploadedBytes == s.uploadedBytes
            && s'.schedule.stages[i].Busy? && MovesOn(s, s', i, s'.schedule.stages[i].activity, AtomOf(s, i))
            && (if i in cs'.sleepers then s'.schedule.stages[i].activity ==
               PS.Asleep(now, cs'.sleepers[i].progress.deadline)
                else s'.schedule.stages[i].activity == PS.Leased)
            && StageCall(cfg, s', i)
            && (i == PS.PRODUCER && i !in cs'.sleepers ==> cs'.accesses[i].status != CacheHit)
  {
    hide ScheduleOk, CacheOk, AtomsOk;
  }

  lemma LookupCounts(cfg: Config, s: Pipeline, s': Pipeline, i: nat, now: int)
    requires |s.schedule.stages| == 3 && CountsOk(cfg, s) && CallsCache(i) && AtWork(s, i)
    requires s.schedule.stages[i].activity.Entered? || s.schedule.stages[i].activity.Asleep?
    requires PassDone(cfg, s.cache, s'.cache, i, s.schedule.stages[i].frame, now)
    requires s'.hits == s.hits && s'.uploadedBytes == s.uploadedBytes
    requires |s'.schedule.stages| == 3 && s'.schedule.frames == s.schedule.frames
    requires s'.schedule.stages == s.schedule.stages[i := s'.schedule.stages[i]]
    requires if i in s'.cache.sleepers then
               s'.schedule.stages[i] == s.schedule.stages[i].(activity :=
                 PS.Asleep(now, s'.cache.sleepers[i].progress.deadline))
             else s'.schedule.stages[i] == s.schedule.stages[i].(activity := PS.Leased)
    requires i == PS.PRODUCER && i !in s'.cache.sleepers ==> s'.cache.accesses[i].status != CacheHit
    requires i == PS.CONSUMER ==> s.schedule.stages[i].frame < Answered(s.schedule, PS.PRODUCER)
    ensures CountsOk(cfg, s')
  {
    if i == PS.PRODUCER {
      if i in s'.cache.sleepers {
      } else {
      }
    } else {
      if i in s'.cache.sleepers {
      } else {
      }
    }
  }

  lemma LookUpKeeps(cfg: Config, s: Pipeline, i: nat, started: int, now: int)
    requires PipelineInv(cfg, s) && Enabled(s, LookUp(i, started, now))
    ensures CacheReady(s) && PipelineInv(cfg, Looked(cfg, s, i, started, now))
  {
    hide PipelineInv, CacheOk, ScheduleOk, CountsOk, CacheReady, CS.Apply, Produced, Checked;
    CacheIsReady(cfg, s);
    Parts(cfg, s);
    BeginIsFit(cfg, s, i);
    var frame := s.schedule.stages[i].frame;
    BeginFacts(cfg, s.cache, i, frame, started, now);
    AfterLookupKeeps(cfg, s, i, CS.Apply(s.cache,
      CS.Begin(i, MetadataOf(cfg, frame), RequestOf(cfg, i), started, now)), now);
  }

  lemma WakeUpKeeps(cfg: Config, s: Pipeline, i: nat, elapsed: nat, now: int)
    requires PipelineInv(cfg, s) && Enabled(s, WakeUp(i, elapsed, now))
    ensures CacheReady(s) && i in s.cache.sleepers && PipelineInv(cfg, Woken(s, i, elapsed, now))
  {
    CacheIsReady(cfg, s);
    var stage := s.schedule.stages[i];
    ResumeFacts(cfg, s.cache, i, stage.frame, stage.activity.deadline, elapsed, now);
    AfterLookupKeeps(cfg, s, i, CS.Apply(s.cache, CS.Resume(i, elapsed, now)), now);
  }

  /** Whoever may write to its lease leaves the payload that the other caller has placed alone. */
  lemma OtherCallSurvivesWrite(cfg: Config, s: Pipeline, s': Pipeline, i: nat, j: nat, bytes: Bytes)
    requires ConfigOk(cfg) && CacheOk(cfg, s.cache) && CallsCache(i) && CallsCache(j) && i != j
    requires |s.schedule.stages| == |s'.schedule.stages| == 3 && s.schedule.stages[i].Busy?
    requires s'.schedule.stages[j] == s.schedule.stages[j] && StageCall(cfg, s, j)
    requires LeasesOn(cfg, s.cache, i, s.schedule.stages[i].frame) && s.cache.accesses[i].Writable()
    requires s'.cache == s.cache.(memory := s.cache.memory[s.cache.accesses[i].data := bytes])
    ensures StageCall(cfg, s', j)
  {
    if s.schedule.stages[j].Busy? && s.schedule.stages[j].activity.Written? {
      LeasesAreApart(cfg, s.cache, i, j, s.schedule.stages[i].frame, s.schedule.stages[j].frame);
    }
    hide CacheOk;
  }

  lemma UseKeeps(cfg: Config, s: Pipeline, i: nat)
    requires PipelineInv(cfg, s) && Enabled(s, UseLease(i))
    ensures CacheReady(s) && i in s.cache.accesses && PipelineInv(cfg, Used(cfg, s, i))
  {
    hide PipelineInv, ScheduleOk, CacheOk, AtomsOk, CountsOk, StageCall, CacheReady, CS.Apply, FrameBytes, Transform;
    Parts(cfg, s);
    CacheIsReady(cfg, s);
    LeaseIsHeld(cfg, s, i);
    SlotsOfStages(s.schedule, i);
    MovingOnIsWork(s.schedule, i, PS.Written);
    var s' := Used(cfg, s, i);
    UsingMovesOn(cfg, s, i);
    MovingOnKeepsAtoms(cfg, s, s', i, PS.Written, AtomOf(s, i));
    if i == PS.CONSUMER && s.cache.accesses[i].status == CacheHit {
      HitIsUsed(cfg, s);
    } else {
      WriteIsUsed(cfg, s, i);
    }
    Assembled(cfg, s');
  }

  lemma LeaseIsHeld(cfg: Config, s: Pipeline, i: nat)
    requires AtWork(s, i) && CallsCache(i) && StageCall(cfg, s, i)
    requires s.schedule.stages[i].activity.Leased? || s.schedule.stages[i].activity.Written?
    ensures i in s.cache.accesses && LeasesOn(cfg, s.cache, i, s.schedule.stages[i].frame)
    ensures i == PS.PRODUCER ==> s.cache.accesses[i].status != CacheHit
  {
  }

  lemma UsingMovesOn(cfg: Config, s: Pipeline, i: nat)
    requires CallsCache(i) && At(s, i, PS.Leased) && CacheReady(s) && i in s.cache.accesses && AtomsOk(cfg, s)
    ensures var s' := Used(cfg, s, i);
            && MovesOn(s, s', i, PS.Written, AtomOf(s, i))
            && AtomFits(cfg, i, PS.Written, AtomOf(s, i), s.schedule.stages[i].frame)
            && |AtomOf(s, i).result| == cfg.bytes
  {
    assert AtWork(s, i);
    hide CS.Apply, CacheReady;
  }

  lemma HitIsUsed(cfg: Config, s: Pipeline)
    requires PipelineInv(cfg, s) && CacheReady(s) && At(s, PS.CONSUMER, PS.Leased)
    requires PS.CONSUMER in s.cache.accesses && s.cache.accesses[PS.CONSUMER].status == CacheHit
    ensures var s' := Used(cfg, s, PS.CONSUMER);
            && |s'.schedule.stages| == 3 && CacheOk(cfg, s'.cache)
            && StageCall(cfg, s', PS.PRODUCER) && StageCall(cfg, s', PS.CONSUMER) && CountsOk(cfg, s')
  {
    hide PipelineInv, ScheduleOk, CacheOk, AtomsOk, RepInv, Healthy, CR.SysInv, MemoryInv, CacheReady, CountsOk, KeyOf,
         PayloadOf, CD.CleanInv, CT.AllInv, IndicesInRange;
    Parts(cfg, s);
    Facts(cfg, s.cache);
    HitsReadThePayload(s.cache, PayloadOf(cfg), PS.CONSUMER);
    HitCounts(cfg, s, Used(cfg, s, PS.CONSUMER));
  }

  lemma HitCounts(cfg: Config, s: Pipeline, s': Pipeline)
    requires |s.schedule.stages| == 3 && CountsOk(cfg, s) && At(s, PS.CONSUMER, PS.Leased) && HoldsHit(s)
    requires s'.schedule == s.schedule.(stages :=
             s.schedule.stages[PS.CONSUMER := s.schedule.stages[PS.CONSUMER].(activity := PS.Written)])
    requires s'.cache == s.cache && s'.hits == s.hits + 1 && s'.uploadedBytes == s.uploadedBytes
    ensures CountsOk(cfg, s')
  {
  }

  /** What a stage writes through its lease is the frame's result. */
  lemma ResultAtHand(cfg: Config, s: Pipeline, i: nat)
    requires AtomsOk(cfg, s) && CallsCache(i) && At(s, i, PS.Leased)
    ensures (if i == PS.PRODUCER then Transform(AtomOf(s, i).frame) else AtomOf(s, i).result) ==
            ResultOf(cfg, s.schedule.stages[i].frame)
  {
    assert AtWork(s, i);
  }

  lemma WrittenCall(cfg: Config, s: Pipeline, s': Pipeline, i: nat)
    requires CallsCache(i) && At(s, i, PS.Leased) && i in s.cache.accesses
             && LeasesOn(cfg, s.cache, i, s.schedule.stages[i].frame)
    requires i == PS.PRODUCER ==> s.cache.accesses[i].status != CacheHit
    requires s'.cache == s.cache.(memory := s.cache.memory[s.cache.accesses[i].data :=
             ResultOf(cfg, s.schedule.stages[i].frame)])
    requires i < |s'.schedule.stages| && s'.schedule.stages[i] == s.schedule.stages[i].(activity := PS.Written)
    ensures StageCall(cfg, s', i)
  {
  }

  lemma WriteIsUsed(cfg: Config, s: Pipeline, i: nat)
    requires PipelineInv(cfg, s) && CacheReady(s) && CallsCache(i) && At(s, i, PS.Leased) && i in s.cache.accesses
    requires i == PS.CONSUMER ==> s.cache.accesses[i].status != CacheHit
    ensures var s' := Used(cfg, s, i);
            && |s'.schedule.stages| == 3 && CacheOk(cfg, s'.cache)
            && StageCall(cfg, s', PS.PRODUCER) && StageCall(cfg, s', PS.CONSUMER) && CountsOk(cfg, s')
  {
    hide PipelineInv, ScheduleOk, CacheOk, AtomsOk, CountsOk, StageCall, CacheReady, LeasesOn, CS.Apply, FrameBytes,
         Transform, ResultOf;
    Parts(cfg, s);
    LeaseIsHeld(cfg, s, i);
    LeaseIsWritable(cfg, s.cache, i, s.schedule.stages[i].frame);
    ResultAtHand(cfg, s, i);
    var s', bytes := Used(cfg, s, i), ResultOf(cfg, s.schedule.stages[i].frame);
    WriteFacts(cfg, s.cache, i, s.schedule.stages[i].frame, bytes);
    OtherCallSurvivesWrite(cfg, s, s', i, PS.PRODUCER + PS.CONSUMER - i, bytes);
    WrittenCall(cfg, s, s', i);
    WriteCounts(cfg, s, s', i);
  }

  lemma LeaseIsWritable(cfg: Config, cs: CS.System, i: nat, frame: nat)
    requires LeasesOn(cfg, cs, i, frame) && cs.accesses[i].status != CacheHit
    ensures cs.accesses[i].Writable()
  {
  }

  lemma WriteCounts(cfg: Config, s: Pipeline, s': Pipeline, i: nat)
    requires |s.schedule.stages| == 3 && CountsOk(cfg, s) && CallsCache(i) && At(s, i, PS.Leased)
    requires i == PS.CONSUMER ==> !HoldsHit(s)
    requires s'.schedule == s.schedule.(stages := s.schedule.stages[i := s.schedule.stages[i].(activity := PS.Written)])
    requires s'.cache == s.cache.(memory := s'.cache.memory) && s'.hits == s.hits
    requires s'.uploadedBytes == s.uploadedBytes + (if i == PS.CONSUMER then cfg.bytes else 0)
    ensures CountsOk(cfg, s')
  {
    if i == PS.CONSUMER {
      var used := UsedBy(s.schedule, i) - s.hits;
      assert (used + 1) * cfg.bytes == used * cfg.bytes + cfg.bytes;
    }
  }

  lemma EndKeeps(cfg: Config, s: Pipeline, i: nat)
    requires PipelineInv(cfg, s) && Enabled(s, EndLease(i))
    ensures CacheReady(s) && i in s.cache.accesses && PipelineInv(cfg, EndedLease(cfg, s, i))
  {
    hide PipelineInv, ScheduleOk, CacheOk, AtomsOk, CountsOk, CacheReady, CS.Apply, LeasesOn, LeaseEnded, HoldsPayload,
         Complete, StageCall, MovesOn, EndedLease, AtomFits;
    Parts(cfg, s);
    CacheIsReady(cfg, s);
    LeaseIsHeld(cfg, s, i);
    PayloadIsThere(cfg, s, i);
    SlotsOfStages(s.schedule, i);
    var frame := s.schedule.stages[i].frame;
    var retention := if i == PS.PRODUCER then Keep else cfg.retention;
    FinishFacts(cfg, s.cache, i, frame, retention);
    var s' := EndedLease(cfg, s, i);
    EndLeaves(cfg, s, i);
    MovingOnIsWork(s.schedule, i, PS.Ended);
    var atom := if i == PS.PRODUCER then AtomOf(s, i).(result := Transform(AtomOf(s, i).frame), ready := true)
      else AtomOf(s, i);
    MovingOnKeepsAtoms(cfg, s, s', i, PS.Ended, atom);
    EndedCall(cfg, s, s', i, atom);
    EndCounts(cfg, s, s', i, atom);
    MovedSchedule(s, s', i, PS.Ended, atom);
    Assembled(cfg, s');
  }

  lemma PayloadIsThere(cfg: Config, s: Pipeline, i: nat)
    requires CallsCache(i) && At(s, i, PS.Written) && StageCall(cfg, s, i) && i in s.cache.accesses
    ensures HoldsPayload(s.cache.memory, s.cache.accesses[i].data, KeyOf(s.schedule.stages[i].frame), PayloadOf(cfg))
  {
  }

  lemma EndedCall(cfg: Config, s: Pipeline, s': Pipeline, i: nat, atom: Atom)
    requires |s.schedule.stages| == 3 && CallsCache(i) && At(s, i, PS.Written) && MovesOn(s, s', i, PS.Ended, atom)
    requires StageCall(cfg, s, PS.PRODUCER) && StageCall(cfg, s, PS.CONSUMER) && LeaseEnded(s.cache, s'.cache, i)
    ensures StageCall(cfg, s', PS.PRODUCER) && StageCall(cfg, s', PS.CONSUMER)
  {
    OtherCallKeeps(cfg, s, s', i, PS.PRODUCER + PS.CONSUMER - i);
  }

  /** Neither completion nor check fails: the bytes behind the lease are the frame's result. */
  lemma EndLeaves(cfg: Config, s: Pipeline, i: nat)
    requires PipelineInv(cfg, s) && CacheReady(s) && CallsCache(i) && At(s, i, PS.Written) && i in s.cache.accesses
    requires Complete(s.cache.cache, s.cache.accesses[i], true, if i == PS.PRODUCER then Keep else cfg.retention).ok
    ensures var s' := EndedLease(cfg, s, i);
            && s'.cache == CS.Apply(s.cache, CS.Finish(i, true, if i == PS.PRODUCER then Keep else cfg.retention))
            && s'.hits == s.hits && s'.uploadedBytes == s.uploadedBytes
            && var atom := if i != PS.PRODUCER then AtomOf(s, i)
                           else AtomOf(s, i).(result := Transform(AtomOf(s, i).frame), ready := true);
               && MovesOn(s, s', i, PS.Ended, atom) && AtomFits(cfg, i, PS.Ended, atom, s.schedule.stages[i].frame)
               && |atom.result| == cfg.bytes
  {
    hide PipelineInv, ScheduleOk, CacheOk, AtomsOk, StageCall, CountsOk, CS.Apply, Complete, Passes, AtomFits,
         CacheReady;
    Parts(cfg, s);
    ResultIsThere(cfg, s, i);
  }

  /** The atom and the leased memory agree on the frame's result. */
  lemma ResultIsThere(cfg: Config, s: Pipeline, i: nat)
    requires CallsCache(i) && At(s, i, PS.Written) && i in s.cache.accesses && ConfigOk(cfg)
    requires AtomsOk(cfg, s) && StageCall(cfg, s, i)
    ensures i == PS.CONSUMER ==>
              && s.cache.accesses[i].data in s.cache.memory
              && Passes(cfg, s.cache.memory[s.cache.accesses[i].data], AtomOf(s, i))
    ensures var atom := if i == PS.PRODUCER then AtomOf(s, i).(result := Transform(AtomOf(s, i).frame), ready := true)
            else AtomOf(s, i);
            AtomFits(cfg, i, PS.Ended, atom, s.schedule.stages[i].frame) && |atom.result| == cfg.bytes
  {
    assert AtWork(s, i);
    hide FrameBytes;
  }

  lemma EndCounts(cfg: Config, s: Pipeline, s': Pipeline, i: nat, atom: Atom)
    requires |s.schedule.stages| == 3 && CountsOk(cfg, s) && CallsCache(i) && At(s, i, PS.Written)
    requires MovesOn(s, s', i, PS.Ended, atom)
    requires LeaseEnded(s.cache, s'.cache, i) && s'.hits == s.hits && s'.uploadedBytes == s.uploadedBytes
    ensures CountsOk(cfg, s')
  {
  }

  lemma CpuKeeps(cfg: Config, s: Pipeline)
    requires PipelineInv(cfg, s) && Enabled(s, CpuWork)
    ensures PipelineInv(cfg, CpuDone(cfg, s))
  {
    Parts(cfg, s);
    hide ScheduleOk, CacheOk, AtomsOk, CountsOk, StageCall, CpuDone, AtomFits;
    SlotsOfStages(s.schedule, PS.CPU);
    MovingOnIsWork(s.schedule, PS.CPU, PS.Ended);
    var s' := CpuDone(cfg, s);
    CpuLeaves(cfg, s);
    MovingOnKeepsAtoms(cfg, s, s', PS.CPU, PS.Ended, s'.atoms[s.schedule.stages[PS.CPU].slot]);
    CpuIsInvisible(cfg, s, s');
  }

  /** What only the CPU stage does concerns neither the callers of the cache nor the counters. */
  lemma CpuIsInvisible(cfg: Config, s: Pipeline, s': Pipeline)
    requires |s.schedule.stages| == |s'.schedule.stages| == 3 && s'.schedule.frames == s.schedule.frames
    requires s'.schedule.stages[PS.PRODUCER] == s.schedule.stages[PS.PRODUCER]
    requires s'.schedule.stages[PS.CONSUMER] == s.schedule.stages[PS.CONSUMER]
    requires s'.cache == s.cache && s'.hits == s.hits && s'.uploadedBytes == s.uploadedBytes
    requires StageCall(cfg, s, PS.PRODUCER) && StageCall(cfg, s, PS.CONSUMER) && CountsOk(cfg, s)
    ensures StageCall(cfg, s', PS.PRODUCER) && StageCall(cfg, s', PS.CONSUMER) && CountsOk(cfg, s')
  {
  }

  lemma CpuLeaves(cfg: Config, s: Pipeline)
    requires ConfigOk(cfg) && AtomsOk(cfg, s) && At(s, PS.CPU, PS.Entered)
    ensures var s', slot := CpuDone(cfg, s), s.schedule.stages[PS.CPU].slot;
            && |s'.atoms| == |s.atoms| && MovesOn(s, s', PS.CPU, PS.Ended, s'.atoms[slot])
            && AtomFits(cfg, PS.CPU, PS.Ended, s'.atoms[slot], s.schedule.stages[PS.CPU].frame)
            && |s'.atoms[slot].result| == cfg.bytes
            && s'.cache == s.cache && s'.hits == s.hits && s'.uploadedBytes == s.uploadedBytes
  {
    assert AtWork(s, PS.CPU);
  }

  // ---------------------------------------------------------------- steps of the schedule

  /** No lookup is under way or held in this stage state. */
  predicate Idle(stage: PS.Stage) {
    stage.Busy? ==> stage.activity.Entered? || stage.activity.Ended?
  }

  /** A step of the schedule leaves a stage alone, or moves it between idle states that count alike. */
  ghost predicate StageSteps(g: PS.Schedule, g': PS.Schedule, i: nat)
    requires i < |g.stages| == |g'.stages|
  {
    g'.stages[i] == g.stages[i] ||
    (Idle(g.stages[i]) && Idle(g'.stages[i]) && Answered(g', i) == Answered(g, i) && UsedBy(g', i) == UsedBy(g, i))
  }

  lemma ScheduleSteps(g: PS.Schedule, o: PS.Step)
    requires |g.stages| == 3 && PS.StageOk(g, 0) && PS.StageOk(g, 1) && PS.StageOk(g, 2) && 0 < g.frames && !g.failed
    requires PS.Enabled(g, o) && !o.Work? && !o.Fail? && (o.Arrive? ==> o.loaded)
    ensures var g' := PS.Apply(g, o); |g'.stages| == 3 && g'.frames == g.frames && forall i :: 0 <= i < 3 ==>
            StageSteps(g, g', i)
  {
    match o
    case Arrive(_, _) =>
    case GoAhead =>
    case Depart(_) =>
    case Take(_) =>
    case Pass(_) =>
  }

  lemma OuterStages(cfg: Config, s: Pipeline, o: PS.Step)
    requires ScheduleOk(s.schedule) && Enabled(s, Outer(o))
    ensures var s' := Scheduled(cfg, s, o);
            && s'.schedule == PS.Apply(s.schedule, o) && s'.cache == s.cache && s'.hits == s.hits
            && s'.uploadedBytes == s.uploadedBytes
            && |s'.schedule.stages| == 3 && s'.schedule.frames == s.schedule.frames
            && (forall i :: 0 <= i < 3 ==> StageSteps(s.schedule, s'.schedule, i))
  {
    assert PS.StageOk(s.schedule, 0) && PS.StageOk(s.schedule, 1) && PS.StageOk(s.schedule, 2);
    assert 0 < s.schedule.frames;
    hide ScheduleOk, PS.Inv, FrameBytes, PS.Apply, StageSteps, PS.StageOk;
    ScheduleSteps(s.schedule, o);
  }

  lemma OuterCalls(cfg: Config, s: Pipeline, s': Pipeline, i: nat)
    requires |s.schedule.stages| == |s'.schedule.stages| == 3 && CallsCache(i) && s'.cache == s.cache
    requires StageCall(cfg, s, i)
    requires StageSteps(s.schedule, s'.schedule, i)
    ensures StageCall(cfg, s', i)
  {
  }

  lemma OuterCounts(cfg: Config, s: Pipeline, s': Pipeline)
    requires |s.schedule.stages| == |s'.schedule.stages| == 3 && s'.schedule.frames == s.schedule.frames
    requires s'.cache == s.cache && s'.hits == s.hits && s'.uploadedBytes == s.uploadedBytes && CountsOk(cfg, s)
    requires forall i :: 0 <= i < 3 ==> StageSteps(s.schedule, s'.schedule, i)
    ensures CountsOk(cfg, s')
  {
    assert StageSteps(s.schedule, s'.schedule, PS.PRODUCER) && StageSteps(s.schedule, s'.schedule, PS.CONSUMER);
  }

  /** The slot that a stage is about to take is in nobody's hands, and carries the frame that the stage expects. */
  lemma TakenSlot(s: Pipeline, i: nat)
    requires ScheduleOk(s.schedule) && PS.Enabled(s.schedule, PS.Take(i))
    ensures |s.schedule.stages| == 3 && i < 3 && s.schedule.stages[i].Taking? && !s.schedule.failed
            && PS.Queue(s.schedule, i) != []
    ensures forall j: nat :: j < 3 && s.schedule.stages[j].Busy? ==>
            s.schedule.stages[j].slot != PS.Queue(s.schedule, i)[0]
    ensures i != PS.PRODUCER ==> PS.Carries(s.schedule.carries, PS.Queue(s.schedule, i)[0], s.schedule.stages[i].frame)
    ensures i == PS.PRODUCER ==> var slot := PS.Queue(s.schedule, i)[0];
            slot < s.schedule.slots && slot !in s.schedule.cpuQueue && slot !in s.schedule.consumerQueue
    ensures forall x :: x in PS.Queue(s.schedule, i)[1..] ==>
            x in PS.Queue(s.schedule, i) && x != PS.Queue(s.schedule, i)[0]
  {
    var g, queue := s.schedule, PS.Queue(s.schedule, i);
    assert queue[0] in queue;
    PR.TailIsApart(queue);
    assert i != PS.PRODUCER ==> PS.Carries(g.carries, queue[0], g.stages[i].frame) by {
      assert PS.StageOk(g, i) by { assert PS.StageOk(g, 0) && PS.StageOk(g, 1) && PS.StageOk(g, 2); }
      if i != PS.PRODUCER {
        PR.TailInOrder(g.carries, queue, PS.Taken(g, i));
      }
    }
    forall j: nat | j < 3 && g.stages[j].Busy?
      ensures g.stages[j].slot != queue[0]
    {
      SlotsOfStages(g, j);
    }
  }

  lemma TakeKeepsAtoms(cfg: Config, s: Pipeline, i: nat)
    requires ScheduleOk(s.schedule) && AtomsOk(cfg, s) && Enabled(s, Outer(PS.Take(i)))
    ensures AtomsOk(cfg, Scheduled(cfg, s, PS.Take(i)))
  {
    hide ScheduleOk, Produced, Checked, FrameBytes;
    TakenSlot(s, i);
    var s' := Scheduled(cfg, s, PS.Take(i));
    forall j: nat | j < |s'.schedule.stages| && s'.schedule.stages[j].Busy?
      ensures AtWork(s', j) && AtomFits(cfg, j, s'.schedule.stages[j].activity, AtomOf(s', j),
              s'.schedule.stages[j].frame)
    {
      if j != i {
        assert AtWork(s, j);
      }
    }
  }

  lemma ThreeStages(s: PS.Schedule)
    requires ScheduleOk(s)
    ensures |s.stages| == 3 && !s.failed
  {
  }

  lemma PassKeepsAtoms(cfg: Config, s: Pipeline, i: nat)
    requires ScheduleOk(s.schedule) && AtomsOk(cfg, s) && Enabled(s, Outer(PS.Pass(i)))
    ensures AtomsOk(cfg, Scheduled(cfg, s, PS.Pass(i)))
  {
    hide ScheduleOk, Produced, Checked, PS.Next;
    ThreeStages(s.schedule);
    var s' := Scheduled(cfg, s, PS.Pass(i));
    SlotsOfStages(s.schedule, i);
    assert AtWork(s, i);
    NextIsNotBusy(s.schedule.frames, s.schedule.stages[i].frame + 1);
    forall j: nat | j < |s'.schedule.stages| && s'.schedule.stages[j].Busy?
      ensures AtWork(s', j) && AtomFits(cfg, j, s'.schedule.stages[j].activity, AtomOf(s', j),
              s'.schedule.stages[j].frame)
    {
      assert AtWork(s, j);
    }
  }

  lemma NextIsNotBusy(frames: nat, frame: nat)
    ensures !PS.Next(frames, frame).Busy?
  {
  }

  lemma StartUpKeepsAtoms(cfg: Config, s: Pipeline, o: PS.Step)
    requires ScheduleOk(s.schedule) && AtomsOk(cfg, s) && Enabled(s, Outer(o)) && (o.Arrive? || o.GoAhead? || o.Depart?)
    ensures AtomsOk(cfg, Scheduled(cfg, s, o))
  {
    var s' := Scheduled(cfg, s, o);
    hide ScheduleOk, Produced, Checked;
    forall j: nat | j < |s'.schedule.stages| && s'.schedule.stages[j].Busy?
      ensures AtWork(s', j) && AtomFits(cfg, j, s'.schedule.stages[j].activity, AtomOf(s', j),
              s'.schedule.stages[j].frame)
    {
      assert AtWork(s, j);
    }
  }

  lemma OuterKeeps(cfg: Config, s: Pipeline, o: PS.Step)
    requires PipelineInv(cfg, s) && Enabled(s, Outer(o))
    ensures PipelineInv(cfg, Scheduled(cfg, s, o))
  {
    hide PipelineInv, ScheduleOk, CacheOk, AtomsOk, CountsOk, StageCall, Scheduled, PS.Apply, StageSteps;
    Parts(cfg, s);
    var s' := Scheduled(cfg, s, o);
    OuterStages(cfg, s, o);
    OuterCalls(cfg, s, s', PS.PRODUCER);
    OuterCalls(cfg, s, s', PS.CONSUMER);
    OuterCounts(cfg, s, s');
    ScheduleMoves(s.schedule, o);
    match o {
      case Take(i) => TakeKeepsAtoms(cfg, s, i);
      case Pass(i) => PassKeepsAtoms(cfg, s, i);
      case _ => StartUpKeepsAtoms(cfg, s, o);
    }
    Assembled(cfg, s');
  }

  // ---------------------------------------------------------------- runs

  /** Every step of every stage keeps the invariant; in particular no stage ever fails. */
  lemma StepKeeps(cfg: Config, s: Pipeline, step: Step)
    requires PipelineInv(cfg, s) && Enabled(s, step)
    ensures CacheReady(s) && PipelineInv(cfg, Apply(cfg, s, step))
  {
    hide PipelineInv, CacheReady;
    CacheIsReady(cfg, s);
    match step
    case Outer(o) => OuterKeeps(cfg, s, o);
    case CpuWork => CpuKeeps(cfg, s);
    case LookUp(i, started, now) => LookUpKeeps(cfg, s, i, started, now);
    case WakeUp(i, elapsed, now) => WakeUpKeeps(cfg, s, i, elapsed, now);
    case UseLease(i) => UseKeeps(cfg, s, i);
    case EndLease(i) => EndKeeps(cfg, s, i);
  }

  /** A fresh pipeline over a cache that has just been initialised, whatever its earlier life was. */
  ghost predicate Start(cfg: Config, s: Pipeline) {
    && ConfigOk(cfg) && PS.Start(s.schedule) && CacheOk(cfg, s.cache)
    && PS.PRODUCER !in s.cache.sleepers && PS.CONSUMER !in s.cache.sleepers
    && !CS.Live(s.cache, PS.PRODUCER) && !CS.Live(s.cache, PS.CONSUMER)
    && s.cache.cache.table == map[] && s.cache.answered == 0
    && |s.atoms| == s.schedule.slots && (forall x :: 0 <= x < |s.atoms| ==> |s.atoms[x].result| == cfg.bytes)
    && s.hits == 0 && s.uploadedBytes == 0
  }

  /** The buffers that the allocator may hand to the cache of the pipeline: distinct, and not the tasks' own. */
  ghost predicate BuffersOk(cfg: Config, buffers: seq<DevicePointer>) {
    && |buffers| < NO_ENTRY
    && (forall i :: 0 <= i < |buffers| ==>
          buffers[i] != NULL_POINTER && buffers[i] != cfg.producerBuffer && buffers[i] != cfg.consumerBuffer)
    && (forall i, j :: 0 <= i < j < |buffers| ==> buffers[i] != buffers[j])
  }

  /** One initialisation of a fresh manager, of any capacity, policy and timeout, readies the cache of the pipeline. */
  lemma InitializedIsReady(cfg: Config, cs: CS.System, buffers: seq<DevicePointer>, waitTimeout: nat,
      policy: CacheEvictionPolicy)
    requires ConfigOk(cfg) && CS.Start(cs) && BuffersOk(cfg, buffers)
    ensures var step := CS.Initialize([cfg.gpuId], cfg.bytes, buffers, waitTimeout, policy);
            && CS.Enabled(cs, step, PayloadOf(cfg))
            && var cs' := CS.Apply(cs, step);
               && CacheOk(cfg, cs') && cs'.sleepers == map[] && (forall id :: !CS.Live(cs', id))
               && cs'.cache.table == map[] && cs'.answered == 0
               && |cs'.cache.entries| == |buffers| && cs'.cache.policy == policy && cs'.cache.waitTimeout == waitTimeout
  {
    hide CT.AllInv, CD.CleanInv, Healthy, CS.Apply, CS.Start, CS.Enabled, CT.Next, CS.Live, CR.SysInv;
    FreshIsHealthy(cfg, cs, buffers, waitTimeout, policy);
    var step := CS.Initialize([cfg.gpuId], cfg.bytes, buffers, waitTimeout, policy);
    CT.AllStart(cs, PayloadOf(cfg));
    CT.AllKeep(cs, step, CS.Apply(cs, step), PayloadOf(cfg));
    CD.AllIncludesSystem(cs, PayloadOf(cfg));
    CD.StartIsClean(cs, LayoutOf(cfg));
    CD.CleanKeeps(cs, step, PayloadOf(cfg), LayoutOf(cfg));
  }

  lemma FreshIsHealthy(cfg: Config, cs: CS.System, buffers: seq<DevicePointer>, waitTimeout: nat,
      policy: CacheEvictionPolicy)
    requires ConfigOk(cfg) && CS.Start(cs) && BuffersOk(cfg, buffers)
    ensures !cs.cache.initialized && cs.sleepers == map[]
    ensures var step := CS.Initialize([cfg.gpuId], cfg.bytes, buffers, waitTimeout, policy);
            && CS.Enabled(cs, step, PayloadOf(cfg)) && CT.Next(cs, step, CS.Apply(cs, step), PayloadOf(cfg))
            && var cs' := CS.Apply(cs, step);
            && Healthy(cfg, cs'.cache) && cs'.sleepers == map[] && (forall id :: !CS.Live(cs', id))
            && cs'.cache.table == map[] && cs'.answered == 0
            && |cs'.cache.entries| == |buffers| && cs'.cache.policy == policy && cs'.cache.waitTimeout == waitTimeout
  {
    hide CS.IdleStamps, CS.FillStamps;
  }

  /** Such a start exists for every configuration, number of frames and pool: the theorems below are about something. */
  lemma PipelinesCanStart(cfg: Config, frames: nat, slots: nat, buffers: seq<DevicePointer>, waitTimeout: nat,
                          policy: CacheEvictionPolicy) returns (s: Pipeline)
    requires ConfigOk(cfg) && 0 < slots <= frames && BuffersOk(cfg, buffers)
    ensures Start(cfg, s) && s.schedule.frames == frames && s.schedule.slots == slots
    ensures |s.cache.cache.entries| == |buffers| && s.cache.cache.policy == policy
            && s.cache.cache.waitTimeout == waitTimeout
  {
    hide CacheOk, BuffersOk, CS.Start, CS.Apply, CS.Live, CS.Enabled, PS.Start;
    var cs := FreshSystem();
    var schedule := FreshSchedule(frames, slots);
    InitializedIsReady(cfg, cs, buffers, waitTimeout, policy);
    var atom := Atom(0, [], seq(cfg.bytes, i => 0), false, 0, 0);
    s := Pipeline(schedule, CS.Apply(cs, CS.Initialize([cfg.gpuId], cfg.bytes, buffers, waitTimeout, policy)),
                  seq(slots, i => atom), 0, 0);
  }

  lemma FreshSystem() returns (cs: CS.System)
    ensures CS.Start(cs)
  {
    cs := CS.System(NEVER_INITIALIZED, map[], map[], map[], 0, [], [], 0);
  }

  lemma FreshSchedule(frames: nat, slots: nat) returns (s: PS.Schedule)
    requires 0 < slots <= frames
    ensures PS.Start(s) && s.frames == frames && s.slots == slots
  {
    s := PS.Schedule(frames, slots, seq(slots, i requires 0 <= i => i), [], [], 0, 0, 0, false, false, 0,
                     [PS.Loading, PS.Loading, PS.Loading], seq(slots, i => 0));
  }

  lemma StartHolds(cfg: Config, s: Pipeline)
    requires Start(cfg, s)
    ensures PipelineInv(cfg, s)
  {
    hide PipelineInv, CacheOk, ScheduleOk, PS.Start, CS.Live, SleepsOn, LeasesOn, HoldsPayload, Produced, Checked,
         AtomFits;
    ScheduleStarts(s.schedule);
    NothingCounted(cfg, s.cache);
    Assembled(cfg, s);
  }

  lemma ScheduleStarts(s: PS.Schedule)
    requires PS.Start(s)
    ensures ScheduleOk(s) && s.cpuQueue == s.consumerQueue == [] && |s.carries| == s.slots
    ensures s.stages == [PS.Loading, PS.Loading, PS.Loading]
  {
    PR.StartHolds(s);
  }

  lemma NothingCounted(cfg: Config, cs: CS.System)
    requires CacheOk(cfg, cs) && cs.answered == 0
    ensures cs.cache.stats.hit == 0
  {
  }

  /** One step; `StepKeeps` shows that `CacheReady` is no restriction. */
  ghost predicate Next(cfg: Config, s: Pipeline, step: Step, s': Pipeline) {
    Enabled(s, step) && CacheReady(s) && s' == Apply(cfg, s, step)
  }

  ghost predicate IsRun(cfg: Config, states: seq<Pipeline>, steps: seq<Step>) {
    && |states| == |steps| + 1 && Start(cfg, states[0])
    && (forall k :: 0 <= k < |steps| ==> Next(cfg, states[k], steps[k], states[k + 1]))
  }

  lemma {:induction false} RunsAreSafe(cfg: Config, states: seq<Pipeline>, steps: seq<Step>, k: nat)
    requires IsRun(cfg, states, steps) && k < |states|
    ensures PipelineInv(cfg, states[k])
  {
    hide PipelineInv, Apply, Enabled, Start, CacheReady;
    if k == 0 {
      StartHolds(cfg, states[0]);
    } else {
      RunsAreSafe(cfg, states, steps, k - 1);
      assert Next(cfg, states[k - 1], steps[k - 1], states[k]);
      StepKeeps(cfg, states[k - 1], steps[k - 1]);
    }
  }

  /** The producer never meets its own key in the cache, and no stage ever gives up. */
  lemma ProducerNeverHits(cfg: Config, states: seq<Pipeline>, steps: seq<Step>, k: nat)
    requires IsRun(cfg, states, steps) && k < |states|
    ensures !states[k].schedule.failed && |states[k].schedule.stages| == 3
    ensures forall i :: 0 <= i < 3 ==> !states[k].schedule.stages[i].Stopped?
    ensures var s := states[k];
            var stage := s.schedule.stages[PS.PRODUCER];
            stage.Busy? && (stage.activity.Leased? || stage.activity.Written?) ==>
              PS.PRODUCER in s.cache.accesses &&
              (s.cache.accesses[PS.PRODUCER].status == CacheFill ||
                s.cache.accesses[PS.PRODUCER].status == TaskFallback)
  {
    hide IsRun, PipelineInv, CacheOk, AtomsOk, CountsOk, ScheduleOk, HoldsPayload;
    RunsAreSafe(cfg, states, steps, k);
    Parts(cfg, states[k]);
    NobodyStopped(states[k].schedule);
    ProducerLease(cfg, states[k]);
  }

  lemma NobodyStopped(s: PS.Schedule)
    requires ScheduleOk(s)
    ensures !s.failed && forall i :: 0 <= i < 3 ==> !s.stages[i].Stopped?
  {
    assert PS.StageOk(s, 0) && PS.StageOk(s, 1) && PS.StageOk(s, 2);
  }

  lemma ProducerLease(cfg: Config, s: Pipeline)
    requires |s.schedule.stages| == 3 && StageCall(cfg, s, PS.PRODUCER)
    ensures var stage := s.schedule.stages[PS.PRODUCER];
            stage.Busy? && (stage.activity.Leased? || stage.activity.Written?) ==>
              PS.PRODUCER in s.cache.accesses &&
              (s.cache.accesses[PS.PRODUCER].status == CacheFill ||
                s.cache.accesses[PS.PRODUCER].status == TaskFallback)
  {
  }

  /** What the consumer reads through its lease, hit or not, is the frame transformed byte by byte. */
  lemma ConsumerReadsTheResult(cfg: Config, states: seq<Pipeline>, steps: seq<Step>, k: nat)
    requires IsRun(cfg, states, steps) && k < |states|
    requires At(states[k], PS.CONSUMER, PS.Written)
    ensures var s := states[k];
            && PS.CONSUMER in s.cache.accesses && s.cache.accesses[PS.CONSUMER].data in s.cache.memory
            && var bytes := s.cache.memory[s.cache.accesses[PS.CONSUMER].data];
               && bytes == Transform(FrameBytes(s.schedule.stages[PS.CONSUMER].frame + 1, cfg.bytes))
               && Passes(cfg, bytes, AtomOf(s, PS.CONSUMER))
  {
    hide IsRun, PipelineInv, CacheOk, ScheduleOk, CountsOk, FrameBytes;
    RunsAreSafe(cfg, states, steps, k);
    Parts(cfg, states[k]);
    assert AtWork(states[k], PS.CONSUMER);
  }

  /**
   * The counters of a finished run, for any capacity, policy, retention and outcome of each lookup: two
   * lookups per frame, hits counted alike on both sides, and one upload for every consumer miss.
   */
  lemma FinishedRunBalances(cfg: Config, states: seq<Pipeline>, steps: seq<Step>, k: nat)
    requires IsRun(cfg, states, steps) && k < |states| && PR.Done(states[k].schedule)
    ensures var s, stats := states[k], states[k].cache.cache.stats;
            && s.schedule.completed == s.schedule.frames
            && stats.hit + stats.fill + stats.fallback == 2 * s.schedule.frames && stats.invalid == 0
            && stats.hit == s.hits && s.hits <= s.schedule.frames
            && s.uploadedBytes == (s.schedule.frames - s.hits) * cfg.bytes
  {
    hide IsRun, PipelineInv, CacheOk, AtomsOk, StageCall, ScheduleOk;
    RunsAreSafe(cfg, states, steps, k);
    Parts(cfg, states[k]);
    DoneIsFinished(states[k].schedule);
    AllLookupsCounted(cfg, states[k].cache);
  }

  lemma DoneIsFinished(g: PS.Schedule)
    requires ScheduleOk(g) && PR.Done(g)
    ensures g.completed == g.frames && forall i :: 0 <= i < 3 ==> g.stages[i].Finished?
  {
    assert PS.StageOk(g, 0) && PS.StageOk(g, 1) && PS.StageOk(g, 2);
    assert g.stages[0].Finished? && g.stages[1].Finished? && g.stages[2].Finished?;
  }

  lemma AllLookupsCounted(cfg: Config, cs: CS.System)
    requires CacheOk(cfg, cs)
    ensures cs.cache.stats.invalid == 0 && cs.cache.stats.hit + cs.cache.stats.fill + cs.cache.stats.fallback ==
            cs.answered
  {
  }

  // ---------------------------------------------------------------- progress of the composed pipeline

  lemma LookupIsWork(cfg: Config, s: Pipeline, i: nat, cs': CS.System, now: int) returns (o: PS.Step)
    requires PipelineInv(cfg, s) && CallsCache(i) && AtWork(s, i)
    requires var activity := s.schedule.stages[i].activity;
             activity.Entered? || (activity.Asleep? && activity.now < now &&
                                   (i in cs'.sleepers ==> cs'.sleepers[i].progress.deadline == activity.deadline))
    requires PassDone(cfg, s.cache, cs', i, s.schedule.stages[i].frame, now)
    ensures PS.Enabled(s.schedule, o) && AfterLookup(s, i, cs', now).schedule == PS.Apply(s.schedule, o)
  {
    hide PipelineInv, PassDone, AfterLookup, MovesOn;
    LookupLeaves(cfg, s, i, cs', now);
    LookupFollows(cfg, s, i, cs', now);
    var activity := AfterLookup(s, i, cs', now).schedule.stages[i].activity;
    MovedSchedule(s, AfterLookup(s, i, cs', now), i, activity, AtomOf(s, i));
    o := PS.Work(i, activity);
  }

  /** Every step of the composed pipeline is a step of its schedule. */
  lemma StepIsScheduled(cfg: Config, s: Pipeline, step: Step) returns (o: PS.Step)
    requires PipelineInv(cfg, s) && Enabled(s, step)
    ensures CacheReady(s) && PS.Enabled(s.schedule, o) && Apply(cfg, s, step).schedule == PS.Apply(s.schedule, o)
  {
    hide PipelineInv, CacheReady, CS.Apply, ScheduleOk, CacheOk, AtomsOk, CountsOk, StageCall, MovesOn, EndedLease;
    CacheIsReady(cfg, s);
    Parts(cfg, s);
    match step
    case Outer(out) =>
      OuterStages(cfg, s, out);
      o := out;
    case CpuWork =>
      CpuLeaves(cfg, s);
      o := PS.Work(PS.CPU, PS.Ended);
      MovedSchedule(s, CpuDone(cfg, s), PS.CPU, PS.Ended, CpuDone(cfg, s).atoms[s.schedule.stages[PS.CPU].slot]);
    case LookUp(i, started, now) =>
      BeginIsFit(cfg, s, i);
      var frame := s.schedule.stages[i].frame;
      BeginFacts(cfg, s.cache, i, frame, started, now);
      o := LookupIsWork(cfg, s, i, CS.Apply(s.cache,
            CS.Begin(i, MetadataOf(cfg, frame), RequestOf(cfg, i), started, now)), now);
    case WakeUp(i, elapsed, now) =>
      var stage := s.schedule.stages[i];
      SleepIsKnown(cfg, s, i);
      ResumeFacts(cfg, s.cache, i, stage.frame, stage.activity.deadline, elapsed, now);
      o := LookupIsWork(cfg, s, i, CS.Apply(s.cache, CS.Resume(i, elapsed, now)), now);
    case UseLease(i) =>
      LeaseIsHeld(cfg, s, i);
      UsingMovesOn(cfg, s, i);
      MovedSchedule(s, Used(cfg, s, i), i, PS.Written, AtomOf(s, i));
      o := PS.Work(i, PS.Written);
    case EndLease(i) =>
      EndIsWork(cfg, s, i);
      o := PS.Work(i, PS.Ended);
  }

  lemma EndIsWork(cfg: Config, s: Pipeline, i: nat)
    requires PipelineInv(cfg, s) && CacheReady(s) && Enabled(s, EndLease(i))
    ensures PS.Enabled(s.schedule, PS.Work(i, PS.Ended))
    ensures Apply(cfg, s, EndLease(i)).schedule == PS.Apply(s.schedule, PS.Work(i, PS.Ended))
  {
    hide PipelineInv, CacheReady, CS.Apply, ScheduleOk, CacheOk, AtomsOk, CountsOk, StageCall, MovesOn, EndedLease;
    Parts(cfg, s);
    LeaseIsHeld(cfg, s, i);
    PayloadIsThere(cfg, s, i);
    FinishFacts(cfg, s.cache, i, s.schedule.stages[i].frame, if i == PS.PRODUCER then Keep else cfg.retention);
    EndLeaves(cfg, s, i);
    var atom := if i == PS.PRODUCER then AtomOf(s, i).(result := Transform(AtomOf(s, i).frame), ready := true)
      else AtomOf(s, i);
    MovedSchedule(s, EndedLease(cfg, s, i), i, PS.Ended, atom);
  }

  lemma BeginIsFit(cfg: Config, s: Pipeline, i: nat)
    requires AtomsOk(cfg, s) && CallsCache(i) && At(s, i, PS.Entered) && StageCall(cfg, s, i)
    ensures Acceptable(cfg, i, AtomOf(s, i)) && i !in s.cache.sleepers && !CS.Live(s.cache, i)
  {
    assert AtWork(s, i);
  }

  lemma SleepIsKnown(cfg: Config, s: Pipeline, i: nat)
    requires AtWork(s, i) && CallsCache(i) && StageCall(cfg, s, i) && s.schedule.stages[i].activity.Asleep?
    ensures SleepsOn(cfg, s.cache, i, s.schedule.stages[i].frame, s.schedule.stages[i].activity.deadline)
    ensures i in s.cache.sleepers
  {
  }

  /** Every step of the composed pipeline brings it closer to its end. */
  lemma StepsCount(cfg: Config, s: Pipeline, step: Step)
    requires PipelineInv(cfg, s) && Enabled(s, step)
    ensures CacheReady(s) && |s.schedule.stages| == |Apply(cfg, s, step).schedule.stages| == 3
    ensures var g, g' := s.schedule, Apply(cfg, s, step).schedule;
            PR.Weight(g') < PR.Weight(g) || (PR.Weight(g') == PR.Weight(g)
              && PR.TotalPatience(g') < PR.TotalPatience(g))
  {
    hide PipelineInv, CacheReady, Apply, CacheOk, AtomsOk, CountsOk, StageCall, PS.Inv;
    var o := StepIsScheduled(cfg, s, step);
    Parts(cfg, s);
    PR.EveryStepCounts(s.schedule, o);
  }

  /** And as long as it is not done it has a step to take, so it completes every frame. */
  lemma NeverStuck(cfg: Config, s: Pipeline) returns (step: Step)
    requires PipelineInv(cfg, s) && !PR.Done(s.schedule)
    ensures Enabled(s, step)
  {
    hide PipelineInv, CacheOk, CountsOk, StageCall, PS.Inv, PR.ActivitiesFit;
    Parts(cfg, s);
    var o := PR.NeverDeadlocked(s.schedule);
    match o
    case Work(i, _) =>
      assert AtWork(s, i);
      var activity := s.schedule.stages[i].activity;
      WorkerFits(s.schedule, i);
      step := if i == PS.CPU then CpuWork
              else match activity
                   case Entered => LookUp(i, 0, 0)
                   case Asleep(now, _) => WakeUp(i, 1, now + 1)
                   case Leased => UseLease(i)
                   case _ => EndLease(i);
    case Arrive(i, _) => step := Outer(PS.Arrive(i, true));
    case _ => step := Outer(o);
  }

  lemma WorkerFits(s: PS.Schedule, i: nat)
    requires ScheduleOk(s) && i < |s.stages| && s.stages[i].Busy?
    ensures PR.ActivityFits(i, s.stages[i].activity)
  {
    hide PS.Inv;
  }
}
