/**
 * The result pipeline composed with the cache: the producer and the consumer are two callers of the cache
 * system, their lookups, writes and completions are its steps, and the schedule says who holds which slot.
 * No CUDA call and no allocation fails here; everything else is arbitrary.
 */
module PipelineSystem {
  import opened GpuTypes
  import opened CacheSpec
  import opened ResultTasks
  import CS = CacheSystem
  import PS = PipelineSchedule

  datatype Config = Config(
    bytes: nat, cpuStages: nat, retention: CacheRetention, gpuId: int,
    producerStream: nat, consumerStream: nat, producerBuffer: DevicePointer, consumerBuffer: DevicePointer)

  ghost predicate ConfigOk(cfg: Config) {
    && cfg.bytes > 0 && cfg.cpuStages > 0 && cfg.gpuId >= 0 && cfg.producerStream != 0 && cfg.consumerStream != 0
    && cfg.producerBuffer != NULL_POINTER && cfg.consumerBuffer != NULL_POINTER
    && cfg.producerBuffer != cfg.consumerBuffer
  }

  // Every frame has its own result key; frame ids start at 1.
  function KeyOf(frame: nat): GpuDataKey {
    GpuDataKey(frame + 1, 0, 0)
  }

  function MetadataOf(cfg: Config, frame: nat): FrameMetadata {
    AtomMetadata(frame + 1, cfg.bytes)
  }

  function LayoutOf(cfg: Config): GpuDataKey -> FrameMetadata {
    key => FrameMetadata(key, cfg.bytes, cfg.bytes, 1, 1)
  }

  function ResultOf(cfg: Config, frame: nat): Bytes {
    Transform(FrameBytes(frame + 1, cfg.bytes))
  }

  function PayloadOf(cfg: Config): CS.Payload {
    (key: GpuDataKey) => Transform(FrameBytes(key.frameId, cfg.bytes))
  }

  function StreamOf(cfg: Config, i: nat): nat {
    if i == PS.PRODUCER then cfg.producerStream else cfg.consumerStream
  }

  function BufferOf(cfg: Config, i: nat): DevicePointer {
    if i == PS.PRODUCER then cfg.producerBuffer else cfg.consumerBuffer
  }

  function RequestOf(cfg: Config, i: nat): GpuCacheRequest {
    GpuCacheRequest(cfg.gpuId, StreamOf(cfg, i), BufferOf(cfg, i), cfg.bytes)
  }

  datatype Atom = Atom(frameId: nat, frame: Bytes, result: Bytes, ready: bool, cpuStages: nat, checksum: nat)

  datatype Pipeline = Pipeline(schedule: PS.Schedule, cache: CS.System, atoms: seq<Atom>, hits: nat, uploadedBytes: nat)

  datatype Step =
    | Outer(step: PS.Step)
    | CpuWork
    | LookUp(i: nat, started: int, now: int)
    | WakeUp(i: nat, elapsed: nat, now: int)
    | UseLease(i: nat)
    | EndLease(i: nat)

  /** The stages that call the cache; each uses its own number as the identity of its access object. */
  predicate CallsCache(i: nat) {
    i == PS.PRODUCER || i == PS.CONSUMER
  }

  /** Stage `i` holds a slot with an atom. */
  predicate AtWork(s: Pipeline, i: nat) {
    && i < |s.schedule.stages| && s.schedule.stages[i].Busy? && s.schedule.stages[i].slot < |s.atoms|
    && s.schedule.stages[i].slot < |s.schedule.carries|
  }

  predicate At(s: Pipeline, i: nat, activity: PS.Activity) {
    AtWork(s, i) && s.schedule.stages[i].activity == activity
  }

  predicate Enabled(s: Pipeline, step: Step) {
    match step
    case Outer(o) =>
      PS.Enabled(s.schedule, o) && !o.Work? && !o.Fail? && (o.Arrive? ==> o.loaded)
    case CpuWork => At(s, PS.CPU, PS.Entered)
    case LookUp(i, started, now) => CallsCache(i) && At(s, i, PS.Entered)
    // The clock advances on each wait.
    case WakeUp(i, elapsed, now) =>
      CallsCache(i) && AtWork(s, i) && s.schedule.stages[i].activity.Asleep? && s.schedule.stages[i].activity.now < now
    case UseLease(i) => CallsCache(i) && At(s, i, PS.Leased)
    case EndLease(i) => CallsCache(i) && At(s, i, PS.Written)
  }

  /** What the cache's own step functions need; `PipelineRuns` shows that it always holds. */
  ghost predicate CacheReady(s: Pipeline) {
    && IndicesInRange(s.cache.cache)
    && (forall i: nat :: CallsCache(i) && AtWork(s, i) && s.schedule.stages[i].activity.Asleep? ==>
          i in s.cache.sleepers)
    && (forall i: nat :: CallsCache(i) && AtWork(s, i) ==>
          (s.schedule.stages[i].activity.Leased? || s.schedule.stages[i].activity.Written? ==> i in s.cache.accesses))
  }

  ghost function Worked(s: Pipeline, i: nat, activity: PS.Activity): Pipeline
    requires i < |s.schedule.stages| && s.schedule.stages[i].Busy?
  {
    s.(schedule := s.schedule.(stages := s.schedule.stages[i := s.schedule.stages[i].(activity := activity)]))
  }

  ghost function Failed(s: Pipeline, i: nat): Pipeline
    requires i < |s.schedule.stages| && s.schedule.stages[i].Busy?
  {
    s.(schedule := PS.Apply(s.schedule, PS.Fail(i)))
  }

  ghost function AtomOf(s: Pipeline, i: nat): Atom
    requires AtWork(s, i)
  {
    s.atoms[s.schedule.stages[i].slot]
  }

  ghost function SetAtom(s: Pipeline, i: nat, atom: Atom): Pipeline
    requires AtWork(s, i)
  {
    s.(atoms := s.atoms[s.schedule.stages[i].slot := atom])
  }

  /** The tasks' own checks before they call the cache. */
  predicate Acceptable(cfg: Config, i: nat, atom: Atom) {
    && |atom.frame| == cfg.bytes && |atom.result| == cfg.bytes
    && (if i == PS.PRODUCER then !atom.ready else atom.ready && atom.cpuStages == cfg.cpuStages)
  }

  /** A lookup has returned or fallen asleep: the stage goes on with its lease, waits, or gives up. */
  ghost function AfterLookup(s: Pipeline, i: nat, cache: CS.System, now: int): (s': Pipeline)
    requires AtWork(s, i)
    ensures |s'.schedule.stages| == |s.schedule.stages|
  {
    var s1 := s.(cache := cache);
    if i in cache.sleepers then Worked(s1, i, PS.Asleep(now, cache.sleepers[i].progress.deadline))
    else if i !in cache.accesses || cache.accesses[i].status == Invalid ||
      (i == PS.PRODUCER && cache.accesses[i].status == CacheHit)
    then Failed(s1, i)
    else Worked(s1, i, PS.Leased)
  }

  ghost function Looked(cfg: Config, s: Pipeline, i: nat, started: int, now: int): Pipeline
    requires CallsCache(i) && AtWork(s, i) && CacheReady(s)
  {
    if !Acceptable(cfg, i, AtomOf(s, i)) then Failed(s, i)
    else
      var md := MetadataOf(cfg, s.schedule.stages[i].frame);
      AfterLookup(s, i, CS.Apply(s.cache, CS.Begin(i, md, RequestOf(cfg, i), started, now)), now)
  }

  ghost function Woken(s: Pipeline, i: nat, elapsed: nat, now: int): Pipeline
    requires CallsCache(i) && AtWork(s, i) && CacheReady(s) && i in s.cache.sleepers
  {
    AfterLookup(s, i, CS.Apply(s.cache, CS.Resume(i, elapsed, now)), now)
  }

  /** The stage uses the leased memory: the producer and a missing consumer write it, a hit only reads. */
  ghost function Used(cfg: Config, s: Pipeline, i: nat): Pipeline
    requires CallsCache(i) && AtWork(s, i) && CacheReady(s) && i in s.cache.accesses
  {
    var s1 := Worked(s, i, PS.Written);
    if i == PS.CONSUMER && s.cache.accesses[i].status == CacheHit then s1.(hits := s.hits + 1)
    else
      var bytes := if i == PS.PRODUCER then Transform(AtomOf(s, i).frame) else AtomOf(s, i).result;
      s1.(cache := CS.Apply(s.cache, CS.Write(i, bytes)),
          uploadedBytes := if i == PS.CONSUMER then s.uploadedBytes + cfg.bytes else s.uploadedBytes)
  }

  /** The consumer's checks on the bytes that it read through its lease. */
  ghost predicate Passes(cfg: Config, bytes: Bytes, atom: Atom) {
    && bytes == atom.result && bytes == Transform(atom.frame)
    && (cfg.cpuStages == 0 || atom.checksum == Checksum(atom.result))
  }

  ghost function EndedLease(cfg: Config, s: Pipeline, i: nat): Pipeline
    requires CallsCache(i) && AtWork(s, i) && CacheReady(s) && i in s.cache.accesses
  {
    var a := s.cache.accesses[i];
    var retention := if i == PS.PRODUCER then Keep else cfg.retention;
    var s1 := s.(cache := CS.Apply(s.cache, CS.Finish(i, true, retention)));
    var bytes := if a.data in s.cache.memory then s.cache.memory[a.data] else [];
    if !CacheSpec.Complete(s.cache.cache, a, true, retention).ok then Failed(s1, i)
    else if i == PS.PRODUCER then
      Worked(SetAtom(s1, i, AtomOf(s, i).(result := Transform(AtomOf(s, i).frame), ready := true)), i, PS.Ended)
    else if !Passes(cfg, bytes, AtomOf(s, i)) then Failed(s1, i)
    else Worked(s1, i, PS.Ended)
  }

  ghost function CpuDone(cfg: Config, s: Pipeline): Pipeline
    requires AtWork(s, PS.CPU)
  {
    var atom := AtomOf(s, PS.CPU);
    if !atom.ready || atom.result == [] then Failed(s, PS.CPU)
    else
      Worked(SetAtom(s, PS.CPU, atom.(checksum := Checksum(atom.result), cpuStages := atom.cpuStages + cfg.cpuStages)),
        PS.CPU, PS.Ended)
  }

  /** The schedule moves; a slot that the producer takes is prepared for its next frame. */
  ghost function Scheduled(cfg: Config, s: Pipeline, step: PS.Step): Pipeline
    requires PS.Enabled(s.schedule, step)
  {
    var s1 := s.(schedule := PS.Apply(s.schedule, step));
    if step == PS.Take(PS.PRODUCER) && AtWork(s1, PS.PRODUCER) then
      var frame := s1.schedule.stages[PS.PRODUCER].frame;
      SetAtom(s1, PS.PRODUCER,
              AtomOf(s1, PS.PRODUCER).(frameId := frame + 1, ready := false, cpuStages := 0, checksum := 0,
                                       frame := FrameBytes(frame + 1, cfg.bytes)))
    else s1
  }

  ghost function Apply(cfg: Config, s: Pipeline, step: Step): Pipeline
    requires Enabled(s, step) && CacheReady(s)
  {
    match step
    case Outer(o) => Scheduled(cfg, s, o)
    case CpuWork => CpuDone(cfg, s)
    case LookUp(i, started, now) => Looked(cfg, s, i, started, now)
    case WakeUp(i, elapsed, now) => Woken(s, i, elapsed, now)
    case UseLease(i) => Used(cfg, s, i)
    case EndLease(i) => EndedLease(cfg, s, i)
  }
}
