/**
 * The bounded cache as one value, and every locked section of its monitor as a function on it.
 *
 * Intrusive lists are sequences here (front = next victim), the residency table is a map and the
 * empty stack is a sequence (last = top). `GpuDataCache` is the class whose links, hash table and
 * entry objects realise this value; `CacheInvariant` says what every section keeps.
 */
module CacheSpec {
  import opened GpuTypes

  datatype Entry = Entry(metadata: FrameMetadata, state: GpuCacheState, active: nat, discard: bool,
                         buffer: DevicePointer, replicaValid: bool)
  {
    /** The entry with its identity forgotten; the device buffer stays. */
    function Cleared(): Entry {
      Entry(DEFAULT_METADATA, Empty, 0, false, buffer, false)
    }
  }

  datatype Cache = Cache(
    initialized: bool, releasing: bool, failed: bool,
    policy: CacheEvictionPolicy, waitTimeout: nat, dataBytes: nat, gpuId: Option<int>,
    entries: seq<Entry>, table: map<GpuDataKey, nat>, empties: seq<nat>, idle: seq<nat>, filled: seq<nat>,
    fallbacks: nat, waiting: nat, stats: CacheStatistics,
    // How often waiting requests have been notified.
    notices: nat)

  const NEVER_INITIALIZED :=
    Cache(false, false, false, LRU, 50, 0, None, [], map[], [], [], [], 0, 0, NO_STATISTICS, 0)

  /** What a `GpuDataAccess` holds; `live` says that it still has an owner. */
  datatype Access = Access(live: bool, data: DevicePointer, bytes: nat, entryIndex: nat, key: GpuDataKey,
                           stream: nat, gpuId: int, status: CacheStatus)
  {
    predicate Writable() {
      status == CacheFill || status == TaskFallback
    }

    /** The lease counts among the readers or the filler of entry `i`. */
    predicate Holds(i: nat) {
      live && entryIndex == i && (status == CacheHit || status == CacheFill)
    }
  }

  const NO_ACCESS := Access(false, NULL_POINTER, 0, 0, DEFAULT_KEY, 0, -1, Invalid)

  /** What one request remembers between its locked sections. */
  datatype Progress = Progress(deadline: int, blocked: bool, waited: bool, requestWait: nat)

  datatype Outcome = Returned(access: Access) | Sleeping

  /** The effect of one locked section of a request. */
  datatype Pass = Pass(cache: Cache, progress: Progress, outcome: Outcome)

  /** The effect of a section that reports success or failure. */
  datatype Reply = Reply(cache: Cache, ok: bool)

  // ---------------------------------------------------------------- lists

  /** `s` without the first occurrence of `x`. */
  function Without(s: seq<nat>, x: nat): seq<nat> {
    if s == [] then [] else if s[0] == x then s[1..] else [s[0]] + Without(s[1..], x)
  }

  /** The first index in `order` whose entry has no reader. */
  function FirstUnread(order: seq<nat>, entries: seq<Entry>): (first: Option<nat>)
    ensures first.Some? ==> first.value < |entries| && first.value in order
  {
    if order == [] then None
    else if order[0] < |entries| && entries[order[0]].active == 0 then Some(order[0])
    else FirstUnread(order[1..], entries)
  }

  // ---------------------------------------------------------------- candidates

  datatype Candidate = NoCandidate | TakeEmpty(empty: nat) | TakeIdle(victim: nat)

  ghost predicate IndicesInRange(c: Cache) {
    && (forall i :: 0 <= i < |c.empties| ==> c.empties[i] < |c.entries|)
    && (forall i :: 0 <= i < |c.idle| ==> c.idle[i] < |c.entries|)
    && (forall k :: k in c.table ==> c.table[k] < |c.entries|)
  }

  /** An empty entry if there is one, else the policy's victim among the idle entries. */
  ghost function ChooseCandidate(c: Cache): (candidate: Candidate)
    requires IndicesInRange(c)
    ensures candidate.TakeEmpty? ==> c.empties != [] && candidate.empty < |c.entries|
    ensures candidate.TakeIdle? ==> candidate.victim < |c.entries|
  {
    if c.empties != [] then TakeEmpty(c.empties[|c.empties| - 1])
    else if c.idle == [] then NoCandidate
    else if c.policy == LRU then TakeIdle(c.idle[0])
    else match FirstUnread(c.filled, c.entries)
         case None => NoCandidate
         case Some(i) => if i in c.idle then TakeIdle(i) else NoCandidate
  }

  // ---------------------------------------------------------------- entry transitions

  ghost function AddIdle(c: Cache, i: nat): Cache {
    c.(idle := c.idle + [i], notices := c.notices + 1)
  }

  ghost function ErasedKey(table: map<GpuDataKey, nat>, key: GpuDataKey, i: nat): map<GpuDataKey, nat> {
    if key in table && table[key] == i then table - {key} else table
  }

  ghost function ResetEntry(c: Cache, i: nat): Cache
    requires i < |c.entries|
  {
    c.(idle := Without(c.idle, i),
       filled := Without(c.filled, i),
       table := ErasedKey(c.table, c.entries[i].metadata.key, i),
       entries := c.entries[i := c.entries[i].Cleared()],
       empties := c.empties + [i],
       notices := c.notices + 1)
  }

  ghost function OneReaderLess(e: Entry, discardNow: bool): Entry {
    e.(active := if e.active > 0 then e.active - 1 else 0, discard := e.discard || discardNow)
  }

  ghost function CountDiscard(c: Cache): Cache {
    c.(stats := c.stats.CountDiscard())
  }

  /** The end of one reader of entry `i`: the last one out discards the entry or makes it evictable. */
  ghost function EndReader(c: Cache, i: nat, discardNow: bool): Cache
    requires i < |c.entries| && c.entries[i].active > 0
  {
    var e := OneReaderLess(c.entries[i], discardNow);
    var c1 := c.(entries := c.entries[i := e]);
    if e.active != 0 then c1
    else if e.discard then CountDiscard(ResetEntry(c1, i))
    else AddIdle(c1, i)
  }

  /** The successful end of the fill of entry `i`. */
  ghost function Publish(c: Cache, i: nat, retention: CacheRetention): Cache
    requires i < |c.entries|
  {
    var c1 := c.(entries := c.entries[i := c.entries[i].(state := Valid, active := 0, replicaValid := true)]);
    if retention == Discard then CountDiscard(ResetEntry(c1, i))
    else
      var c2 := if c.policy == FIFO then c1.(filled := c1.filled + [i]) else c1;
      AddIdle(c2, i)
  }

  // ---------------------------------------------------------------- lookup

  ghost predicate Admits(c: Cache, md: FrameMetadata, req: GpuCacheRequest) {
    && c.initialized && !c.releasing && !c.failed
    && md.bytes == c.dataBytes && md.width > 0 && md.height > 0
    && req.gpuId >= 0 && req.stream != 0 && req.d_fallback != NULL_POINTER && req.fallbackBytes >= c.dataBytes
    && c.gpuId == Some(req.gpuId)
  }

  ghost function Reject(c: Cache): Cache {
    c.(stats := c.stats.CountInvalid())
  }

  ghost function ServeHit(c: Cache, i: nat): Cache
    requires i < |c.entries|
  {
    c.(idle := if c.entries[i].active == 0 then Without(c.idle, i) else c.idle,
       entries := c.entries[i := c.entries[i].(active := c.entries[i].active + 1)],
       stats := c.stats.CountHit())
  }

  ghost function Reserve(e: Entry, md: FrameMetadata): Entry {
    Entry(md, Loading, 1, false, e.buffer, false)
  }

  ghost function FillEmpty(c: Cache, i: nat, md: FrameMetadata): Cache
    requires i < |c.entries| && c.empties != []
  {
    c.(empties := c.empties[..|c.empties| - 1],
       table := c.table[md.key := i],
       entries := c.entries[i := Reserve(c.entries[i], md)],
       stats := c.stats.CountReservation(false))
  }

  ghost function FillIdle(c: Cache, i: nat, md: FrameMetadata): Cache
    requires i < |c.entries|
  {
    c.(idle := Without(c.idle, i),
       filled := Without(c.filled, i),
       table := ErasedKey(c.table, c.entries[i].metadata.key, i)[md.key := i],
       entries := c.entries[i := Reserve(c.entries[i], md)],
       stats := c.stats.CountReservation(true))
  }

  ghost function CacheLease(c: Cache, i: nat, md: FrameMetadata, req: GpuCacheRequest, status: CacheStatus): Access
    requires i < |c.entries|
  {
    Access(true, c.entries[i].buffer, c.dataBytes, i, md.key, req.stream, req.gpuId, status)
  }

  ghost function ServeFallback(c: Cache, reason: CacheFallbackReason): Cache {
    c.(fallbacks := c.fallbacks + 1,
       stats := c.stats.CountFallback(reason))
  }

  ghost function FallbackLease(c: Cache, md: FrameMetadata, req: GpuCacheRequest): Access {
    Access(true, req.d_fallback, c.dataBytes, NO_ENTRY, md.key, req.stream, req.gpuId, TaskFallback)
  }

  /** What the manager finds for a key at one instant; `Corrupt` and `MissingReplica` are its defensive branches. */
  datatype Finding =
    | Refused
    | Corrupt
    | MissingReplica
    | Readable(index: nat)
    | StillLoading
    | FillableEmpty(index: nat)
    | FillableIdle(index: nat)
    | NoCapacity
    | Full

  /** A resident entry that a new reader may join: on the fill list under FIFO, on the idle list exactly when unread. */
  ghost predicate Joinable(c: Cache, i: nat)
    requires i < |c.entries|
  {
    && (c.policy == FIFO ==> i in c.filled)
    && (i in c.idle <==> c.entries[i].active == 0)
  }

  /** A candidate from the stack can be reserved: it looks empty, and the table has room for its key. */
  ghost predicate SoundEmpty(c: Cache, i: nat)
    requires i < |c.entries|
  {
    var e := c.entries[i];
    e.buffer != NULL_POINTER && e.state == Empty && e.active == 0 && i !in c.idle && |c.table| < |c.entries|
  }

  /** A candidate off the idle list can be reserved: it looks idle, it owns its key, and it leaves both lists. */
  ghost predicate SoundIdle(c: Cache, i: nat)
    requires i < |c.entries|
  {
    var e := c.entries[i];
    && e.buffer != NULL_POINTER && e.state == Valid && e.active == 0 && i !in Without(c.idle, i)
    && e.metadata.key in c.table && c.table[e.metadata.key] == i && |c.table - {e.metadata.key}| < |c.entries|
    && (c.policy == FIFO ==> i in c.filled)
  }

  /** A victim that cannot be reserved goes back to the end of the idle list if it belongs there. */
  ghost function Restored(c: Cache, i: nat): Cache
    requires i < |c.entries|
  {
    var c1 := c.(idle := Without(c.idle, i));
    if c.entries[i].state == Valid && c.entries[i].active == 0 && i !in c1.idle then AddIdle(c1, i) else c1
  }

  /** What is left of the cache when a defensive check of a lookup fails. */
  ghost function Spoiled(c: Cache, key: GpuDataKey): Cache
    requires IndicesInRange(c)
  {
    if key in c.table then c
    else match ChooseCandidate(c)
         case TakeIdle(i) => Restored(c, i)
         case _ => c
  }

  /** An admitted request names the manager's GPU, so the replica it asks for is the entry's only one. */
  ghost function Find(c: Cache, md: FrameMetadata): (f: Finding)
    requires IndicesInRange(c)
    ensures f.Readable? || f.FillableEmpty? || f.FillableIdle? ==> f.index < |c.entries|
    ensures f.FillableEmpty? ==> c.empties != []
  {
    if c.failed then Refused
    else if md.key in c.table then
      var e := c.entries[c.table[md.key]];
      if e.metadata != md then Refused
      else if e.state == Loading then StillLoading
      else if e.state != Valid then Corrupt
      else if e.buffer == NULL_POINTER || !e.replicaValid then MissingReplica
      else if !Joinable(c, c.table[md.key]) then Corrupt
      else Readable(c.table[md.key])
    else
      match ChooseCandidate(c)
      case TakeEmpty(i) => if SoundEmpty(c, i) then FillableEmpty(i) else Corrupt
      case TakeIdle(i) => if SoundIdle(c, i) then FillableIdle(i) else Corrupt
      case NoCandidate => if c.entries == [] then NoCapacity else Full
  }

  ghost predicate Obstructed(f: Finding) {
    f == StillLoading || f == Full
  }

  ghost function CountFirstBlock(c: Cache, f: Finding): Cache {
    c.(stats := c.stats.CountFirstBlock(f == StillLoading))
  }

  ghost predicate MayWait(c: Cache, deadline: int, now: int) {
    c.entries != [] && c.waitTimeout != 0 && now < deadline
  }

  ghost function TimeoutReason(c: Cache, f: Finding): CacheFallbackReason {
    if f == StillLoading then (if c.waitTimeout == 0 then LoadingNoWait else LoadingTimeout)
    else (if c.waitTimeout == 0 then FullNoWait else FullTimeout)
  }

  ghost function FallAsleep(c: Cache, waited: bool): Cache {
    c.(waiting := c.waiting + 1,
       stats := c.stats.CountWaiter(waited))
  }

  /** An obstructed request: it records its first obstruction, then sleeps or gives up. */
  ghost function Obstruct(c: Cache, f: Finding, md: FrameMetadata, req: GpuCacheRequest, p: Progress, now: int)
    : Pass
  {
    var c1 := if p.blocked then c else CountFirstBlock(c, f);
    var p1 := p.(blocked := true);
    if MayWait(c, p.deadline, now) then Pass(FallAsleep(c1, p.waited), p1.(waited := true), Sleeping)
    else Pass(ServeFallback(c1, TimeoutReason(c, f)), p1, Returned(FallbackLease(c, md, req)))
  }

  /**
   * One pass of the lookup loop, from holding the lock to returning or sleeping; `now` is the clock at the wait test.
   */
  ghost function Section(c: Cache, md: FrameMetadata, req: GpuCacheRequest, p: Progress, now: int)
    : Pass
    requires IndicesInRange(c)
  {
    match Find(c, md)
    case Refused => Pass(Reject(c), p, Returned(NO_ACCESS))
    case Corrupt => Pass(Reject(Spoiled(c, md.key)), p, Returned(NO_ACCESS))
    case MissingReplica => Pass(ServeFallback(c, ReplicaUnavailable), p, Returned(FallbackLease(c, md, req)))
    case Readable(i) => Pass(ServeHit(c, i), p, Returned(CacheLease(c, i, md, req, CacheHit)))
    case FillableEmpty(i) => Pass(FillEmpty(c, i, md), p, Returned(CacheLease(c, i, md, req, CacheFill)))
    case FillableIdle(i) => Pass(FillIdle(c, i, md), p, Returned(CacheLease(c, i, md, req, CacheFill)))
    case NoCapacity => Pass(ServeFallback(c, CapacityZero), p, Returned(FallbackLease(c, md, req)))
    case StillLoading => Obstruct(c, StillLoading, md, req, p, now)
    case Full => Obstruct(c, Full, md, req, p, now)
  }

  /** The clock's largest value; the deadline never passes it. */
  const CLOCK_MAX: int := 0x7FFF_FFFF_FFFF_FFFF
  const NANOSECONDS_PER_MILLISECOND: int := 1_000_000

  function Deadline(waitTimeout: nat, started: int): int {
    var maximumWait := (CLOCK_MAX - started) / NANOSECONDS_PER_MILLISECOND;
    started + (if waitTimeout < maximumWait then waitTimeout else maximumWait) * NANOSECONDS_PER_MILLISECOND
  }

  /** The first locked section of a request. */
  ghost function Lookup(c: Cache, md: FrameMetadata, req: GpuCacheRequest, started: int, now: int): Pass
    requires c.initialized ==> IndicesInRange(c)
  {
    var p := Progress(Deadline(c.waitTimeout, started), false, false, 0);
    if !Admits(c, md, req) then Pass(Reject(c), p, Returned(NO_ACCESS))
    else Section(c, md, req, p, now)
  }

  ghost function Wake(c: Cache, p: Progress, elapsed: nat): Pass {
    var requestWait := p.requestWait + elapsed;
    Pass(c.(waiting := if c.waiting > 0 then c.waiting - 1 else 0,
             stats := c.stats.CountWait(elapsed, requestWait)),
         p.(requestWait := requestWait), Sleeping)
  }

  // ---------------------------------------------------------------- completion

  ghost function DataForGpu(c: Cache, i: nat, gpuId: int): DevicePointer
    requires i < |c.entries|
  {
    if c.gpuId == Some(gpuId) then c.entries[i].buffer else NULL_POINTER
  }

  /** The lease still describes its entry. */
  ghost predicate Matches(c: Cache, a: Access) {
    && a.entryIndex < |c.entries|
    && c.entries[a.entryIndex].metadata.key == a.key
    && DataForGpu(c, a.entryIndex, a.gpuId) == a.data
    && a.bytes == c.dataBytes
  }

  ghost predicate ReadableLease(c: Cache, a: Access) {
    && Matches(c, a)
    && var e := c.entries[a.entryIndex];
       e.state == Valid && e.active > 0 && a.entryIndex !in c.idle
  }

  ghost predicate FillingLease(c: Cache, a: Access) {
    && Matches(c, a)
    && var e := c.entries[a.entryIndex];
       e.state == Loading && e.active == 1 && a.entryIndex !in c.idle
  }

  ghost function CountFill(c: Cache, ok: bool): Cache {
    c.(stats := c.stats.CountFillEnd(ok))
  }

  /** The explicit end of a lease: the new cache and what the caller is told. */
  ghost function Complete(c: Cache, a: Access, succeeded: bool, retention: CacheRetention): Reply {
    var running := c.initialized && !c.releasing;
    match a.status
    case TaskFallback =>
      var valid := running && c.fallbacks > 0 && a.entryIndex == NO_ENTRY && a.data != NULL_POINTER
        && a.bytes == c.dataBytes;
      Reply(if valid then c.(fallbacks := c.fallbacks - 1) else c, valid && succeeded)
    case CacheHit =>
      var valid := running && ReadableLease(c, a) && c.gpuId == Some(a.gpuId) && c.entries[a.entryIndex].replicaValid;
      Reply(if valid then EndReader(c, a.entryIndex, retention == Discard) else c, valid && succeeded)
    case CacheFill =>
      var valid := running && FillingLease(c, a);
      var published := valid && succeeded && c.gpuId == Some(a.gpuId);
      Reply(CountFill(if published then Publish(c, a.entryIndex, retention)
                      else if valid then ResetEntry(c, a.entryIndex)
                      else c, published),
            published)
    case Invalid => Reply(c, false)
  }

  /** The end of an unfinished lease by destruction or overwriting. */
  ghost function Abort(c: Cache, a: Access): Cache {
    match a.status
    case TaskFallback => if c.fallbacks > 0 then c.(fallbacks := c.fallbacks - 1) else c
    case CacheHit => if ReadableLease(c, a) then EndReader(c, a.entryIndex, false) else c
    case CacheFill =>
      var counted := CountFill(c, false);
      if FillingLease(c, a) then ResetEntry(counted, a.entryIndex) else counted
    case Invalid => c
  }

  ghost function NoteSyncFailure(c: Cache): Cache {
    c.(failed := true, stats := c.stats.CountSyncFailure(), notices := c.notices + 1)
  }

  // ---------------------------------------------------------------- life cycle

  ghost predicate CanReset(c: Cache) {
    && c.fallbacks == 0 && c.waiting == 0
    && (forall i :: 0 <= i < |c.entries| ==> c.entries[i].active == 0 && c.entries[i].state != Loading)
  }

  /** The stack [n - 1, ..., 1, 0], so that entry 0 is taken first. */
  ghost function CountDown(n: nat): (s: seq<nat>) {
    seq(n, i requires 0 <= i < n => n - 1 - i)
  }

  ghost function ResetEntries(c: Cache): Cache {
    c.(table := map[], idle := [], filled := [], empties := CountDown(|c.entries|),
       entries := seq(|c.entries|, i requires 0 <= i < |c.entries| => c.entries[i].Cleared()))
  }

  ghost function ResetCache(c: Cache): Reply {
    if c.initialized && !c.releasing && !c.failed && CanReset(c)
    then Reply(ResetEntries(c).(stats := NO_STATISTICS), true)
    else Reply(c, false)
  }

  ghost predicate NothingHeld(c: Cache) {
    !c.initialized && c.entries == [] && c.gpuId == None && c.empties == []
  }

  datatype ReleaseStart = AlreadyReleased | ReleaseRejected | ReleaseStarted(cache: Cache)

  ghost function BeginRelease(c: Cache): ReleaseStart {
    if NothingHeld(c) then AlreadyReleased
    else if c.releasing || !CanReset(c) then ReleaseRejected
    else ReleaseStarted(c.(initialized := false, releasing := true))
  }

  /** Freeing one entry's buffer; `freed` is false when the driver refuses. */
  ghost function FreeEntry(e: Entry, freed: bool): Entry {
    if e.buffer == NULL_POINTER || freed then Entry(DEFAULT_METADATA, Empty, 0, false, NULL_POINTER, false) else e
  }

  ghost function FreedEntries(entries: seq<Entry>, freed: seq<bool>): (after: seq<Entry>)
    requires |freed| == |entries|
    ensures |after| == |entries|
  {
    seq(|freed|, i requires 0 <= i < |freed| => FreeEntry(entries[i], freed[i]))
  }

  ghost predicate AllNull(entries: seq<Entry>) {
    forall i :: 0 <= i < |entries| ==> entries[i].buffer == NULL_POINTER
  }

  ghost function Emptied(c: Cache): Cache {
    c.(entries := [], gpuId := None, table := map[], empties := [], idle := [], filled := [], dataBytes := 0,
       fallbacks := 0, failed := false, initialized := false, releasing := false)
  }

  /** The end of a release: the manager is empty unless some buffer could not be freed. */
  ghost function EndRelease(c: Cache, freed: seq<bool>): Cache
    requires |freed| == |c.entries|
  {
    var entries := FreedEntries(c.entries, freed);
    if AllNull(entries) then Emptied(c) else c.(entries := entries, releasing := false)
  }

  ghost predicate CanInitialize(c: Cache, gpuIds: seq<int>, bytes: nat, waitTimeout: int) {
    && !c.initialized && !c.releasing && c.entries == [] && c.gpuId == None && c.empties == []
    && |gpuIds| == 1 && gpuIds[0] >= 0 && bytes != 0 && waitTimeout >= 0
  }

  ghost function FreshEntry(buffer: DevicePointer): Entry {
    Entry(DEFAULT_METADATA, Empty, 0, false, buffer, false)
  }

  ghost function FreshEntries(buffers: seq<DevicePointer>): (entries: seq<Entry>)
    ensures |entries| == |buffers| && forall i :: 0 <= i < |entries| ==> entries[i] == FreshEntry(buffers[i])
  {
    seq(|buffers|, i requires 0 <= i < |buffers| => FreshEntry(buffers[i]))
  }

  /** A fresh manager over the given device buffers. */
  ghost function Initialized(c: Cache, gpuId: int, bytes: nat, buffers: seq<DevicePointer>, waitTimeout: nat,
                             policy: CacheEvictionPolicy): Cache
  {
    c.(initialized := true, failed := false, policy := policy, waitTimeout := waitTimeout, dataBytes := bytes,
       gpuId := Some(gpuId), fallbacks := 0, stats := NO_STATISTICS,
       table := map[], idle := [], filled := [], empties := CountDown(|buffers|),
       entries := FreshEntries(buffers))
  }
}
