/**
 * The guarantees of the cache over whole runs: any number of callers, any interleaving, any policy,
 * including resets, releases, re-initialisations and synchronization failures.
 */
module CacheTheorems {
  import opened GpuTypes
  import opened CacheSpec
  import opened CacheInvariant
  import opened CacheLeases
  import opened CacheSystem
  import opened CacheRuns
  import opened CacheCoherence
  import opened CacheWaiting
  import opened CacheCounters
  import opened CacheOrder

  ghost predicate Next(s: System, step: Step, s': System, payload: Payload) {
    && Enabled(s, step, payload)
    && (s.cache.initialized || s.sleepers.Keys != {} ==> IndicesInRange(s.cache))
    && s' == Apply(s, step)
  }

  ghost predicate IsRun(states: seq<System>, steps: seq<Step>, payload: Payload) {
    && |states| == |steps| + 1 && Start(states[0])
    && (forall k :: 0 <= k < |steps| ==> Next(states[k], steps[k], states[k + 1], payload))
  }

  ghost predicate AllInv(s: System, payload: Payload) {
    SysInv(s) && MemoryInv(s, payload) && WaitInv(s) && CounterInv(s) && OrderInv(s)
  }

  lemma AllKeep(s: System, step: Step, s': System, payload: Payload)
    requires AllInv(s, payload) && Next(s, step, s', payload)
    ensures AllInv(s', payload)
  {
    hide SysInv, MemoryInv, WaitInv, CounterInv, OrderInv, Apply, Enabled, IndicesInRange;
    StepKeeps(s, step, payload);
    MemoryKeeps(s, step, payload);
    WaitingKeeps(s, step, payload);
    CountersKeep(s, step, payload);
    OrderKeeps(s, step, payload);
  }

  lemma AllStart(s: System, payload: Payload)
    requires Start(s)
    ensures AllInv(s, payload)
  {
    hide Start, SysInv, MemoryInv, WaitInv, CounterInv, OrderInv;
    StartHolds(s);
    StartStatistics(s);
    FreshCounts(s);
    NothingAtStart(s, payload);
  }

  lemma StartStatistics(s: System)
    requires Start(s)
    ensures s.cache.stats == NO_STATISTICS && s.cache.entries == [] && s.answered == 0 && s.sleepers == map[]
  {
  }

  lemma NothingAtStart(s: System, payload: Payload)
    requires Start(s)
    ensures MemoryInv(s, payload) && WaitInv(s) && OrderInv(s)
  {
  }

  /** Every state of every run satisfies every invariant. */
  lemma {:induction false} RunsAreSafe(states: seq<System>, steps: seq<Step>, payload: Payload, k: nat)
    requires IsRun(states, steps, payload) && k < |states|
    ensures AllInv(states[k], payload)
  {
    hide AllInv, Next, Start;
    if k == 0 {
      AllStart(states[0], payload);
    } else {
      RunsAreSafe(states, steps, payload, k - 1);
      AllKeep(states[k - 1], steps[k - 1], states[k], payload);
    }
  }

  /** Coherence over runs. */
  lemma HitsAreCoherent(states: seq<System>, steps: seq<Step>, payload: Payload, k: nat, id: nat)
    requires IsRun(states, steps, payload) && k < |states|
    requires Live(states[k], id) && states[k].accesses[id].status == CacheHit
    ensures var s, a := states[k], states[k].accesses[id];
            && a.data in s.memory && s.memory[a.data] == payload(a.key)
            && forall other :: Live(s, other) && s.accesses[other].Writable() ==> s.accesses[other].data != a.data
  {
    RunsAreSafe(states, steps, payload, k);
    HitsReadThePayload(states[k], payload, id);
  }

  /** The reader and filler counts are the numbers of live leases, in every state of every run. */
  lemma CountsAreLeases(states: seq<System>, steps: seq<Step>, payload: Payload, k: nat, i: nat)
    requires IsRun(states, steps, payload) && k < |states| && i < |states[k].cache.entries|
    ensures var s := states[k];
            && s.cache.entries[i].active == |Holders(s.accesses, i)|
            && s.cache.fallbacks == |FallbackHolders(s.accesses)|
            && s.cache.waiting == |s.sleepers|
  {
    RunsAreSafe(states, steps, payload, k);
    assert Counted(states[k].cache, states[k].accesses, i);
  }

  /** While a lease lives, its entry keeps its key, its state and its buffer, and the manager keeps running. */
  lemma LeasedEntryStays(s: System, step: Step, s': System, payload: Payload, id: nat)
    requires AllInv(s, payload) && Next(s, step, s', payload)
    requires Live(s, id) && s.accesses[id].status != TaskFallback
    requires id in s'.accesses && s'.accesses[id] == s.accesses[id]
    ensures var i := s.accesses[id].entryIndex;
            && s'.cache.initialized && i < |s.cache.entries| && i < |s'.cache.entries|
            && s'.cache.entries[i].metadata.key == s.cache.entries[i].metadata.key
            && s'.cache.entries[i].state == s.cache.entries[i].state
            && s'.cache.entries[i].buffer == s.cache.entries[i].buffer
            && s'.cache.entries[i].active > 0
  {
    AllKeep(s, step, s', payload);
    LiveLeaseMeansRunning(s', id);
    assert LeaseOk(s.cache, s.accesses[id]) && LeaseOk(s'.cache, s'.accesses[id]);
    HoldersOf(s'.cache, s'.accesses, s.accesses[id].entryIndex, id);
  }

  /** Moving a lease hands over exactly that lease, and the number of live leases stays the same. */
  lemma MovesPreserveLeases(s: System, source: nat, destination: nat, payload: Payload)
    requires SysInv(s) && Enabled(s, Move(source, destination), payload)
    requires s.cache.initialized ==> IndicesInRange(s.cache)
    requires s.sleepers.Keys != {} ==> IndicesInRange(s.cache)
    ensures var s' := Apply(s, Move(source, destination));
            && s'.cache == s.cache && s'.accesses[destination] == s.accesses[source] && !Live(s', source)
            && forall i :: |Holders(s'.accesses, i)| == |Holders(s.accesses, i)|
  {
    var a := s.accesses[source];
    var accesses1 := s.accesses[destination := a];
    forall i
      ensures |Holders(accesses1[source := NO_ACCESS], i)| == |Holders(s.accesses, i)|
    {
      HoldersAfterPut(s.accesses, destination, a, i);
      HoldersAfterTake(accesses1, source, i);
    }
  }

  // ---------------------------------------------------------------- sticky discard

  predicate Pending(c: Cache, i: nat) {
    i < |c.entries| && c.entries[i].discard
  }

  /** A pending discard implies a reader that is still out. */
  lemma PendingHasReader(s: System, i: nat)
    requires SysInv(s) && s.cache.initialized && Pending(s.cache, i)
    ensures s.cache.entries[i].state == Valid && s.cache.entries[i].active > 0
    ensures exists id :: Live(s, id) && s.accesses[id].status == CacheHit && s.accesses[id].entryIndex == i
  {
    assert Placed(s.cache, i) && Counted(s.cache, s.accesses, i);
    var id :| id in Holders(s.accesses, i);
    assert LeaseOk(s.cache, s.accesses[id]);
    assert Live(s, id);
  }

  /** The step ends a lease on entry `i`. */
  ghost predicate EndsLeaseOn(s: System, step: Step, i: nat) {
    match step
    case Finish(id, _, _) => Live(s, id) && s.accesses[id].Holds(i)
    case Drop(id) => Live(s, id) && s.accesses[id].Holds(i)
    case _ => false
  }

  /** What becomes of a resident entry whose discard is pending. */
  ghost predicate DiscardProgress(c: Cache, c': Cache, i: nat, last: bool)
    requires i < |c.entries| && |c'.entries| == |c.entries|
  {
    if last then
      && c'.entries[i].state == Empty && c.entries[i].metadata.key !in c'.table
      && c'.stats.discard == c.stats.discard + 1 && c'.notices > c.notices
    else
      && c'.entries[i].discard && c'.entries[i].state == Valid && c'.entries[i].metadata == c.entries[i].metadata
      && c.entries[i].metadata.key in c'.table && c'.table[c.entries[i].metadata.key] == i
  }

  lemma ReaderEndAndDiscard(c: Cache, j: nat, discardNow: bool, i: nat)
    requires RepInv(c) && j < |c.entries| && c.entries[j].state == Valid && c.entries[j].active > 0 && i < |c.entries|
    requires c.entries[i].discard || (i == j && discardNow)
    ensures DiscardProgress(c, EndReader(c, j, discardNow), i, i == j && c.entries[i].active == 1)
  {
    assert Placed(c, i) && Placed(c, j);
  }

  lemma FillEndAndDiscard(c: Cache, j: nat, succeeded: bool, retention: CacheRetention, i: nat)
    requires RepInv(c) && j < |c.entries| && c.entries[j].state == Loading && Pending(c, i)
    ensures var c' := CountFill(if succeeded then Publish(c, j, retention) else ResetEntry(c, j), succeeded);
            DiscardProgress(c, c', i, false)
  {
    assert Placed(c, i) && Placed(c, j);
  }

  lemma LookupAndDiscard(c: Cache, md: FrameMetadata, req: GpuCacheRequest, p: Progress, now: int, i: nat)
    requires RepInv(c) && Pending(c, i)
    ensures IndicesInRange(c)
    ensures var c' := Section(c, md, req, p, now).cache;
            |c'.entries| == |c.entries| && DiscardProgress(c, c', i, false)
  {
    hide RepInv, Find, Section, IndicesInRange, Served, Placed;
    PendingBlocksReset(c, i);
    ServedAndDiscard(c, md, i);
    SectionEffect(c, md, req, p, now);
  }

  lemma ServedAndDiscard(c: Cache, md: FrameMetadata, i: nat)
    requires RepInv(c) && Pending(c, i)
    ensures IndicesInRange(c) && |Served(c, md).entries| == |c.entries| && DiscardProgress(c, Served(c, md), i, false)
  {
    hide RepInv, Find, IndicesInRange, Spoiled, Placed, DiscardProgress, ServeHit, FillEmpty, FillIdle;
    PendingBlocksReset(c, i);
    FindingIsTrue(c, md);
    match Find(c, md)
    case Readable(j) => HitAndDiscard(c, j, i);
    case FillableEmpty(j) => ReservationAndDiscard(c, j, md, i);
    case FillableIdle(j) => ReservationAndDiscard(c, j, md, i);
    case _ => UnchangedAndDiscard(c, c, i);
  }

  lemma HitAndDiscard(c: Cache, j: nat, i: nat)
    requires Pending(c, i) && Placed(c, i) && j < |c.entries| && c.entries[j].state == Valid
    ensures |ServeHit(c, j).entries| == |c.entries| && DiscardProgress(c, ServeHit(c, j), i, false)
  {
    hide Without;
  }

  /** A reservation takes an unread entry, so never one with a pending discard. */
  lemma ReservationAndDiscard(c: Cache, j: nat, md: FrameMetadata, i: nat)
    requires Pending(c, i) && Placed(c, i) && j < |c.entries| && c.entries[j].active == 0 && md.key !in c.table
    ensures c.empties != [] ==>
              |FillEmpty(c, j, md).entries| == |c.entries| && DiscardProgress(c, FillEmpty(c, j, md), i, false)
    ensures |FillIdle(c, j, md).entries| == |c.entries| && DiscardProgress(c, FillIdle(c, j, md), i, false)
  {
    hide Without;
  }

  /**
   * Sticky discard: once marked, an entry stays resident and marked through every step, whichever
   * readers join or leave and however they leave, until the step that ends its last reader; that step
   * removes it, counts it once and wakes the waiting requests.
   */
  lemma DiscardIsSticky(s: System, step: Step, s': System, payload: Payload, i: nat)
    requires SysInv(s) && s.cache.initialized && Next(s, step, s', payload) && Pending(s.cache, i)
    ensures |s'.cache.entries| == |s.cache.entries|
    ensures DiscardProgress(s.cache, s'.cache, i, EndsLeaseOn(s, step, i) && s.cache.entries[i].active == 1)
  {
    hide Section, Complete, Abort, IndicesInRange, DiscardProgress, RepInv, LeaseInv, Placed, CanReset, SysInv,
         IdleStamps, FillStamps, Notified;
    RunningIsRep(s);
    PendingBlocksReset(s.cache, i);
    match step
    case Begin(call, md, req, started, now) =>
      if Admits(s.cache, md, req) {
        LookupAndDiscard(s.cache, md, req, Progress(Deadline(s.cache.waitTimeout, started), false, false, 0), now, i);
      } else {
        UnchangedAndDiscard(s.cache, s'.cache, i);
      }
    case Resume(call, elapsed, now) =>
      WakeUpKeeps(s, call, elapsed);
      LookupAndDiscard(WakeUp(s, call, elapsed).cache, s.sleepers[call].md, s.sleepers[call].req,
                       Wake(s.cache, s.sleepers[call].progress, elapsed).progress, now, i);
      BookkeepingAndDiscard(s.cache, WakeUp(s, call, elapsed).cache, s'.cache, i);
    case Write(id, bytes) => UnchangedAndDiscard(s.cache, s'.cache, i);
    case WriteElsewhere(pointer, bytes) => UnchangedAndDiscard(s.cache, s'.cache, i);
    case Finish(id, succeeded, retention) =>
      LiveLeaseMeansRunning(s, id);
      FinishAndDiscard(s.cache, s.accesses, id, succeeded, retention, i);
    case Drop(id) =>
      LiveLeaseMeansRunning(s, id);
      DropAndDiscard(s.cache, s.accesses, id, i);
    case SyncFailure(id) => UnchangedAndDiscard(s.cache, s'.cache, i);
    case Move(source, destination) => UnchangedAndDiscard(s.cache, s'.cache, i);
    case Reset => UnchangedAndDiscard(s.cache, s'.cache, i);
    case StartRelease => UnchangedAndDiscard(s.cache, s'.cache, i);
    case FinishRelease(freed) =>
    case Initialize(gpuIds, bytes, buffers, waitTimeout, policy) => UnchangedAndDiscard(s.cache, s'.cache, i);
  }

  lemma PendingBlocksReset(c: Cache, i: nat)
    requires RepInv(c) && Pending(c, i)
    ensures Placed(c, i) && !CanReset(c)
  {
    assert Placed(c, i);
  }

  lemma UnchangedAndDiscard(c: Cache, c': Cache, i: nat)
    requires Pending(c, i) && Placed(c, i) && c'.entries == c.entries && c'.table == c.table
    ensures DiscardProgress(c, c', i, false)
  {
  }

  lemma BookkeepingAndDiscard(c: Cache, c1: Cache, c': Cache, i: nat)
    requires Pending(c, i) && c1.entries == c.entries && c1.table == c.table && |c'.entries| == |c.entries|
    requires DiscardProgress(c1, c', i, false)
    ensures DiscardProgress(c, c', i, false)
  {
  }

  lemma FinishAndDiscard(c: Cache, accesses: Accesses, id: nat, succeeded: bool, retention: CacheRetention, i: nat)
    requires c.initialized && !c.releasing && RepInv(c) && LeaseInv(c, accesses) && id in accesses && accesses[id].live
    requires Pending(c, i)
    ensures var c' := Complete(c, accesses[id], succeeded, retention).cache;
            |c'.entries| == |c.entries| && DiscardProgress(c, c', i, accesses[id].Holds(i) && c.entries[i].active == 1)
  {
    CompletionIsValid(c, accesses, id, succeeded, retention);
    var a := accesses[id];
    assert LeaseOk(c, a) && Placed(c, i) && |c.entries| < NO_ENTRY;
    hide RepInv, LeaseInv, Complete, DiscardProgress;
    match a.status {
      case CacheHit =>
        ReaderEndAndDiscard(c, a.entryIndex, retention == Discard, i);
      case CacheFill => FillEndAndDiscard(c, a.entryIndex, succeeded, retention, i);
      case TaskFallback => UnchangedAndDiscard(c, Complete(c, a, succeeded, retention).cache, i);
    }
  }

  lemma DropAndDiscard(c: Cache, accesses: Accesses, id: nat, i: nat)
    requires RepInv(c) && LeaseInv(c, accesses) && id in accesses && accesses[id].live && Pending(c, i)
    ensures var c' := Abort(c, accesses[id]);
            |c'.entries| == |c.entries| && DiscardProgress(c, c', i, accesses[id].Holds(i) && c.entries[i].active == 1)
  {
    AbortIsValid(c, accesses, id);
    var a := accesses[id];
    assert LeaseOk(c, a) && Placed(c, i) && |c.entries| < NO_ENTRY;
    hide RepInv, LeaseInv, Abort, DiscardProgress;
    match a.status {
      case CacheHit => ReaderEndAndDiscard(c, a.entryIndex, false, i);
      case CacheFill => FillEndAndDiscard(c, a.entryIndex, false, Keep, i);
      case TaskFallback => UnchangedAndDiscard(c, Abort(c, a), i);
    }
  }
}
