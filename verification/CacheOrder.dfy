/**
 * Eviction order: the two intrusive orders refine reference time stamps. `idleAt` records when an entry
 * last became idle and `filledAt` when its fill completed; neither is read by the cache itself.
 */
module CacheOrder {
  import opened Counting
  import opened GpuTypes
  import opened CacheSpec
  import opened CacheInvariant
  import opened CacheLeases
  import opened CacheSystem
  import opened CacheRuns

  ghost predicate SortedBy(order: seq<nat>, stamps: seq<nat>, tick: nat) {
    && (forall a :: 0 <= a < |order| ==> order[a] < |stamps| && stamps[order[a]] < tick)
    && (forall a, b :: 0 <= a < b < |order| ==> stamps[order[a]] < stamps[order[b]])
  }

  ghost predicate OrderInv(s: System) {
    s.cache.initialized ==> SortedBy(s.cache.idle, s.idleAt, s.tick) && SortedBy(s.cache.filled, s.filledAt, s.tick)
  }

  /** One section may drop one element of an order or append one. */
  ghost predicate OneChange(old_: seq<nat>, new_: seq<nat>) {
    new_ == old_ || (exists i :: new_ == Without(old_, i)) || (exists i :: new_ == old_ + [i])
  }

  lemma {:induction false} WithoutIsSubsequence(s: seq<nat>, x: nat) returns (from: seq<nat>)
    ensures |from| == |Without(s, x)|
    ensures forall a :: 0 <= a < |from| ==> from[a] < |s| && s[from[a]] == Without(s, x)[a]
    ensures forall a, b :: 0 <= a < b < |from| ==> from[a] < from[b]
  {
    if s == [] {
      from := [];
    } else if s[0] == x {
      from := seq(|s| - 1, i requires 0 <= i => i + 1);
    } else {
      var rest := WithoutIsSubsequence(s[1..], x);
      from := [0] + seq(|rest|, i requires 0 <= i < |rest| => rest[i] + 1);
    }
  }

  /** Any order whose members keep their stamps, except for newcomers at the end stamped now, stays sorted. */
  lemma OrderStaysSorted(order: seq<nat>, order': seq<nat>, stamps: seq<nat>, stamps': seq<nat>, tick: nat)
    requires SortedBy(order, stamps, tick) && OneChange(order, order') && Distinct(order')
    requires forall i :: i in order && i in order' ==> i < |stamps'| && stamps'[i] == stamps[i]
    requires forall i :: i !in order && i in order' ==> i < |stamps'| && stamps'[i] == tick
    ensures SortedBy(order', stamps', tick + 1)
  {
    hide Distinct;
    if order' == order {
      SameIsSorted(order, stamps, stamps', tick);
    } else if exists i :: order' == Without(order, i) {
      var i :| order' == Without(order, i);
      RestIsSorted(order, i, stamps, stamps', tick);
    } else {
      var i :| order' == order + [i];
      AppendedIsSorted(order, i, stamps, stamps', tick);
    }
  }

  lemma SameIsSorted(order: seq<nat>, stamps: seq<nat>, stamps': seq<nat>, tick: nat)
    requires SortedBy(order, stamps, tick)
    requires forall i :: i in order ==> i < |stamps'| && stamps'[i] == stamps[i]
    ensures SortedBy(order, stamps', tick + 1)
  {
  }

  lemma RestIsSorted(order: seq<nat>, i: nat, stamps: seq<nat>, stamps': seq<nat>, tick: nat)
    requires SortedBy(order, stamps, tick)
    requires forall y :: y in order && y in Without(order, i) ==> y < |stamps'| && stamps'[y] == stamps[y]
    requires forall y :: y !in order && y in Without(order, i) ==> y < |stamps'| && stamps'[y] == tick
    ensures SortedBy(Without(order, i), stamps', tick + 1)
  {
    var from := WithoutIsSubsequence(order, i);
    var rest := Without(order, i);
    assert forall a :: 0 <= a < |rest| ==> rest[a] in rest;
  }

  lemma AppendedIsSorted(order: seq<nat>, i: nat, stamps: seq<nat>, stamps': seq<nat>, tick: nat)
    requires SortedBy(order, stamps, tick) && Distinct(order + [i])
    requires forall y :: y in order && y in order + [i] ==> y < |stamps'| && stamps'[y] == stamps[y]
    requires forall y :: y !in order && y in order + [i] ==> y < |stamps'| && stamps'[y] == tick
    ensures SortedBy(order + [i], stamps', tick + 1)
  {
    var order' := order + [i];
    assert forall a :: 0 <= a < |order| ==> order'[a] == order[a] && order[a] in order';
    assert order'[|order|] == i && i in order';
    assert i !in order;
  }

  lemma IdleOrderKeeps(c: Cache, c': Cache, tick: nat, stamps: seq<nat>)
    requires RepInv(c) && RepInv(c') && |c'.entries| == |c.entries| && OneChange(c.idle, c'.idle)
    requires SortedBy(c.idle, stamps, tick)
    ensures SortedBy(c'.idle, IdleStamps(c, c', tick, stamps), tick + 1)
  {
    forall i | i in c'.idle
      ensures i < |c'.entries| && IsIdle(c', i) && (i in c.idle <==> IsIdle(c, i))
    {
      assert Placed(c', i) && Placed(c, i);
    }
    OrderStaysSorted(c.idle, c'.idle, stamps, IdleStamps(c, c', tick, stamps), tick);
  }

  lemma FillOrderKeeps(c: Cache, c': Cache, tick: nat, stamps: seq<nat>)
    requires RepInv(c) && RepInv(c') && |c'.entries| == |c.entries| && OneChange(c.filled, c'.filled)
             && c'.policy == c.policy
    requires SortedBy(c.filled, stamps, tick)
    ensures SortedBy(c'.filled, FillStamps(c, c', tick, stamps), tick + 1)
  {
    forall i | i in c'.filled
      ensures i < |c'.entries| && IsFilled(c', i) && (i in c.filled <==> IsFilled(c, i))
    {
      assert Placed(c', i) && Placed(c, i);
    }
    OrderStaysSorted(c.filled, c'.filled, stamps, FillStamps(c, c', tick, stamps), tick);
  }

  ghost predicate OrdersMove(c: Cache, c': Cache) {
    OneChange(c.idle, c'.idle) && OneChange(c.filled, c'.filled)
  }

  lemma SettleKeepsOrder(s: System, s': System, c': Cache)
    requires s.cache.initialized && OrderInv(s) && RepInv(s.cache) && RepInv(c') && SameShape(s.cache, c')
             && OrdersMove(s.cache, c')
    requires s'.cache == c' && s'.tick == s.tick + 1
    requires s'.idleAt == IdleStamps(s.cache, c', s.tick, s.idleAt)
             && s'.filledAt == FillStamps(s.cache, c', s.tick, s.filledAt)
    ensures OrderInv(s')
  {
    IdleOrderKeeps(s.cache, c', s.tick, s.idleAt);
    FillOrderKeeps(s.cache, c', s.tick, s.filledAt);
  }

  // ---------------------------------------------------------------- sections

  lemma SectionMovesOrders(c: Cache, md: FrameMetadata, req: GpuCacheRequest, p: Progress, now: int)
    requires RepInv(c)
    ensures IndicesInRange(c) && OrdersMove(c, Section(c, md, req, p, now).cache)
  {
    hide RepInv, Find, Section, IndicesInRange, Without, Spoiled;
    FindingIsTrue(c, md);
    SectionEffect(c, md, req, p, now);
  }

  lemma CompletionMovesOrders(c: Cache, accesses: Accesses, id: nat, succeeded: bool, retention: CacheRetention)
    requires c.initialized && !c.releasing && RepInv(c) && LeaseInv(c, accesses) && id in accesses && accesses[id].live
    ensures OrdersMove(c, Complete(c, accesses[id], succeeded, retention).cache)
  {
    CompletionIsValid(c, accesses, id, succeeded, retention);
    LoadingIsNowhere(c, accesses[id].entryIndex);
    hide RepInv, LeaseInv, Complete;
  }

  lemma AbortMovesOrders(c: Cache, accesses: Accesses, id: nat)
    requires RepInv(c) && LeaseInv(c, accesses) && id in accesses && accesses[id].live
    ensures OrdersMove(c, Abort(c, accesses[id]))
  {
    AbortIsValid(c, accesses, id);
    LoadingIsNowhere(c, accesses[id].entryIndex);
    hide RepInv, LeaseInv, Abort;
  }

  lemma LoadingIsNowhere(c: Cache, i: nat)
    requires RepInv(c)
    ensures i < |c.entries| && c.entries[i].state == Loading ==>
            Without(c.idle, i) == c.idle && Without(c.filled, i) == c.filled
  {
    if i < |c.entries| && c.entries[i].state == Loading {
      assert Placed(c, i);
      WithoutAbsent(c.idle, i);
      WithoutAbsent(c.filled, i);
    }
  }

  lemma RunningIsRep(s: System)
    requires SysInv(s) && s.cache.initialized
    ensures RepInv(s.cache) && !s.cache.releasing
  {
  }

  lemma LookupKeepsOrder(s: System, call: nat, md: FrameMetadata, req: GpuCacheRequest, p: Progress, now: int)
    requires SysInv(s) && s.cache.initialized && RequestFits(s.cache, md, req) && call !in s.sleepers && !Live(s, call)
             && OrderInv(s)
    ensures IndicesInRange(s.cache)
    ensures var Pass(c', p', out) := Section(s.cache, md, req, p, now);
            OrderInv(Conclude(s, call, md, req, c', p', out))
  {
    SectionKeeps(s, call, md, req, p, now);
    SectionMovesOrders(s.cache, md, req, p, now);
    var Pass(c', p', out) := Section(s.cache, md, req, p, now);
    RunningIsRep(s);
    RunningIsRep(Conclude(s, call, md, req, c', p', out));
    hide Section, SysInv, RepInv, OrderInv, IndicesInRange, SortedBy, OrdersMove;
    SettleKeepsOrder(s, Conclude(s, call, md, req, c', p', out), c');
  }

  lemma LeaseEndKeepsOrder(s: System, s': System, c': Cache)
    requires SysInv(s) && s.cache.initialized && OrderInv(s) && OrdersMove(s.cache, c') && SameShape(s.cache, c')
             && RepInv(c')
    requires s' == Settle(s, c').(accesses := s'.accesses)
    ensures OrderInv(s')
  {
    RunningIsRep(s);
    SettleKeepsOrder(s, s', c');
  }

  lemma OnlyOrderMatters(s: System, s': System)
    requires OrderInv(s) && s'.tick == s.tick && s'.idleAt == s.idleAt && s'.filledAt == s.filledAt
    requires s'.cache.initialized ==>
               s.cache.initialized && s'.cache.idle == s.cache.idle && s'.cache.filled == s.cache.filled
    ensures OrderInv(s')
  {
  }

  lemma EmptyOrders(s: System)
    requires s.cache.initialized ==> s.cache.idle == [] && s.cache.filled == []
    ensures OrderInv(s)
  {
  }

  lemma FinishKeepsOrder(s: System, id: nat, succeeded: bool, retention: CacheRetention)
    requires SysInv(s) && OrderInv(s) && Live(s, id)
    ensures var c' := Complete(s.cache, s.accesses[id], succeeded, retention).cache;
            OrderInv(Settle(s, c').(accesses := s.accesses[id := NO_ACCESS]))
  {
    LiveLeaseMeansRunning(s, id);
    var c' := Complete(s.cache, s.accesses[id], succeeded, retention).cache;
    CompletionKeeps(s.cache, s.accesses, id, succeeded, retention);
    CompletionMovesOrders(s.cache, s.accesses, id, succeeded, retention);
    hide Complete, RepInv, OrdersMove;
    LeaseEndKeepsOrder(s, Settle(s, c').(accesses := s.accesses[id := NO_ACCESS]), c');
  }

  lemma DropKeepsOrder(s: System, id: nat)
    requires SysInv(s) && OrderInv(s) && Live(s, id)
    ensures OrderInv(Settle(s, Abort(s.cache, s.accesses[id])).(accesses := s.accesses[id := NO_ACCESS]))
  {
    LiveLeaseMeansRunning(s, id);
    var c' := Abort(s.cache, s.accesses[id]);
    AbortKeeps(s.cache, s.accesses, id);
    AbortMovesOrders(s.cache, s.accesses, id);
    hide Abort, RepInv, OrdersMove;
    LeaseEndKeepsOrder(s, Settle(s, c').(accesses := s.accesses[id := NO_ACCESS]), c');
  }

  lemma SyncFailureKeepsOrder(s: System, id: nat)
    requires SysInv(s) && OrderInv(s) && Live(s, id)
    ensures OrderInv(Settle(s, NoteSyncFailure(s.cache)))
  {
    LiveLeaseMeansRunning(s, id);
    var c' := NoteSyncFailure(s.cache);
    StatsDoNotMatter(s.cache, c');
    LeaseEndKeepsOrder(s, Settle(s, c'), c');
  }

  lemma OrderKeeps(s: System, step: Step, payload: Payload)
    requires SysInv(s) && OrderInv(s) && Enabled(s, step, payload)
    ensures s.cache.initialized || s.sleepers.Keys != {} ==> IndicesInRange(s.cache)
    ensures OrderInv(Apply(s, step))
  {
    hide SysInv, RepInv, LeaseInv, OrderInv, Section, Complete, Abort, Conclude, CanInitialize, CanReset;
    StepKeeps(s, step, payload);
    match step
    case Begin(call, md, req, started, now) =>
      if Admits(s.cache, md, req) {
        AdmittedFits(s, md, req);
        LookupKeepsOrder(s, call, md, req, Progress(Deadline(s.cache.waitTimeout, started), false, false, 0), now);
      } else {
        RejectionKeepsOrder(s, call, md, req, Progress(Deadline(s.cache.waitTimeout, started), false, false, 0));
      }
    case Resume(call, elapsed, now) =>
      WakeUpKeeps(s, call, elapsed);
      SleeperIsNotLive(s, call);
      OnlyOrderMatters(s, WakeUp(s, call, elapsed));
      LookupKeepsOrder(WakeUp(s, call, elapsed), call, s.sleepers[call].md, s.sleepers[call].req,
                       Wake(s.cache, s.sleepers[call].progress, elapsed).progress, now);
    case Write(id, bytes) => OnlyOrderMatters(s, Apply(s, step));
    case WriteElsewhere(pointer, bytes) => OnlyOrderMatters(s, Apply(s, step));
    case Finish(id, succeeded, retention) => FinishKeepsOrder(s, id, succeeded, retention);
    case Drop(id) => DropKeepsOrder(s, id);
    case SyncFailure(id) => SyncFailureKeepsOrder(s, id);
    case Move(source, destination) => OnlyOrderMatters(s, Apply(s, step));
    case Reset => LifeCycleKeepsOrder(s, step);
    case StartRelease => LifeCycleKeepsOrder(s, step);
    case FinishRelease(freed) => LifeCycleKeepsOrder(s, step);
    case Initialize(gpuIds, bytes, buffers, waitTimeout, policy) => LifeCycleKeepsOrder(s, step);
  }

  lemma AdmittedFits(s: System, md: FrameMetadata, req: GpuCacheRequest)
    requires Admits(s.cache, md, req) && !IsBuffer(s.cache, req.d_fallback)
    ensures s.cache.initialized && RequestFits(s.cache, md, req)
  {
  }

  lemma SleeperIsNotLive(s: System, call: nat)
    requires SysInv(s) && call in s.sleepers
    ensures !Live(s, call)
  {
  }

  lemma LifeCycleKeepsOrder(s: System, step: Step)
    requires SysInv(s) && OrderInv(s)
    requires s.cache.initialized || s.sleepers.Keys != {} ==> IndicesInRange(s.cache)
    requires step.Reset? || step.StartRelease? || step.Initialize? ||
             (step.FinishRelease? && s.cache.releasing && |step.freed| == |s.cache.entries|)
    ensures OrderInv(Apply(s, step))
  {
    if Apply(s, step) != s {
      EmptyOrders(Apply(s, step));
    }
  }

  lemma RejectionKeepsOrder(s: System, call: nat, md: FrameMetadata, req: GpuCacheRequest, p: Progress)
    requires SysInv(s) && OrderInv(s)
    ensures OrderInv(Conclude(s, call, md, req, Reject(s.cache), p, Returned(NO_ACCESS)))
  {
    if s.cache.initialized {
      StatsDoNotMatter(s.cache, Reject(s.cache));
      SettleKeepsOrder(s, Conclude(s, call, md, req, Reject(s.cache), p, Returned(NO_ACCESS)), Reject(s.cache));
    }
  }

  // ---------------------------------------------------------------- the victim

  /** The policy's own time stamp of an entry. */
  ghost function Age(s: System, i: nat): nat {
    var stamps := if s.cache.policy == LRU then s.idleAt else s.filledAt;
    if i < |stamps| then stamps[i] else 0
  }

  /**
   * When a reservation has to evict, no entry is empty, and the victim is the idle entry that became idle
   * first (LRU) or whose fill completed first (FIFO), strictly before every other idle entry.
   */
  lemma VictimIsOldest(s: System, md: FrameMetadata)
    requires SysInv(s) && s.cache.initialized && OrderInv(s)
    ensures IndicesInRange(s.cache)
    ensures Find(s.cache, md).FillableIdle? ==>
              var victim := Find(s.cache, md).index;
              && s.cache.empties == [] && IsIdle(s.cache, victim)
              && forall i :: IsIdle(s.cache, i) && i != victim ==> Age(s, victim) < Age(s, i)
  {
    hide SysInv, RepInv, Find, OrderInv, IndicesInRange;
    RunningIsRep(s);
    FindingIsTrue(s.cache, md);
    if Find(s.cache, md).FillableIdle? {
      FoundIsChosen(s.cache, md);
      CandidateIsOldest(s, Find(s.cache, md).index);
    }
  }

  lemma FoundIsChosen(c: Cache, md: FrameMetadata)
    requires IndicesInRange(c) && Find(c, md).FillableIdle?
    ensures c.empties == [] && ChooseCandidate(c) == TakeIdle(Find(c, md).index)
  {
  }

  lemma CandidateIsOldest(s: System, victim: nat)
    requires RepInv(s.cache) && s.cache.initialized && OrderInv(s) && IndicesInRange(s.cache)
    requires ChooseCandidate(s.cache) == TakeIdle(victim)
    ensures IsIdle(s.cache, victim) && forall i :: IsIdle(s.cache, i) && i != victim ==> Age(s, victim) < Age(s, i)
  {
    var c := s.cache;
    assert Placed(c, victim);
    forall i | IsIdle(c, i) && i != victim
      ensures Age(s, victim) < Age(s, i)
    {
      assert Placed(c, i);
      if c.policy == LRU {
        var at :| 0 <= at < |c.idle| && c.idle[at] == i;
      } else {
        FirstUnreadIs(c.filled, c.entries);
        var k :| 0 <= k < |c.filled| && c.filled[k] == victim
          && forall j :: 0 <= j < k ==> c.entries[c.filled[j]].active != 0;
        var at :| 0 <= at < |c.filled| && c.filled[at] == i;
        assert k < at;
      }
    }
  }
}
