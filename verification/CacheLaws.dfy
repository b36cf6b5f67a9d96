/**
 * What each locked section does, said in the fields of entries, in keys, leases and single counters: the
 * complete difference between the manager before and after, whatever path the section took.
 */
module CacheLaws {
  import opened Counting
  import opened GpuTypes
  import opened CacheSpec
  import opened CacheInvariant
  import opened CacheLeases
  import opened CacheSystem
  import opened CacheRuns
  import CT = CacheTheorems

  // ---------------------------------------------------------------- lookups

  /** The key is resident, readable and described as the request describes it. */
  ghost predicate Resident(c: Cache, md: FrameMetadata) {
    && !c.failed && md.key in c.table && c.table[md.key] < |c.entries|
    && c.entries[c.table[md.key]].state == Valid && c.entries[c.table[md.key]].metadata == md
  }

  /** A hit adds one reader and hands out the entry's buffer on the request's own stream. */
  lemma HitLaw(c: Cache, md: FrameMetadata, req: GpuCacheRequest, p: Progress, now: int)
    requires RepInv(c) && Resident(c, md)
    ensures IndicesInRange(c)
    ensures var Pass(c', p', out) := Section(c, md, req, p, now);
            var i, e := c.table[md.key], c.entries[c.table[md.key]];
            && p' == p
            && out == Returned(Access(true, e.buffer, c.dataBytes, i, md.key, req.stream, req.gpuId, CacheHit))
            && c'.entries == c.entries[i := e.(active := e.active + 1)]
            && c'.idle == Without(c.idle, i)
            && c'.stats == c.stats.(hit := c.stats.hit + 1)
            && c' == c.(entries := c'.entries, idle := c'.idle, stats := c'.stats)
  {
    var i := c.table[md.key];
    assert Placed(c, i);
    hide RepInv, IndicesInRange, Find;
    FindingIsTrue(c, md);
    FindResident(c, md);
    if i !in c.idle {
      WithoutAbsent(c.idle, i);
    }
  }

  lemma FindResident(c: Cache, md: FrameMetadata)
    requires RepInv(c) && IndicesInRange(c) && Resident(c, md)
    ensures Find(c, md) == Readable(c.table[md.key])
  {
    FindingIsTrue(c, md);
  }

  /** The entry that a request for an absent key gets: the top of the stack, or the first unread one in policy order. */
  ghost predicate IsNextVictim(c: Cache, i: nat) {
    if c.empties != [] then i == c.empties[|c.empties| - 1]
    else if c.policy == LRU then c.idle != [] && i == c.idle[0]
    else exists k :: 0 <= k < |c.filled| && c.filled[k] == i && i < |c.entries| && c.entries[i].active == 0
           && forall j :: 0 <= j < k && c.filled[j] < |c.entries| ==> c.entries[c.filled[j]].active != 0
  }

  /** The table forgets the key of entry `i` and maps `key` to it. */
  ghost predicate Rekeyed(table: map<GpuDataKey, nat>, table': map<GpuDataKey, nat>, key: GpuDataKey, i: nat) {
    && key in table' && table'[key] == i
    && (forall k :: k != key ==> (k in table' <==> k in table && table[k] != i))
    && (forall k :: k != key && k in table' ==> table'[k] == table[k])
  }

  /**
   * A miss that finds an entry reserves exactly that entry for the key, and counts an eviction only for a resident one.
   */
  lemma FillLaw(c: Cache, md: FrameMetadata, req: GpuCacheRequest, p: Progress, now: int)
    requires RepInv(c) && !c.failed && md.key !in c.table && (c.empties != [] || c.idle != [])
    ensures IndicesInRange(c)
    ensures var Pass(c', p', out) := Section(c, md, req, p, now);
            && p' == p && out.Returned?
            && var a := out.access;
               var i := a.entryIndex;
               && i < |c.entries| && IsNextVictim(c, i)
               && a == Access(true, c.entries[i].buffer, c.dataBytes, i, md.key, req.stream, req.gpuId, CacheFill)
               && c'.entries == c.entries[i := Entry(md, Loading, 1, false, c.entries[i].buffer, false)]
               && Rekeyed(c.table, c'.table, md.key, i)
               && c'.empties == (if c.empties == [] then [] else c.empties[..|c.empties| - 1])
               && c'.idle == Without(c.idle, i) && c'.filled == Without(c.filled, i)
               && c'.stats == c.stats.(fill := c.stats.fill + 1, eviction := c.stats.eviction + One(c.empties == []))
               && c' == c.(entries := c'.entries, table := c'.table, empties := c'.empties, idle := c'.idle,
                           filled := c'.filled, stats := c'.stats)
  {
    ListedMeansEntries(c);
    hide RepInv, IndicesInRange, Find, FillEmpty, FillIdle, Rekeyed, IsNextVictim;
    FindingIsTrue(c, md);
    match Find(c, md)
    case FillableEmpty(i) => ReserveEmptyLaw(c, i, md);
    case FillableIdle(i) =>
      ReserveIdleLaw(c, i, md);
      VictimIsNext(c, md);
    case _ =>
  }

  lemma ListedMeansEntries(c: Cache)
    requires RepInv(c)
    ensures c.entries == [] ==> c.empties == [] && c.idle == [] && c.table == map[]
  {
    if c.empties != [] {
      assert c.empties[0] < |c.entries|;
    }
    if c.idle != [] {
      assert c.idle[0] < |c.entries|;
    }
  }

  lemma ReserveEmptyLaw(c: Cache, i: nat, md: FrameMetadata)
    requires RepInv(c) && md.key !in c.table && c.empties != [] && i == c.empties[|c.empties| - 1]
    ensures i < |c.entries| && IsNextVictim(c, i)
    ensures var c' := FillEmpty(c, i, md);
            && c'.entries == c.entries[i := Entry(md, Loading, 1, false, c.entries[i].buffer, false)]
            && Rekeyed(c.table, c'.table, md.key, i) && c'.empties == c.empties[..|c.empties| - 1]
            && c'.idle == Without(c.idle, i) && c'.filled == Without(c.filled, i)
            && c'.stats == c.stats.(fill := c.stats.fill + 1)
            && c' == c.(entries := c'.entries, table := c'.table, empties := c'.empties, idle := c'.idle,
                        filled := c'.filled, stats := c'.stats)
  {
    assert Placed(c, i);
    WithoutAbsent(c.idle, i);
    WithoutAbsent(c.filled, i);
    forall k | k in c.table
      ensures c.table[k] != i
    {
    }
  }

  lemma ReserveIdleLaw(c: Cache, i: nat, md: FrameMetadata)
    requires RepInv(c) && md.key !in c.table && i in c.idle
    ensures i < |c.entries|
    ensures var c' := FillIdle(c, i, md);
            && c'.entries == c.entries[i := Entry(md, Loading, 1, false, c.entries[i].buffer, false)]
            && Rekeyed(c.table, c'.table, md.key, i)
            && c'.idle == Without(c.idle, i) && c'.filled == Without(c.filled, i)
            && c'.stats == c.stats.(fill := c.stats.fill + 1, eviction := c.stats.eviction + 1)
            && c' == c.(entries := c'.entries, table := c'.table, idle := c'.idle, filled := c'.filled,
               stats := c'.stats)
  {
    assert Placed(c, i);
    RekeyedLaw(c.table, c.entries[i].metadata.key, md.key, i);
    hide RepInv, Without, ErasedKey, Rekeyed;
  }

  lemma RekeyedLaw(table: map<GpuDataKey, nat>, gone: GpuDataKey, key: GpuDataKey, i: nat)
    requires gone in table && table[gone] == i && forall k :: k in table && table[k] == i ==> k == gone
    ensures Rekeyed(table, ErasedKey(table, gone, i)[key := i], key, i)
  {
  }

  lemma VictimIsNext(c: Cache, md: FrameMetadata)
    requires RepInv(c) && IndicesInRange(c) && Find(c, md).FillableIdle?
    ensures IsNextVictim(c, Find(c, md).index)
  {
    FindingIsTrue(c, md);
    FirstUnreadIs(c.filled, c.entries);
    hide IndicesInRange;
  }

  /** What a request meets that cannot be served now: its key is loading, or nothing is empty or idle. */
  ghost predicate Stuck(c: Cache, md: FrameMetadata) {
    && !c.failed && c.entries != []
    && (if md.key in c.table then
          c.table[md.key] < |c.entries| && c.entries[c.table[md.key]].state == Loading
            && c.entries[c.table[md.key]].metadata == md
        else c.empties == [] && c.idle == [])
  }

  /** One fallback more, under the reason of a key that is loading or of a full cache, with or without waiting. */
  ghost predicate OneMoreFallback(stats: CacheStatistics, stats': CacheStatistics, loading: bool, waits: bool) {
    && stats'.fallback == stats.fallback + 1
    && stats'.fallbackReasons.loadingTimeout == stats.fallbackReasons.loadingTimeout + One(loading && waits)
    && stats'.fallbackReasons.loadingNoWait == stats.fallbackReasons.loadingNoWait + One(loading && !waits)
    && stats'.fallbackReasons.fullTimeout == stats.fallbackReasons.fullTimeout + One(!loading && waits)
    && stats'.fallbackReasons.fullNoWait == stats.fallbackReasons.fullNoWait + One(!loading && !waits)
    && stats'.fallbackReasons.capacityZero == stats.fallbackReasons.capacityZero
    && stats'.fallbackReasons.replicaUnavailable == stats.fallbackReasons.replicaUnavailable
  }

  /** The counter of the obstacle that a request met first: one for a loading key, another for a full cache. */
  ghost predicate FirstObstacle(stats: CacheStatistics, stats': CacheStatistics, loading: bool, first: bool) {
    && stats'.firstBlockedLoading == stats.firstBlockedLoading + One(loading && first)
    && stats'.firstBlockedFull == stats.firstBlockedFull + One(!loading && first)
  }

  /**
   * A stuck request sleeps exactly while it may, and then only the waiters are counted; otherwise it falls back
   * to its own buffer, and exactly the counter of its reason moves.
   */
  lemma StuckLaw(c: Cache, md: FrameMetadata, req: GpuCacheRequest, p: Progress, now: int)
    requires RepInv(c) && Stuck(c, md)
    ensures IndicesInRange(c)
    ensures ObstacleMet(c, md, req, p, now, md.key in c.table, Section(c, md, req, p, now))
  {
    hide RepInv, IndicesInRange, Find, ObstacleMet, Obstruct;
    FindingIsTrue(c, md);
    FindStuck(c, md);
    ObstructLaw(c, Find(c, md), md, req, p, now);
  }

  /** The whole effect of meeting an obstacle: a loading key, or else a full cache. */
  ghost predicate ObstacleMet(c: Cache, md: FrameMetadata, req: GpuCacheRequest, p: Progress, now: int, loading: bool,
                              pass: Pass)
  {
    var Pass(c', p', out) := pass;
    var waits := c.waitTimeout != 0;
    && FirstObstacle(c.stats, c'.stats, loading, !p.blocked)
    && if waits && now < p.deadline then
         && out == Sleeping && p' == p.(blocked := true, waited := true)
         && c' == c.(waiting := c.waiting + 1, stats := c'.stats)
         && c'.stats == c.stats.(firstBlockedLoading := c'.stats.firstBlockedLoading,
                                 firstBlockedFull := c'.stats.firstBlockedFull,
                                 waitedRequests := c.stats.waitedRequests + One(!p.waited))
       else
         && out == Returned(Access(true, req.d_fallback, c.dataBytes, NO_ENTRY, md.key, req.stream, req.gpuId,
            TaskFallback))
         && p' == p.(blocked := true)
         && c' == c.(fallbacks := c.fallbacks + 1, stats := c'.stats)
         && OneMoreFallback(c.stats, c'.stats, loading, waits)
         && c'.stats == c.stats.(firstBlockedLoading := c'.stats.firstBlockedLoading,
                                 firstBlockedFull := c'.stats.firstBlockedFull,
                                 fallback := c'.stats.fallback, fallbackReasons := c'.stats.fallbackReasons)
  }

  lemma ObstructLaw(c: Cache, f: Finding, md: FrameMetadata, req: GpuCacheRequest, p: Progress, now: int)
    requires Obstructed(f) && c.entries != []
    ensures ObstacleMet(c, md, req, p, now, f == StillLoading, Obstruct(c, f, md, req, p, now))
  {
    hide ObstacleMet, Obstruct;
    if c.waitTimeout != 0 && now < p.deadline {
      SleepLaw(c, f, md, req, p, now);
    } else {
      GiveUpLaw(c, f, md, req, p, now);
    }
  }

  lemma SleepLaw(c: Cache, f: Finding, md: FrameMetadata, req: GpuCacheRequest, p: Progress, now: int)
    requires Obstructed(f) && c.entries != [] && c.waitTimeout != 0 && now < p.deadline
    ensures ObstacleMet(c, md, req, p, now, f == StillLoading, Obstruct(c, f, md, req, p, now))
  {
  }

  lemma GiveUpLaw(c: Cache, f: Finding, md: FrameMetadata, req: GpuCacheRequest, p: Progress, now: int)
    requires Obstructed(f) && !(c.waitTimeout != 0 && now < p.deadline)
    ensures ObstacleMet(c, md, req, p, now, f == StillLoading, Obstruct(c, f, md, req, p, now))
  {
    hide CacheFallbackStatistics.Count;
    ReasonLaw(c.stats.fallbackReasons);
  }

  /** Each reason has its own counter. */
  lemma ReasonLaw(r: CacheFallbackStatistics)
    ensures r.Count(CapacityZero) == r.(capacityZero := r.capacityZero + 1)
    ensures r.Count(LoadingTimeout) == r.(loadingTimeout := r.loadingTimeout + 1)
    ensures r.Count(FullTimeout) == r.(fullTimeout := r.fullTimeout + 1)
    ensures r.Count(LoadingNoWait) == r.(loadingNoWait := r.loadingNoWait + 1)
    ensures r.Count(FullNoWait) == r.(fullNoWait := r.fullNoWait + 1)
    ensures r.Count(ReplicaUnavailable) == r.(replicaUnavailable := r.replicaUnavailable + 1)
  {
  }

  lemma FindStuck(c: Cache, md: FrameMetadata)
    requires RepInv(c) && IndicesInRange(c) && Stuck(c, md)
    ensures Find(c, md) == if md.key in c.table then StillLoading else Full
  {
    FindingIsTrue(c, md);
  }

  /** Without entries every miss falls back for lack of capacity, at once. */
  lemma NoCapacityLaw(c: Cache, md: FrameMetadata, req: GpuCacheRequest, p: Progress, now: int)
    requires RepInv(c) && !c.failed && c.entries == []
    ensures IndicesInRange(c)
    ensures var Pass(c', p', out) := Section(c, md, req, p, now);
            var r := c.stats.fallbackReasons;
            && p' == p
            && out == Returned(Access(true, req.d_fallback, c.dataBytes, NO_ENTRY, md.key, req.stream, req.gpuId,
               TaskFallback))
            && c' == c.(fallbacks := c.fallbacks + 1,
                        stats := c.stats.(fallback := c.stats.fallback + 1,
                                          fallbackReasons := r.(capacityZero := r.capacityZero + 1)))
  {
    hide RepInv, IndicesInRange, Find;
    ListedMeansEntries(c);
    FindingIsTrue(c, md);
    NothingToFind(c, md);
  }

  lemma NothingToFind(c: Cache, md: FrameMetadata)
    requires RepInv(c) && IndicesInRange(c) && !c.failed && md.key !in c.table && c.empties == [] && c.idle == []
    ensures Find(c, md) == if c.entries == [] then NoCapacity else Full
  {
  }

  /** A refusal only counts itself and hands out nothing. */
  lemma RefusalLaw(c: Cache, md: FrameMetadata, req: GpuCacheRequest, p: Progress, now: int)
    requires RepInv(c) && (c.failed || (md.key in c.table && c.entries[c.table[md.key]].metadata != md))
    ensures IndicesInRange(c)
    ensures Section(c, md, req, p, now) ==
            Pass(c.(stats := c.stats.(invalid := c.stats.invalid + 1)), p, Returned(NO_ACCESS))
  {
    hide RepInv, IndicesInRange, Find;
    FindingIsTrue(c, md);
  }

  /** The reasons to reject a request before looking for its key. */
  predicate Unfit(c: Cache, md: FrameMetadata, req: GpuCacheRequest) {
    || !c.initialized || c.releasing || c.failed
    || md.bytes != c.dataBytes || md.width <= 0 || md.height <= 0
    || req.gpuId < 0 || c.gpuId == None || c.gpuId.value != req.gpuId
    || req.stream == 0 || req.d_fallback == NULL_POINTER || req.fallbackBytes < c.dataBytes
  }

  /** An unfit request is refused without a look at the table; any other starts with nothing behind it. */
  lemma LookupLaw(c: Cache, md: FrameMetadata, req: GpuCacheRequest, started: int, now: int)
    requires c.initialized ==> RepInv(c)
    ensures c.initialized ==> IndicesInRange(c)
    ensures var pass := Lookup(c, md, req, started, now);
            if Unfit(c, md, req) then
              pass.cache == c.(stats := c.stats.(invalid := c.stats.invalid + 1)) && pass.outcome == Returned(NO_ACCESS)
            else
              pass == Section(c, md, req, Progress(Deadline(c.waitTimeout, started), false, false, 0), now)
  {
    if c.initialized {
      RepInRange(c);
    }
    hide RepInv, IndicesInRange, Section, Deadline;
  }

  /**
   * Every lease that a lookup hands out is on the request's stream and GPU, for the manager's payload size and the key.
   */
  lemma LeasesFollowTheRequest(c: Cache, md: FrameMetadata, req: GpuCacheRequest, p: Progress, now: int)
    requires RepInv(c)
    ensures IndicesInRange(c)
    ensures var out := Section(c, md, req, p, now).outcome;
            out.Returned? && out.access.live ==>
              var a := out.access;
              && a.stream == req.stream && a.gpuId == req.gpuId && a.bytes == c.dataBytes && a.key == md.key
              && (a.status == TaskFallback ==> a.data == req.d_fallback && a.entryIndex == NO_ENTRY)
              && (a.status != TaskFallback ==>
                    a.entryIndex < |c.entries| && a.data == c.entries[a.entryIndex].buffer && a.status != Invalid)
  {
    hide IndicesInRange, Section, OneMoreFallback, FirstObstacle, Rekeyed, IsNextVictim;
    RepInRange(c);
    ListedMeansEntries(c);
    if md.key in c.table {
      assert Placed(c, c.table[md.key]);
    }
    hide RepInv;
    if c.failed || (md.key in c.table && c.entries[c.table[md.key]].metadata != md) {
      RefusalLaw(c, md, req, p, now);
    } else if Resident(c, md) {
      HitLaw(c, md, req, p, now);
    } else if Stuck(c, md) {
      StuckLaw(c, md, req, p, now);
    } else if c.entries == [] {
      NoCapacityLaw(c, md, req, p, now);
    } else {
      FillLaw(c, md, req, p, now);
    }
  }

  /** A woken request has one sleep more behind it, which counts towards the totals of the manager. */
  lemma WakeLaw(s: System, id: nat, elapsed: nat)
    requires SysInv(s) && id in s.sleepers
    ensures var p, stats := s.sleepers[id].progress, s.cache.stats;
            var slept := p.requestWait + elapsed;
            && Wake(s.cache, p, elapsed).progress == p.(requestWait := slept)
            && Wake(s.cache, p, elapsed).cache ==
               s.cache.(waiting := s.cache.waiting - 1,
                        stats := stats.(totalWaitTime := stats.totalWaitTime + elapsed,
                                        maxWaitTime := if slept > stats.maxWaitTime then slept else stats.maxWaitTime))
  {
    assert s.sleepers.Keys != {} && |s.sleepers| == |s.sleepers.Keys|;
  }
}
