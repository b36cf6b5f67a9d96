/**
 * The single stores of a locked section, as functions on the abstract cache, and how the transitions
 * of `CacheSpec` are composed from them. `GpuDataCache` performs one store at a time.
 */
module CacheStores {
  import opened GpuTypes
  import opened CacheSpec
  import opened CacheInvariant

  ghost function WithEntry(c: Cache, i: nat, e: Entry): Cache
    requires i < |c.entries|
  {
    c.(entries := c.entries[i := e])
  }

  ghost function ReaderAdded(c: Cache, i: nat): Cache
    requires i < |c.entries|
  {
    WithEntry(c, i, c.entries[i].(active := c.entries[i].active + 1))
  }

  ghost function ReaderDropped(c: Cache, i: nat, discardNow: bool): Cache
    requires i < |c.entries|
  {
    WithEntry(c, i, OneReaderLess(c.entries[i], discardNow))
  }

  ghost function LoadingBegun(c: Cache, i: nat, md: FrameMetadata): Cache
    requires i < |c.entries|
  {
    WithEntry(c, i, Reserve(c.entries[i], md))
  }

  ghost function MadeReadable(c: Cache, i: nat): Cache
    requires i < |c.entries|
  {
    WithEntry(c, i, c.entries[i].(state := Valid, active := 0, replicaValid := true))
  }

  ghost function Aged(c: Cache, i: nat): Cache {
    c.(filled := c.filled + [i])
  }

  ghost function Resident(c: Cache, key: GpuDataKey, i: nat): Cache {
    c.(table := c.table[key := i])
  }

  ghost function EmptyPopped(c: Cache): Cache
    requires c.empties != []
  {
    c.(empties := c.empties[..|c.empties| - 1])
  }

  ghost function Counted(c: Cache, stats: CacheStatistics): Cache {
    c.(stats := stats)
  }

  /** The manager's part of the end of a reader whose count has already been lowered. */
  ghost function Released(c: Cache, i: nat): Cache
    requires i < |c.entries|
  {
    if c.entries[i].active != 0 then c
    else if c.entries[i].discard then CountDiscard(ResetEntry(c, i))
    else AddIdle(c, i)
  }

  ghost function NotIdle(c: Cache, i: nat): Cache {
    c.(idle := Without(c.idle, i))
  }

  ghost function NotAged(c: Cache, i: nat): Cache {
    c.(filled := Without(c.filled, i))
  }

  ghost function NotResident(c: Cache, key: GpuDataKey, i: nat): Cache {
    c.(table := ErasedKey(c.table, key, i))
  }

  ghost function Blanked(c: Cache, i: nat): Cache
    requires i < |c.entries|
  {
    c.(entries := c.entries[i := c.entries[i].Cleared()], empties := c.empties + [i], notices := c.notices + 1)
  }

  lemma ResetInSteps(c: Cache, i: nat)
    requires i < |c.entries|
    ensures ResetEntry(c, i) == Blanked(NotResident(NotAged(NotIdle(c, i), i), c.entries[i].metadata.key, i), i)
    ensures NotResident(NotAged(NotIdle(c, i), i), c.entries[i].metadata.key, i).entries == c.entries
    ensures NotAged(NotIdle(c, i), i).entries == c.entries
    ensures var c1 := NotResident(NotAged(NotIdle(c, i), i), c.entries[i].metadata.key, i);
            c1.idle == Without(c.idle, i) && c1.filled == Without(c.filled, i)
  {
  }

  ghost predicate IsIdleCandidate(c: Cache, i: nat) {
    i < |c.entries| && c.entries[i].state == Valid && c.entries[i].active == 0 && i !in c.idle
  }

  ghost predicate IsFillCandidate(c: Cache, i: nat) {
    i < |c.entries| && c.entries[i].state == Valid && c.entries[i].active == 0 && i !in c.filled
  }

  function OrNoEntry(index: Option<nat>): nat {
    match index case None => NO_ENTRY case Some(i) => i
  }

  ghost function UnreadFrom(order: seq<nat>, a: nat, entries: seq<Entry>): Option<nat>
    requires a <= |order|
  {
    FirstUnread(order[a..], entries)
  }

  lemma UnreadAll(order: seq<nat>, entries: seq<Entry>)
    ensures FirstUnread(order, entries) == UnreadFrom(order, 0, entries)
  {
    assert order[0..] == order;
  }

  lemma UnreadSkips(order: seq<nat>, a: nat, entries: seq<Entry>)
    requires a < |order| && order[a] < |entries| && entries[order[a]].active != 0
    ensures UnreadFrom(order, a, entries) == UnreadFrom(order, a + 1, entries)
  {
    assert order[a..][1..] == order[a + 1..];
  }

  lemma UnreadFound(order: seq<nat>, a: nat, entries: seq<Entry>)
    requires a <= |order| && (a < |order| ==> order[a] < |entries| && entries[order[a]].active == 0)
    ensures UnreadFrom(order, a, entries) == if a == |order| then None else Some(order[a])
  {
  }

  lemma CandidateFacts(c: Cache)
    requires RepInv(c)
    ensures IndicesInRange(c) && |c.entries| < NO_ENTRY
    ensures c.empties != [] ==> ChooseCandidate(c) == TakeEmpty(c.empties[|c.empties| - 1])
    ensures c.empties == [] ==> !ChooseCandidate(c).TakeEmpty?
    ensures ChooseCandidate(c).TakeIdle? ==> ChooseCandidate(c).victim in c.idle && ChooseCandidate(c).victim < NO_ENTRY
  {
    if c.empties == [] && c.idle != [] && c.policy == FIFO {
      VictimIsIdle(c);
    }
  }

  /** An entry off the idle list that looks empty, or idle, and has a buffer. */
  ghost predicate LooksLike(c: Cache, i: nat, state: GpuCacheState) {
    && i < |c.entries| && c.entries[i].buffer != NULL_POINTER && c.entries[i].state == state && c.entries[i].active == 0
    && i !in c.idle
  }

  lemma CandidateLooks(c: Cache)
    requires RepInv(c)
    ensures IndicesInRange(c)
    ensures match ChooseCandidate(c)
            case TakeEmpty(i) =>
              c.empties != [] && LooksLike(EmptyPopped(c), i, Empty) && EmptyPopped(c).entries == c.entries
                && EmptyPopped(c).gpuId == c.gpuId
            case TakeIdle(i) =>
              LooksLike(NotIdle(c, i), i, Valid) && NotIdle(c, i).entries == c.entries && NotIdle(c, i).gpuId == c.gpuId
            case NoCandidate => true
  {
    hide RepInv, IndicesInRange, ChooseCandidate;
    CandidateFacts(c);
    match ChooseCandidate(c)
    case TakeEmpty(i) => EmptyIsSound(c, i);
    case TakeIdle(i) => IdleIsSound(c, i);
    case NoCandidate =>
  }

  lemma ValidIsJoinable(c: Cache, i: nat)
    requires RepInv(c) && i < |c.entries| && c.entries[i].state == Valid
    ensures Joinable(c, i)
  {
    assert Placed(c, i);
  }

  // ---------------------------------------------------------------- sections in steps

  /** A reader joins entry `i`; the first one takes it off the idle list. */
  lemma HitInSteps(c: Cache, i: nat)
    requires RepInv(c) && i < |c.entries| && c.entries[i].state == Valid
    ensures c.entries[i].active == 0 <==> i in c.idle
    ensures var c1 := if c.entries[i].active == 0 then NotIdle(c, i) else c;
            && c1.entries == c.entries && c1.stats == c.stats
            && Counted(ReaderAdded(c1, i), c.stats.CountHit()) == ServeHit(c, i)
  {
    assert Placed(c, i);
  }

  lemma FillEmptyInSteps(c: Cache, i: nat, md: FrameMetadata)
    requires RepInv(c) && c.empties != [] && i == c.empties[|c.empties| - 1] && md.key !in c.table
    ensures i < |c.entries| && |c.table| < |c.entries|
    ensures var c1 := EmptyPopped(c);
            var c2 := Resident(c1, md.key, i);
            && c1.table == c.table && c1.entries == c.entries
            && c2.entries == c.entries && c2.stats == c.stats
            && Counted(LoadingBegun(c2, i, md), c.stats.CountReservation(false)) == FillEmpty(c, i, md)
  {
    assert Placed(c, i);
    TableFits(c, i);
  }

  lemma FillIdleInSteps(c: Cache, i: nat, md: FrameMetadata)
    requires RepInv(c) && i in c.idle && md.key !in c.table
    ensures i < |c.entries| && c.entries[i].state == Valid && c.entries[i].active == 0
    ensures c.entries[i].metadata.key in c.table && c.table[c.entries[i].metadata.key] == i
    ensures var old_ := c.entries[i].metadata.key;
            var c1 := NotIdle(c, i);
            var c2 := NotResident(c1, old_, i);
            var c3 := Resident(c2, md.key, i);
            var c4 := if c.policy == FIFO then NotAged(c3, i) else c3;
            && c1.table == c.table && c1.entries == c.entries
            && md.key !in c2.table && |c2.table| < |c.entries| && c2.entries == c.entries
            && c3.filled == c.filled && (c.policy == FIFO ==> i in c.filled)
            && c4.entries == c.entries && c4.stats == c.stats && c3.policy == c.policy
            && Counted(LoadingBegun(c4, i, md), c.stats.CountReservation(true)) == FillIdle(c, i, md)
  {
    assert Placed(c, i);
    TableFitsAfterErase(c, i);
    if c.policy == LRU {
      WithoutAbsent(c.filled, i);
    }
  }

  lemma ReaderAddedKeepsStats(c: Cache, i: nat)
    requires i < |c.entries|
    ensures ReaderAdded(c, i).stats == c.stats && |ReaderAdded(c, i).entries| == |c.entries|
  {
  }

  /** Counting a reservation before or after rewriting the entry makes no difference. */
  lemma CountedCommutes(c: Cache, stats: CacheStatistics, i: nat, md: FrameMetadata)
    requires i < |c.entries|
    ensures |Counted(c, stats).entries| == |c.entries|
    ensures LoadingBegun(Counted(c, stats), i, md) == Counted(LoadingBegun(c, i, md), stats)
  {
  }

  lemma ResidentEntry(c: Cache, key: GpuDataKey)
    requires RepInv(c) && key in c.table
    ensures var i := c.table[key];
            i < |c.entries| && c.entries[i].state != Empty && c.entries[i].buffer != NULL_POINTER &&
            (c.entries[i].state == Valid ==> c.entries[i].replicaValid)
  {
    assert Placed(c, c.table[key]);
  }

  /** The entry that a lookup of an absent key reserves, or none. */
  ghost function Reserved(f: Finding): nat {
    match f
    case FillableEmpty(i) => i
    case FillableIdle(i) => i
    case _ => NO_ENTRY
  }

  lemma AbsentSection(c: Cache, md: FrameMetadata, req: GpuCacheRequest, p: Progress, now: int)
    requires RepInv(c) && c.gpuId == Some(req.gpuId) && md.key !in c.table && !c.failed
    ensures IndicesInRange(c) && Served(c, md).dataBytes == c.dataBytes
    ensures var i := Reserved(Find(c, md));
            && (i != NO_ENTRY ==> i < |c.entries|) && (i == NO_ENTRY ==> Served(c, md) == c)
            && Section(c, md, req, p, now) ==
               if i != NO_ENTRY then Pass(Served(c, md), p, Returned(CacheLease(c, i, md, req, CacheFill)))
               else if c.entries == [] then Pass(ServeFallback(c, CapacityZero), p, Returned(FallbackLease(c, md, req)))
               else Obstruct(c, Full, md, req, p, now)
  {
    assert |c.entries| < NO_ENTRY;
    hide RepInv, Find, Section, IndicesInRange, Obstruct, ServeFallback, Spoiled;
    FindingIsTrue(c, md);
    SectionCases(c, md, req, p, now);
  }

  /** The pass of a request, finding by finding. */
  lemma SectionCases(c: Cache, md: FrameMetadata, req: GpuCacheRequest, p: Progress, now: int)
    requires RepInv(c) && c.gpuId == Some(req.gpuId)
    ensures IndicesInRange(c)
    ensures var pass := Section(c, md, req, p, now);
            match Find(c, md)
            case Refused => pass == Pass(Reject(c), p, Returned(NO_ACCESS))
            case Readable(i) => pass == Pass(ServeHit(c, i), p, Returned(CacheLease(c, i, md, req, CacheHit)))
            case FillableEmpty(i) =>
              pass == Pass(FillEmpty(c, i, md), p, Returned(CacheLease(c, i, md, req, CacheFill)))
            case FillableIdle(i) =>
              pass == Pass(FillIdle(c, i, md), p, Returned(CacheLease(c, i, md, req, CacheFill)))
            case NoCapacity => pass == Pass(ServeFallback(c, CapacityZero), p, Returned(FallbackLease(c, md, req)))
            case f => Obstructed(f) && pass == Obstruct(c, f, md, req, p, now)
  {
    hide Find, RepInv, IndicesInRange, Obstruct, ServeHit, ServeFallback, Reject, Spoiled, FillEmpty, FillIdle,
         CacheLease;
    FindingIsTrue(c, md);
  }

  // ---------------------------------------------------------------- obstructed requests

  ghost function Blocked(c: Cache, p: Progress, f: Finding): Cache {
    if p.blocked then c else CountFirstBlock(c, f)
  }

  lemma ObstructInSteps(c: Cache, f: Finding, md: FrameMetadata, req: GpuCacheRequest, p: Progress, now: int)
    ensures var c1 := Blocked(c, p, f);
            && MayWait(c1, p.deadline, now) == MayWait(c, p.deadline, now)
            && TimeoutReason(c1, f) == TimeoutReason(c, f)
            && FallbackLease(c1, md, req) == FallbackLease(c, md, req)
            && Obstruct(c, f, md, req, p, now) ==
               if MayWait(c, p.deadline, now) then Pass(FallAsleep(c1, p.waited), p.(blocked := true, waited := true),
                 Sleeping)
               else Pass(ServeFallback(c1, TimeoutReason(c, f)), p.(blocked := true),
                 Returned(FallbackLease(c, md, req)))
  {
  }

  // ---------------------------------------------------------------- completions

  /** The end of a reader in two steps; an unread entry without a pending discard is free to become idle. */
  lemma EndReaderInSteps(c: Cache, i: nat, discardNow: bool)
    requires RepInv(c) && i < |c.entries| && c.entries[i].state == Valid && c.entries[i].active > 0
    ensures EndReader(c, i, discardNow) == Released(ReaderDropped(c, i, discardNow), i)
    ensures var c1 := ReaderDropped(c, i, discardNow);
            c1.entries[i].active == 0 && !c1.entries[i].discard ==> IsIdleCandidate(c1, i)
  {
    assert Placed(c, i);
  }

  lemma PublishInSteps(c: Cache, i: nat)
    requires RepInv(c) && i < |c.entries| && c.entries[i].state == Loading
    ensures var c1 := MadeReadable(c, i);
            var c2 := if c.policy == FIFO then Aged(c1, i) else c1;
            && Publish(c, i, Discard) == CountDiscard(ResetEntry(c1, i))
            && Publish(c, i, Keep) == AddIdle(c2, i)
            && c1.policy == c.policy && IsFillCandidate(c1, i) && IsIdleCandidate(c2, i)
  {
    assert Placed(c, i);
  }

  lemma HitCompletion(c: Cache, a: Access, succeeded: bool, retention: CacheRetention)
    requires c.initialized && !c.releasing && RepInv(c) && a.status == CacheHit
    ensures ReadableLease(c, a) ==>
              a.entryIndex < |c.entries| && c.entries[a.entryIndex].state == Valid && c.entries[a.entryIndex].active > 0
    ensures Complete(c, a, succeeded, retention) ==
            if ReadableLease(c, a) && c.gpuId == Some(a.gpuId) && c.entries[a.entryIndex].replicaValid
            then Reply(EndReader(c, a.entryIndex, retention == Discard), succeeded) else Reply(c, false)
  {
    hide RepInv, EndReader;
  }

  lemma FillCompletion(c: Cache, a: Access, succeeded: bool, retention: CacheRetention)
    requires c.initialized && !c.releasing && RepInv(c) && a.status == CacheFill
    ensures FillingLease(c, a) ==> a.entryIndex < |c.entries| && c.entries[a.entryIndex].state == Loading
    ensures Complete(c, a, succeeded, retention) ==
            if !FillingLease(c, a) then Reply(CountFill(c, false), false)
            else if succeeded && c.gpuId == Some(a.gpuId)
              then Reply(CountFill(Publish(c, a.entryIndex, retention), true), true)
            else Reply(CountFill(ResetEntry(c, a.entryIndex), false), false)
  {
    hide RepInv, Publish, ResetEntry, CountFill;
  }

  lemma HitAbort(c: Cache, a: Access)
    requires RepInv(c) && a.status == CacheHit
    ensures ReadableLease(c, a) ==>
              a.entryIndex < |c.entries| && c.entries[a.entryIndex].state == Valid && c.entries[a.entryIndex].active > 0
    ensures Abort(c, a) == if ReadableLease(c, a) then EndReader(c, a.entryIndex, false) else c
  {
    hide RepInv, EndReader;
  }

  lemma FillAbort(c: Cache, a: Access)
    requires RepInv(c) && a.status == CacheFill
    ensures var counted := CountFill(c, false);
            && (FillingLease(counted, a) ==>
                  a.entryIndex < |counted.entries| && RepInv(ResetEntry(counted, a.entryIndex)))
            && Abort(c, a) == if FillingLease(counted, a) then ResetEntry(counted, a.entryIndex) else counted
  {
    StatsDoNotMatter(c, CountFill(c, false));
    RollBackIfLoading(CountFill(c, false), a.entryIndex);
    hide RepInv, ResetEntry;
  }

  lemma MatchingIndex(c: Cache, a: Access)
    requires Matches(c, a)
    ensures a.entryIndex < |c.entries|
  {
  }

  lemma LoadingHasOneLease(c: Cache, i: nat)
    requires RepInv(c)
    ensures i < |c.entries| && c.entries[i].state == Loading ==> c.entries[i].active == 1
  {
    if i < |c.entries| {
      assert Placed(c, i);
    }
  }

  lemma RollBackIfLoading(c: Cache, i: nat)
    requires RepInv(c)
    ensures i < |c.entries| && c.entries[i].state == Loading ==> RepInv(ResetEntry(c, i))
  {
    if i < |c.entries| && c.entries[i].state == Loading {
      RollBackKeeps(c, i);
    }
  }

  ghost function FallbackEnded(c: Cache): Cache {
    if c.fallbacks > 0 then c.(fallbacks := c.fallbacks - 1) else c
  }

  lemma FallbackEndKeeps(c: Cache)
    requires RepInv(c)
    ensures RepInv(FallbackEnded(c))
  {
    StatsDoNotMatter(c, FallbackEnded(c));
  }

  lemma SyncFailureKeepsRep(c: Cache)
    requires RepInv(c)
    ensures RepInv(NoteSyncFailure(c))
  {
    StatsDoNotMatter(c, NoteSyncFailure(c));
  }

  lemma FallbackCompletion(c: Cache, a: Access, succeeded: bool, retention: CacheRetention)
    requires c.initialized && !c.releasing && a.status == TaskFallback
    ensures Complete(c, a, succeeded, retention) ==
            if c.fallbacks > 0 && a.entryIndex == NO_ENTRY && a.data != NULL_POINTER && a.bytes == c.dataBytes
            then Reply(FallbackEnded(c), succeeded) else Reply(c, false)
  {
  }

  lemma FallbackAbort(c: Cache, a: Access)
    ensures a.status == TaskFallback ==> Abort(c, a) == FallbackEnded(c)
    ensures a.status == Invalid ==> Abort(c, a) == c
  {
  }

  lemma InvalidCompletion(c: Cache, a: Access, succeeded: bool, retention: CacheRetention)
    ensures a.status == Invalid ==> Complete(c, a, succeeded, retention) == Reply(c, false)
  {
  }

  // ---------------------------------------------------------------- what a section keeps

  /** A section leaves the configuration and the number of entries alone. */
  ghost predicate SameSetup(c: Cache, c': Cache) {
    && c'.initialized == c.initialized && c'.releasing == c.releasing && c'.policy == c.policy
    && c'.waitTimeout == c.waitTimeout && c'.dataBytes == c.dataBytes && c'.gpuId == c.gpuId
    && |c'.entries| == |c.entries|
  }

  lemma ServedSetup(c: Cache, md: FrameMetadata)
    requires IndicesInRange(c)
    ensures SameSetup(c, Served(c, md))
  {
    hide Find, IndicesInRange;
  }

  lemma ServedKeeps(c: Cache, md: FrameMetadata)
    requires RepInv(c) && md.bytes == c.dataBytes
    ensures IndicesInRange(c) && RepInv(Served(c, md)) && SameSetup(c, Served(c, md))
  {
    hide RepInv, IndicesInRange, Find, Spoiled, ServeHit, FillEmpty, FillIdle;
    FindingIsTrue(c, md);
    ServedSetup(c, md);
    match Find(c, md)
    case Readable(i) => HitKeeps(c, i);
    case FillableEmpty(i) => FillEmptyKeeps(c, md);
    case FillableIdle(i) => FillIdleKeeps(c, i, md);
    case _ =>
  }

  lemma SectionKeepsRep(c: Cache, md: FrameMetadata, req: GpuCacheRequest, p: Progress, now: int)
    requires RepInv(c) && md.bytes == c.dataBytes
    ensures IndicesInRange(c)
    ensures RepInv(Section(c, md, req, p, now).cache) && SameSetup(c, Section(c, md, req, p, now).cache)
  {
    ServedKeeps(c, md);
    SectionEffect(c, md, req, p, now);
    StatsDoNotMatter(Served(c, md), Section(c, md, req, p, now).cache);
    hide RepInv, IndicesInRange, Section, Served;
  }

  /** A reset clears the counters, then the entries. */
  lemma ClearedIsReset(c: Cache)
    requires RepInv(c)
    ensures var c' := ResetEntries(Counted(c, NO_STATISTICS));
            RepInv(c') && c' == ResetEntries(c).(stats := NO_STATISTICS) && SameSetup(c, c')
  {
    StatsDoNotMatter(c, Counted(c, NO_STATISTICS));
    ResetKeeps(Counted(c, NO_STATISTICS));
  }

  lemma LookupCases(c: Cache, md: FrameMetadata, req: GpuCacheRequest, started: int, now: int)
    requires c.initialized ==> RepInv(c)
    ensures c.initialized ==> IndicesInRange(c)
    ensures Admits(c, md, req) ==> c.initialized && c.gpuId == Some(req.gpuId) && md.bytes == c.dataBytes
    ensures var p := Progress(Deadline(c.waitTimeout, started), false, false, 0);
            Lookup(c, md, req, started, now) ==
            if Admits(c, md, req) then Section(c, md, req, p, now) else Pass(Reject(c), p, Returned(NO_ACCESS))
  {
    if c.initialized {
      RepInRange(c);
    }
    hide Section, RepInv, IndicesInRange;
  }

  /** A request sleeps only before its deadline, and then it is counted among the waiting ones. */
  lemma SleepIsCounted(c: Cache, md: FrameMetadata, req: GpuCacheRequest, p: Progress, now: int)
    requires RepInv(c)
    ensures IndicesInRange(c)
    ensures var Pass(c', p', out) := Section(c, md, req, p, now);
            && p'.deadline == p.deadline
            && c'.waiting == c.waiting + (if out.Sleeping? then 1 else 0)
            && (out.Sleeping? ==> now < p.deadline && c.waitTimeout != 0 && c.entries != [])
  {
    hide RepInv, IndicesInRange, Find, Spoiled, CacheStatistics.CountFirstBlock, CacheStatistics.CountFallback,
         CacheStatistics.CountWaiter, TimeoutReason;
    FindingIsTrue(c, md);
  }

  ghost predicate KeepsSetup(c: Cache, c': Cache) {
    SameSetup(c, c') && c'.waiting == c.waiting
  }

  lemma EndsKeepSetup(c: Cache, i: nat, discardNow: bool, retention: CacheRetention)
    requires i < |c.entries|
    ensures c.entries[i].active > 0 ==> KeepsSetup(c, EndReader(c, i, discardNow))
    ensures KeepsSetup(c, Publish(c, i, retention)) && KeepsSetup(c, ResetEntry(c, i))
  {
  }

  lemma CompletionKeepsSetup(c: Cache, a: Access, succeeded: bool, retention: CacheRetention)
    ensures KeepsSetup(c, Complete(c, a, succeeded, retention).cache)
  {
    if a.entryIndex < |c.entries| {
      EndsKeepSetup(c, a.entryIndex, retention == Discard, retention);
    }
    hide EndReader, Publish, ResetEntry;
    match a.status {
      case TaskFallback =>
      case CacheHit =>
      case CacheFill =>
      case Invalid =>
    }
  }

  lemma AbortKeepsSetup(c: Cache, a: Access)
    ensures KeepsSetup(c, Abort(c, a))
  {
    var counted := CountFill(c, false);
    if a.entryIndex < |c.entries| {
      EndsKeepSetup(c, a.entryIndex, false, Keep);
      EndsKeepSetup(counted, a.entryIndex, false, Keep);
    }
    hide EndReader, Publish, ResetEntry;
    match a.status {
      case TaskFallback =>
      case CacheHit =>
      case CacheFill =>
      case Invalid =>
    }
  }

  lemma DormantCompletion(c: Cache, a: Access, succeeded: bool, retention: CacheRetention)
    requires !c.initialized || c.releasing
    ensures Complete(c, a, succeeded, retention) ==
            Reply(if a.status == CacheFill then CountFill(c, false) else c, false)
  {
  }

  lemma DormantAbort(c: Cache, a: Access)
    requires c.fallbacks == 0
    requires forall i :: 0 <= i < |c.entries| ==> c.entries[i].active == 0 && c.entries[i].state != Loading
    ensures Abort(c, a) == if a.status == CacheFill then CountFill(c, false) else c
  {
  }

  // ---------------------------------------------------------------- waiting requests and the others

  lemma LookupIsCounted(c: Cache, md: FrameMetadata, req: GpuCacheRequest, started: int, now: int)
    requires c.initialized && RepInv(c)
    ensures IndicesInRange(c)
    ensures var pass := Lookup(c, md, req, started, now);
            SameSetup(c, pass.cache) && pass.cache.waiting == c.waiting + (if pass.outcome.Sleeping? then 1 else 0)
  {
    LookupCases(c, md, req, started, now);
    if Admits(c, md, req) {
      var p := Progress(Deadline(c.waitTimeout, started), false, false, 0);
      SectionKeepsRep(c, md, req, p, now);
      SleepIsCounted(c, md, req, p, now);
    }
    hide Section, RepInv, IndicesInRange, Lookup, Admits;
  }

  lemma ResumptionIsCounted(c: Cache, md: FrameMetadata, req: GpuCacheRequest, p: Progress, elapsed: nat, now: int)
    requires RepInv(c) && md.bytes == c.dataBytes && c.waiting > 0
    ensures var woken := Wake(c, p, elapsed);
            && RepInv(woken.cache) && IndicesInRange(woken.cache) && SameSetup(c, woken.cache)
            && woken.progress.deadline == p.deadline
            && var Pass(c', p', out) := Section(woken.cache, md, req, woken.progress, now);
               && SameSetup(c, c') && p'.deadline == p.deadline
               && c'.waiting == c.waiting - (if out.Sleeping? then 0 else 1)
               && (out.Sleeping? ==> now < p'.deadline)
  {
    var woken := Wake(c, p, elapsed);
    StatsDoNotMatter(c, woken.cache);
    SectionKeepsRep(woken.cache, md, req, woken.progress, now);
    SleepIsCounted(woken.cache, md, req, woken.progress, now);
    hide Section, RepInv, IndicesInRange;
  }

  lemma WaitersPreventReset(c: Cache)
    requires c.initialized && c.waiting > 0
    ensures ResetCache(c) == Reply(c, false) && BeginRelease(c) == ReleaseRejected
  {
  }
}
