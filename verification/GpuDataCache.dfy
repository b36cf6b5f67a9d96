/**
 * The cache manager and its access objects, with the fields, intrusive links and hash table of the
 * program. Each method is proved to do to the abstract value `Abs()` exactly what `CacheSpec` says.
 */
module DataCache {
  import opened Counting
  import opened GpuTypes
  import opened CacheSpec
  import opened CacheInvariant
  import opened CacheStores
  import opened IntrusiveList
  import opened CacheEntry
  import opened ResidencyTable

  ghost function ViewsOf(es: seq<GpuDataCacheEntry>): (views: seq<Entry>)
    reads es`metadata, es`cacheState, es`activeAccesses, es`discardWhenUnused, es`replicas
    ensures |views| == |es| && forall i :: 0 <= i < |es| ==> views[i] == es[i].View()
  {
    if es == [] then [] else ViewsOf(es[..|es| - 1]) + [es[|es| - 1].View()]
  }

  ghost function EvictRing(es: seq<GpuDataCacheEntry>): (ring: seq<Links>)
    reads es`previousEvictable, es`nextEvictable, es`inEvictableList
    ensures |ring| == |es| && forall i :: 0 <= i < |es| ==> ring[i] == es[i].EvictLinks()
  {
    if es == [] then [] else EvictRing(es[..|es| - 1]) + [es[|es| - 1].EvictLinks()]
  }

  ghost function FillRing(es: seq<GpuDataCacheEntry>): (ring: seq<Links>)
    reads es`previousFilled, es`nextFilled, es`inFilledList
    ensures |ring| == |es| && forall i :: 0 <= i < |es| ==> ring[i] == es[i].FillLinks()
  {
    if es == [] then [] else FillRing(es[..|es| - 1]) + [es[|es| - 1].FillLinks()]
  }

  /** Nobody holds the entry; it counts as initialised exactly while its device buffer is allocated. */
  ghost predicate Unused(e: GpuDataCacheEntry, i: nat)
    reads e
  {
    && e.slot == i && |e.replicas| <= 1 && e.activeAccesses == 0 && e.cacheState != Loading
    && (e.initialized <==> e.View().buffer != NULL_POINTER)
  }

  method FreeOne(e: GpuDataCacheEntry, i: nat, freed: bool) returns (ok: bool)
    requires Unused(e, i)
    modifies e
    ensures Unused(e, i) && e.View() == FreeEntry(old(e.View()), freed)
    ensures ok == (freed || old(e.View()).buffer == NULL_POINTER)
  {
    ok := e.Release(freed);
  }

  ghost predicate IsKept(e: GpuDataCacheEntry, i: nat, was: Entry, gpuId: int)
    reads e
  {
    e.slot == i && e.initialized && e.View() == was && |e.replicas| == 1 && e.replicas[0].gpuId == gpuId
  }

  ghost predicate IsCleared(e: GpuDataCacheEntry, i: nat, was: Entry, gpuId: int)
    reads e
  {
    && e.slot == i && e.initialized && e.View() == was.Cleared() && |e.replicas| == 1 && e.replicas[0].gpuId == gpuId
    && e.EvictLinks() == UNLINKED && e.FillLinks() == UNLINKED
  }

  method ClearEntry(e: GpuDataCacheEntry, i: nat, ghost was: Entry, gpuId: int)
    requires IsKept(e, i, was, gpuId)
    modifies e
    ensures IsCleared(e, i, was, gpuId)
  {
    e.ClearIdentity();
    e.ClearLinks();
  }

  ghost function ObjectsOf(es: seq<GpuDataCacheEntry>): (objects: set<object>)
    ensures forall i :: 0 <= i < |es| ==> es[i] in objects
    ensures forall o :: o in objects ==> exists i :: 0 <= i < |es| && es[i] == o
  {
    set i | 0 <= i < |es| :: es[i] as object
  }

  ghost predicate AllAllocated(buffers: seq<DevicePointer>) {
    forall i :: 0 <= i < |buffers| ==> buffers[i] != NULL_POINTER
  }

  /** The driver never returns the same allocation twice. */
  ghost predicate Apart(buffers: seq<DevicePointer>) {
    forall i, j :: 0 <= i < j < |buffers| && buffers[i] != NULL_POINTER ==> buffers[i] != buffers[j]
  }

  ghost predicate EntriesFresh(es: seq<GpuDataCacheEntry>, buffers: seq<DevicePointer>, gpuId: int)
    reads es
  {
    |es| == |buffers| && forall i :: 0 <= i < |es| ==> IsCleared(es[i], i, FreshEntry(buffers[i]), gpuId)
  }

  /** Allocates the entries; null stands for a failed allocation, which ends the attempt. */
  method MakeEntries(gpuIds: seq<int>, bytes: nat, buffers: seq<DevicePointer>)
      returns (ok: bool, es: seq<GpuDataCacheEntry>)
    requires |gpuIds| == 1 && gpuIds[0] >= 0 && bytes != 0
    ensures ok <==> AllAllocated(buffers)
    ensures fresh(es)
    ensures ok ==> EntriesFresh(es, buffers, gpuIds[0])
  {
    es := [];
    for i := 0 to |buffers|
      invariant |es| == i && fresh(es)
      invariant forall j :: 0 <= j < i ==> buffers[j] != NULL_POINTER
      invariant forall j :: 0 <= j < i ==> IsCleared(es[j], j, FreshEntry(buffers[j]), gpuIds[0])
    {
      var entry := new GpuDataCacheEntry(i);
      var initialized := entry.Initialize(gpuIds, bytes, buffers[i]);
      if !initialized {
        return false, es;
      }
      es := es + [entry];
    }
    ok := true;
  }

  method MakeEmpties(count: nat) returns (empties: seq<nat>)
    ensures empties == CountDown(count)
  {
    empties := [];
    var index := count;
    while index > 0
      invariant 0 <= index <= count && empties == CountDown(count)[..count - index]
    {
      empties := empties + [index - 1];
      index := index - 1;
    }
  }

  ghost predicate StorageReady(table: GpuResidencyTable, es: seq<GpuDataCacheEntry>, empties: seq<nat>,
                               buffers: seq<DevicePointer>, gpuId: int)
    reads table, table.slots, es
  {
    && EntriesFresh(es, buffers, gpuId) && empties == CountDown(|es|)
    && table.Valid() && table.initialized && table.Contents() == map[] && table.residentLimit == |es|
  }

  /** The table, the entries and the empty stack of a new manager, built outside the lock. */
  method MakeStorage(previous: GpuResidencyTable, gpuIds: seq<int>, bytes: nat, buffers: seq<DevicePointer>,
      storageAvailable: bool)
    returns (ok: bool, table: GpuResidencyTable, es: seq<GpuDataCacheEntry>, empties: seq<nat>,
      ghost objects: set<object>)
    requires |gpuIds| == 1 && gpuIds[0] >= 0 && bytes != 0 && |buffers| <= SIZE_MAX
    ensures fresh(objects) && objects == {table, table.slots} + ObjectsOf(es)
    ensures ok <==> |buffers| <= MAX_TABLE_ENTRIES && storageAvailable && AllAllocated(buffers)
    ensures ok ==> StorageReady(table, es, empties, buffers, gpuIds[0])
  {
    hide AllAllocated, IsCleared, CountDown, GpuResidencyTable.Valid, GpuResidencyTable.Contents, ObjectsOf;
    es, empties := [], [];
    table := new GpuResidencyTable(previous.hash);
    ok := table.Initialize(|buffers|, storageAvailable);
    if ok {
      ok, es := MakeEntries(gpuIds, bytes, buffers);
    }
    if ok {
      empties := MakeEmpties(|buffers|);
    }
    objects := {table, table.slots} + ObjectsOf(es);
  }

  /** The section returns `a` and leaves `c`. */
  ghost predicate Answers(pass: Pass, c: Cache, a: Access) {
    pass.outcome == Returned(a) && pass.cache == c
  }

  /** The manager after a stream synchronization that may have failed. */
  ghost function Noted(c: Cache, synchronized: bool): Cache {
    if synchronized then c else NoteSyncFailure(c)
  }

  /** Any reading of the monotone clock. */
  method ReadClock(after: int) returns (now: int)
    ensures now >= after
  {
    now :| now >= after;
  }

  class GpuDataCache {
    var statistics: CacheStatistics
    var waitTimeout: nat
    var evictionPolicy: CacheEvictionPolicy
    var waitingAccesses: nat
    var entries: seq<GpuDataCacheEntry>
    var eligibleGpuIds: seq<int>
    var residencyTable: GpuResidencyTable
    var emptyEntries: seq<nat>
    var leastRecentlyUsed: nat
    var mostRecentlyUsed: nat
    var oldestFilled: nat
    var newestFilled: nat
    var dataBytes: nat
    var activeFallbackAccesses: nat
    var initialized: bool
    var releasing: bool
    var failed: bool
    // The sequences that the two intrusive lists realise, and the number of broadcasts so far.
    ghost var idle: seq<nat>
    ghost var filled: seq<nat>
    ghost var notices: nat
    // Everything that a locked section may touch.
    ghost var Repr: set<object>

    constructor (hash: GpuDataKey -> nat)
      ensures WellFormed() && fresh(Repr) && Abs() == NEVER_INITIALIZED
    {
      statistics, waitTimeout, evictionPolicy, waitingAccesses := NO_STATISTICS, 50, LRU, 0;
      entries, eligibleGpuIds, emptyEntries := [], [], [];
      residencyTable := new GpuResidencyTable(hash);
      leastRecentlyUsed, mostRecentlyUsed, oldestFilled, newestFilled := NO_ENTRY, NO_ENTRY, NO_ENTRY, NO_ENTRY;
      dataBytes, activeFallbackAccesses := 0, 0;
      initialized, releasing, failed := false, false, false;
      idle, filled, notices := [], [], 0;
      new;
      Repr := {this, residencyTable, residencyTable.slots};
    }

    ghost predicate EntriesOk()
      reads this`entries, this`eligibleGpuIds, entries`replicas, entries`initialized
    {
      && |eligibleGpuIds| == 1 && eligibleGpuIds[0] >= 0
      && (forall i :: 0 <= i < |entries| ==> entries[i].slot == i && entries[i].initialized)
      && (forall i :: 0 <= i < |entries| ==>
            |entries[i].replicas| == 1 && entries[i].replicas[0].gpuId == eligibleGpuIds[0])
    }

    ghost predicate IdleOk()
      reads this`entries, this`leastRecentlyUsed, this`mostRecentlyUsed, this`idle
      reads entries`previousEvictable, entries`nextEvictable, entries`inEvictableList
    {
      Realises(EvictRing(entries), leastRecentlyUsed, mostRecentlyUsed, idle)
    }

    ghost predicate FilledOk()
      reads this`entries, this`oldestFilled, this`newestFilled, this`filled
      reads entries`previousFilled, entries`nextFilled, entries`inFilledList
    {
      Realises(FillRing(entries), oldestFilled, newestFilled, filled)
    }

    ghost predicate TableOk()
      reads this`entries, this`residencyTable, residencyTable, residencyTable.slots
    {
      residencyTable.Valid() && residencyTable.initialized && residencyTable.residentLimit == |entries|
    }

    /** The structures of a running manager are well formed; whether they agree with each other is `RepInv`. */
    ghost predicate Consistent()
      reads this, entries, residencyTable, residencyTable.slots
    {
      && EntriesOk() && IdleOk() && FilledOk() && TableOk() && InRange(emptyEntries, |entries|)
      && this in Repr && residencyTable in Repr && residencyTable.slots in Repr
      && (forall i :: 0 <= i < |entries| ==> entries[i] in Repr)
    }

    ghost function Abs(): (c: Cache)
      reads this, entries, residencyTable, residencyTable.slots
      ensures |c.entries| == |entries|
    {
      Cache(initialized, releasing, failed, evictionPolicy, waitTimeout, dataBytes,
            if |eligibleGpuIds| == 1 then Some(eligibleGpuIds[0]) else None,
            ViewsOf(entries), if residencyTable.Valid() then residencyTable.Contents() else map[],
            emptyEntries, idle, filled,
            activeFallbackAccesses, waitingAccesses, statistics, notices)
    }

    ghost predicate MayBecomeIdle(index: nat)
      reads this`entries, this`idle, entries`cacheState, entries`activeAccesses
    {
      index < |entries| && entries[index].cacheState == Valid && entries[index].activeAccesses == 0 && index !in idle
    }

    /** The stores that append entry `index` to the idle list. */
    method LinkEvictable(index: nat)
      requires EntriesOk() && index < |entries| < NO_ENTRY
      requires mostRecentlyUsed == NO_ENTRY || mostRecentlyUsed < |entries|
      modifies this`leastRecentlyUsed, this`mostRecentlyUsed, this`idle, this`notices
      modifies entries`previousEvictable, entries`nextEvictable, entries`inEvictableList
      ensures idle == old(idle) + [index] && notices == old(notices) + 1
      ensures EvictRing(entries) == Appended(old(EvictRing(entries)), old(mostRecentlyUsed), index)
      ensures leastRecentlyUsed == if old(mostRecentlyUsed) == NO_ENTRY then index else old(leastRecentlyUsed)
      ensures mostRecentlyUsed == index
    {
      hide EvictRing, ViewsOf, Without;
      var entry := entries[index];
      entry.previousEvictable := mostRecentlyUsed;
      entry.nextEvictable := NO_ENTRY;
      entry.inEvictableList := true;
      if mostRecentlyUsed != NO_ENTRY {
        entries[mostRecentlyUsed].nextEvictable := index;
      } else {
        leastRecentlyUsed := index;
      }
      mostRecentlyUsed := index;
      idle := idle + [index];
      notices := notices + 1;
    }

    method AppendEvictable(index: nat) returns (ok: bool)
      requires EntriesOk() && IdleOk()
      modifies this`leastRecentlyUsed, this`mostRecentlyUsed, this`idle, this`notices
      modifies entries`previousEvictable, entries`nextEvictable, entries`inEvictableList
      ensures IdleOk()
      ensures ok == old(MayBecomeIdle(index))
      ensures if ok then idle == old(idle) + [index] && notices == old(notices) + 1
              else idle == old(idle) && notices == old(notices)
    {
      EndsAreMembers(EvictRing(entries), leastRecentlyUsed, mostRecentlyUsed, idle);
      if index >= |entries| {
        return false;
      }
      assert EvictRing(entries)[index].member == entries[index].inEvictableList;
      hide Realises, EvictRing, ViewsOf, Appended;
      if entries[index].cacheState != Valid || entries[index].activeAccesses != 0 || entries[index].inEvictableList {
        return false;
      }
      AppendRealises(EvictRing(entries), leastRecentlyUsed, mostRecentlyUsed, idle, index);
      LinkEvictable(index);
      return true;
    }

    /** The stores that take entry `index` out of the idle list. */
    method UnlinkEvictable(index: nat)
      requires EntriesOk() && index < |entries| < NO_ENTRY
      requires var l := EvictRing(entries)[index];
               && (l.prev == NO_ENTRY || (l.prev < |entries| && l.prev != index && l.prev != l.next))
               && (l.next == NO_ENTRY || (l.next < |entries| && l.next != index && l.prev != l.next))
      modifies this`leastRecentlyUsed, this`mostRecentlyUsed, this`idle
      modifies entries`previousEvictable, entries`nextEvictable, entries`inEvictableList
      ensures idle == Without(old(idle), index)
      ensures EvictRing(entries) == Unlinked(old(EvictRing(entries)), index)
      ensures var l := old(EvictRing(entries)[index]);
              && leastRecentlyUsed == (if l.prev == NO_ENTRY then l.next else old(leastRecentlyUsed))
              && mostRecentlyUsed == (if l.next == NO_ENTRY then l.prev else old(mostRecentlyUsed))
    {
      hide EvictRing, ViewsOf, Without;
      var entry := entries[index];
      if entry.previousEvictable != NO_ENTRY {
        entries[entry.previousEvictable].nextEvictable := entry.nextEvictable;
      } else {
        leastRecentlyUsed := entry.nextEvictable;
      }
      if entry.nextEvictable != NO_ENTRY {
        entries[entry.nextEvictable].previousEvictable := entry.previousEvictable;
      } else {
        mostRecentlyUsed := entry.previousEvictable;
      }
      entry.previousEvictable := NO_ENTRY;
      entry.nextEvictable := NO_ENTRY;
      entry.inEvictableList := false;
      idle := Without(idle, index);
    }

    method DetachEvictable(index: nat) returns (ok: bool)
      requires EntriesOk() && IdleOk()
      modifies this`leastRecentlyUsed, this`mostRecentlyUsed, this`idle
      modifies entries`previousEvictable, entries`nextEvictable, entries`inEvictableList
      ensures IdleOk()
      ensures ok <==> index in old(idle)
      ensures idle == if ok then Without(old(idle), index) else old(idle)
    {
      MembersInRange(EvictRing(entries), leastRecentlyUsed, mostRecentlyUsed, idle);
      EndsAreMembers(EvictRing(entries), leastRecentlyUsed, mostRecentlyUsed, idle);
      hide Realises, EvictRing, ViewsOf, Unlinked, Without;
      if index >= |entries| {
        return false;
      }
      assert EvictRing(entries)[index].member == entries[index].inEvictableList;
      if !entries[index].inEvictableList {
        return false;
      }
      NeighboursInRange(EvictRing(entries), leastRecentlyUsed, mostRecentlyUsed, idle, index);
      UnlinkRealises(EvictRing(entries), leastRecentlyUsed, mostRecentlyUsed, idle, index);
      UnlinkEvictable(index);
      return true;
    }

    ghost predicate MayBecomeFilled(index: nat)
      reads this`entries, this`filled, entries`cacheState, entries`activeAccesses
    {
      index < |entries| && entries[index].cacheState == Valid && entries[index].activeAccesses == 0 && index !in filled
    }

    /** The stores that append entry `index` to the fill list. */
    method LinkFilled(index: nat)
      requires EntriesOk() && index < |entries| < NO_ENTRY
      requires newestFilled == NO_ENTRY || newestFilled < |entries|
      modifies this`oldestFilled, this`newestFilled, this`filled
      modifies entries`previousFilled, entries`nextFilled, entries`inFilledList
      ensures filled == old(filled) + [index]
      ensures FillRing(entries) == Appended(old(FillRing(entries)), old(newestFilled), index)
      ensures oldestFilled == if old(newestFilled) == NO_ENTRY then index else old(oldestFilled)
      ensures newestFilled == index
    {
      hide FillRing, ViewsOf, Without;
      var entry := entries[index];
      entry.previousFilled := newestFilled;
      entry.nextFilled := NO_ENTRY;
      entry.inFilledList := true;
      if newestFilled != NO_ENTRY {
        entries[newestFilled].nextFilled := index;
      } else {
        oldestFilled := index;
      }
      newestFilled := index;
      filled := filled + [index];
    }

    method AppendFilled(index: nat) returns (ok: bool)
      requires EntriesOk() && FilledOk()
      modifies this`oldestFilled, this`newestFilled, this`filled
      modifies entries`previousFilled, entries`nextFilled, entries`inFilledList
      ensures FilledOk()
      ensures ok == old(MayBecomeFilled(index))
      ensures filled == if ok then old(filled) + [index] else old(filled)
    {
      EndsAreMembers(FillRing(entries), oldestFilled, newestFilled, filled);
      if index >= |entries| {
        return false;
      }
      assert FillRing(entries)[index].member == entries[index].inFilledList;
      hide Realises, FillRing, ViewsOf, Appended;
      if entries[index].cacheState != Valid || entries[index].activeAccesses != 0 || entries[index].inFilledList {
        return false;
      }
      AppendRealises(FillRing(entries), oldestFilled, newestFilled, filled, index);
      LinkFilled(index);
      return true;
    }

    /** The stores that take entry `index` out of the fill list. */
    method UnlinkFilled(index: nat)
      requires EntriesOk() && index < |entries| < NO_ENTRY
      requires var l := FillRing(entries)[index];
               && (l.prev == NO_ENTRY || (l.prev < |entries| && l.prev != index && l.prev != l.next))
               && (l.next == NO_ENTRY || (l.next < |entries| && l.next != index && l.prev != l.next))
      modifies this`oldestFilled, this`newestFilled, this`filled
      modifies entries`previousFilled, entries`nextFilled, entries`inFilledList
      ensures filled == Without(old(filled), index)
      ensures FillRing(entries) == Unlinked(old(FillRing(entries)), index)
      ensures var l := old(FillRing(entries)[index]);
              && oldestFilled == (if l.prev == NO_ENTRY then l.next else old(oldestFilled))
              && newestFilled == (if l.next == NO_ENTRY then l.prev else old(newestFilled))
    {
      hide FillRing, ViewsOf, Without;
      var entry := entries[index];
      if entry.previousFilled != NO_ENTRY {
        entries[entry.previousFilled].nextFilled := entry.nextFilled;
      } else {
        oldestFilled := entry.nextFilled;
      }
      if entry.nextFilled != NO_ENTRY {
        entries[entry.nextFilled].previousFilled := entry.previousFilled;
      } else {
        newestFilled := entry.previousFilled;
      }
      entry.previousFilled := NO_ENTRY;
      entry.nextFilled := NO_ENTRY;
      entry.inFilledList := false;
      filled := Without(filled, index);
    }

    method DetachFilled(index: nat) returns (ok: bool)
      requires EntriesOk() && FilledOk()
      modifies this`oldestFilled, this`newestFilled, this`filled
      modifies entries`previousFilled, entries`nextFilled, entries`inFilledList
      ensures FilledOk()
      ensures ok <==> index in old(filled)
      ensures filled == if ok then Without(old(filled), index) else old(filled)
    {
      MembersInRange(FillRing(entries), oldestFilled, newestFilled, filled);
      EndsAreMembers(FillRing(entries), oldestFilled, newestFilled, filled);
      hide Realises, FillRing, ViewsOf, Unlinked, Without;
      if index >= |entries| {
        return false;
      }
      assert FillRing(entries)[index].member == entries[index].inFilledList;
      if !entries[index].inFilledList {
        return false;
      }
      NeighboursInRange(FillRing(entries), oldestFilled, newestFilled, filled, index);
      UnlinkRealises(FillRing(entries), oldestFilled, newestFilled, filled, index);
      UnlinkFilled(index);
      return true;
    }

    // -------------------------------------------------------------- list operations on the abstract value

    method AddEvictableEntry(index: nat) returns (ok: bool)
      requires Consistent()
      modifies Repr
      ensures Repr == old(Repr) && entries == old(entries)
      ensures Consistent()
      ensures ok <==> IsIdleCandidate(old(Abs()), index)
      ensures Abs() == if ok then AddIdle(old(Abs()), index) else old(Abs())
    {
      hide EntriesOk, IdleOk, FilledOk, TableOk, InRange, ViewsOf, GpuResidencyTable.Valid, GpuResidencyTable.Contents,
           IsIdleCandidate, MayBecomeIdle;
      IdleCandidateSeen(index);
      ok := AppendEvictable(index);
    }

    lemma IdleCandidateSeen(index: nat)
      requires Consistent()
      ensures MayBecomeIdle(index) == IsIdleCandidate(Abs(), index)
    {
    }

    method RemoveEvictableEntry(index: nat) returns (ok: bool)
      requires Consistent()
      modifies Repr
      ensures Repr == old(Repr) && entries == old(entries)
      ensures Consistent()
      ensures ok <==> index in old(Abs()).idle
      ensures Abs() == if ok then NotIdle(old(Abs()), index) else old(Abs())
    {
      hide EntriesOk, IdleOk, FilledOk, TableOk, InRange, ViewsOf, Without, GpuResidencyTable.Valid,
           GpuResidencyTable.Contents;
      ok := DetachEvictable(index);
    }

    method AddFilledFifo(index: nat) returns (ok: bool)
      requires Consistent()
      modifies Repr
      ensures Repr == old(Repr) && entries == old(entries)
      ensures Consistent()
      ensures ok <==> IsFillCandidate(old(Abs()), index)
      ensures Abs() == if ok then Aged(old(Abs()), index) else old(Abs())
    {
      hide EntriesOk, IdleOk, FilledOk, TableOk, InRange, ViewsOf, GpuResidencyTable.Valid, GpuResidencyTable.Contents;
      ok := AppendFilled(index);
    }

    method AddFilledEntry(index: nat) returns (ok: bool)
      requires Consistent()
      modifies Repr
      ensures Repr == old(Repr) && entries == old(entries)
      ensures Consistent()
      ensures ok <==> old(Abs()).policy != FIFO || IsFillCandidate(old(Abs()), index)
      ensures Abs() == if ok && old(Abs()).policy == FIFO then Aged(old(Abs()), index) else old(Abs())
    {
      hide Consistent, Abs;
      FieldsOfAbs();
      if evictionPolicy != FIFO {
        return true;
      }
      ok := AddFilledFifo(index);
    }

    method RemoveFilledEntry(index: nat) returns (ok: bool)
      requires Consistent()
      modifies Repr
      ensures Repr == old(Repr) && entries == old(entries)
      ensures Consistent()
      ensures ok <==> index in old(Abs()).filled
      ensures Abs() == if ok then NotAged(old(Abs()), index) else old(Abs())
    {
      hide EntriesOk, IdleOk, FilledOk, TableOk, InRange, ViewsOf, Without, GpuResidencyTable.Valid,
           GpuResidencyTable.Contents;
      ok := DetachFilled(index);
    }

    // -------------------------------------------------------------- stores to one entry

    method AddReader(index: nat)
      requires Consistent() && index < |entries|
      modifies Repr
      ensures Repr == old(Repr) && entries == old(entries)
      ensures Consistent()
      ensures Abs() == ReaderAdded(old(Abs()), index)
    {
      hide IdleOk, FilledOk, TableOk, InRange, ViewsOf, GpuResidencyTable.Valid, GpuResidencyTable.Contents;
      entries[index].activeAccesses := entries[index].activeAccesses + 1;
    }

    method DropReader(index: nat, discardNow: bool)
      requires Consistent() && index < |entries| && entries[index].activeAccesses > 0
      modifies Repr
      ensures Repr == old(Repr) && entries == old(entries)
      ensures Consistent() && Abs() == ReaderDropped(old(Abs()), index, discardNow)
    {
      hide IdleOk, FilledOk, TableOk, InRange, ViewsOf, GpuResidencyTable.Valid, GpuResidencyTable.Contents;
      entries[index].DropReader(discardNow);
    }

    method BeginLoading(index: nat, md: FrameMetadata)
      requires Consistent() && index < |entries|
      modifies Repr
      ensures Repr == old(Repr) && entries == old(entries)
      ensures Consistent() && Abs() == LoadingBegun(old(Abs()), index, md)
    {
      hide IdleOk, FilledOk, TableOk, InRange, ViewsOf, GpuResidencyTable.Valid, GpuResidencyTable.Contents;
      entries[index].BeginLoading(md);
    }

    /** Marks the replica of `gpuId` valid and the entry readable; false when there is no such replica. */
    method MarkPublished(index: nat, gpuId: int) returns (ok: bool)
      requires Consistent() && index < |entries|
      modifies Repr
      ensures Repr == old(Repr) && entries == old(entries)
      ensures Consistent() && ok == (old(Abs()).gpuId == Some(gpuId))
      ensures Abs() == if ok then MadeReadable(old(Abs()), index) else old(Abs())
    {
      hide IdleOk, FilledOk, TableOk, InRange, ViewsOf, GpuResidencyTable.Valid, GpuResidencyTable.Contents;
      ok := entries[index].Publish(gpuId);
    }

    method ClearIdentity(index: nat)
      requires Consistent() && index < |entries|
      modifies Repr
      ensures Repr == old(Repr) && entries == old(entries)
      ensures Consistent() && Abs() == WithEntry(old(Abs()), index, old(Abs()).entries[index].Cleared())
    {
      hide IdleOk, FilledOk, TableOk, InRange, ViewsOf, GpuResidencyTable.Valid, GpuResidencyTable.Contents;
      entries[index].ClearIdentity();
    }

    /** Resetting the links of an entry that is on no list changes nothing. */
    method ClearLinks(index: nat)
      requires Consistent() && index < |entries| && index !in Abs().idle && index !in Abs().filled
      modifies Repr
      ensures Repr == old(Repr) && entries == old(entries)
      ensures Consistent() && Abs() == old(Abs())
    {
      hide EntriesOk, EvictRing, FillRing, Realises, TableOk, InRange, ViewsOf, GpuResidencyTable.Valid,
           GpuResidencyTable.Contents;
      ghost var evict, fill := EvictRing(entries), FillRing(entries);
      NonMembersAreUnlinked(evict, leastRecentlyUsed, mostRecentlyUsed, idle, index);
      NonMembersAreUnlinked(fill, oldestFilled, newestFilled, filled, index);
      entries[index].ClearLinks();
      assert EvictRing(entries) == evict;
      assert FillRing(entries) == fill;
    }

    // -------------------------------------------------------------- stores to the manager

    method PushEmpty(index: nat)
      requires Consistent() && index < |entries|
      modifies Repr
      ensures Repr == old(Repr) && entries == old(entries)
      ensures Consistent() && Abs() == old(Abs()).(empties := old(Abs()).empties + [index],
              notices := old(Abs()).notices + 1)
    {
      hide EntriesOk, IdleOk, FilledOk, TableOk, ViewsOf, GpuResidencyTable.Valid, GpuResidencyTable.Contents;
      emptyEntries := emptyEntries + [index];
      notices := notices + 1;
    }

    method PopEmpty() returns (index: nat)
      requires Consistent() && Abs().empties != []
      modifies Repr
      ensures Repr == old(Repr) && entries == old(entries)
      ensures Consistent() && index < |entries| && index == old(Abs().empties[|Abs().empties| - 1])
      ensures Abs() == EmptyPopped(old(Abs()))
    {
      hide EntriesOk, IdleOk, FilledOk, TableOk, ViewsOf, GpuResidencyTable.Valid, GpuResidencyTable.Contents;
      index := emptyEntries[|emptyEntries| - 1];
      emptyEntries := emptyEntries[..|emptyEntries| - 1];
    }

    method EraseResident(key: GpuDataKey, index: nat) returns (ok: bool)
      requires Consistent()
      modifies Repr
      ensures Repr == old(Repr) && entries == old(entries)
      ensures Consistent() && ok == (key in old(Abs()).table && old(Abs()).table[key] == index)
      ensures Abs() == NotResident(old(Abs()), key, index)
    {
      hide EntriesOk, IdleOk, FilledOk, ViewsOf, InRange;
      ok := residencyTable.Erase(key, index);
    }

    method InsertResident(key: GpuDataKey, index: nat) returns (ok: bool)
      requires Consistent()
      modifies Repr
      ensures Repr == old(Repr) && entries == old(entries)
      ensures Consistent() && ok == (|old(Abs()).table| < |entries| && key !in old(Abs()).table)
      ensures Abs() == if ok then Resident(old(Abs()), key, index) else old(Abs())
    {
      hide EntriesOk, IdleOk, FilledOk, ViewsOf, InRange;
      ok := residencyTable.Insert(key, index);
    }

    method FindResident(key: GpuDataKey) returns (found: bool, index: nat)
      requires Consistent()
      ensures found == (key in Abs().table) && (found ==> index == Abs().table[key])
    {
      found, index := residencyTable.Find(key);
    }

    method Count(counted: CacheStatistics)
      requires Consistent()
      modifies Repr
      ensures Repr == old(Repr) && entries == old(entries)
      ensures Consistent() && Abs() == Counted(old(Abs()), counted)
    {
      hide EntriesOk, IdleOk, FilledOk, TableOk, ViewsOf, InRange, GpuResidencyTable.Valid, GpuResidencyTable.Contents;
      statistics := counted;
    }

    method SetFallbacks(count: nat)
      requires Consistent()
      modifies Repr
      ensures Repr == old(Repr) && entries == old(entries)
      ensures Consistent() && Abs() == old(Abs()).(fallbacks := count)
    {
      hide EntriesOk, IdleOk, FilledOk, TableOk, ViewsOf, InRange, GpuResidencyTable.Valid, GpuResidencyTable.Contents;
      activeFallbackAccesses := count;
    }

    method SetWaiting(count: nat)
      requires Consistent()
      modifies Repr
      ensures Repr == old(Repr) && entries == old(entries)
      ensures Consistent() && Abs() == old(Abs()).(waiting := count)
    {
      hide EntriesOk, IdleOk, FilledOk, TableOk, ViewsOf, InRange, GpuResidencyTable.Valid, GpuResidencyTable.Contents;
      waitingAccesses := count;
    }

    // -------------------------------------------------------------- queries

    lemma FieldsOfAbs()
      ensures var c := Abs();
              && c.initialized == initialized && c.releasing == releasing && c.failed == failed
              && c.policy == evictionPolicy && c.waitTimeout == waitTimeout && c.dataBytes == dataBytes
              && c.empties == emptyEntries && c.idle == idle && c.filled == filled
              && c.fallbacks == activeFallbackAccesses && c.waiting == waitingAccesses && c.stats == statistics
              && c.notices == notices
    {
    }

    lemma EntryOfAbs(index: nat)
      requires index < |entries|
      ensures Abs().entries[index] == entries[index].View()
    {
    }

    lemma ListsAreDistinct()
      requires Consistent()
      ensures Distinct(Abs().idle) && Distinct(Abs().filled)
    {
    }

    method IsEvictable(index: nat) returns (b: bool)
      requires Consistent() && index < |entries|
      ensures b <==> index in Abs().idle
    {
      assert EvictRing(entries)[index].member == entries[index].inEvictableList;
      b := entries[index].inEvictableList;
    }

    method IsInFillList(index: nat) returns (b: bool)
      requires Consistent() && index < |entries|
      ensures b <==> index in Abs().filled
    {
      assert FillRing(entries)[index].member == entries[index].inFilledList;
      b := entries[index].inFilledList;
    }

    method DataForGpu(index: nat, gpuId: int) returns (pointer: DevicePointer)
      requires Consistent() && index < |entries|
      ensures pointer == CacheSpec.DataForGpu(Abs(), index, gpuId)
    {
      pointer := entries[index].DataForGpu(gpuId);
    }

    method ReplicaValid(index: nat, gpuId: int) returns (valid: bool)
      requires Consistent() && index < |entries|
      ensures valid <==> Abs().gpuId == Some(gpuId) && Abs().entries[index].replicaValid
    {
      valid := entries[index].ReplicaValid(gpuId);
      assert FirstReplica(entries[index].replicas, eligibleGpuIds[0], 0);
    }

    // -------------------------------------------------------------- entry transitions

    method LeaveIdleList(index: nat)
      requires Consistent() && index < |entries|
      modifies Repr
      ensures Repr == old(Repr) && entries == old(entries)
      ensures Consistent() && Abs() == NotIdle(old(Abs()), index)
    {
      hide Consistent, Abs, Without;
      ListsAreDistinct();
      WithoutAbsentOrGone(Abs().idle, index);
      var evictable := IsEvictable(index);
      if evictable {
        var removed := RemoveEvictableEntry(index);
      }
    }

    method LeaveFillList(index: nat)
      requires Consistent() && index < |entries|
      modifies Repr
      ensures Repr == old(Repr) && entries == old(entries)
      ensures Consistent() && Abs() == NotAged(old(Abs()), index)
    {
      hide Consistent, Abs, Without;
      ListsAreDistinct();
      WithoutAbsentOrGone(Abs().filled, index);
      var aged := IsInFillList(index);
      if aged {
        var removed := RemoveFilledEntry(index);
      }
    }

    /** Blanks an entry that is on no list and returns its index to the empty stack, waking the waiters. */
    method BlankEntry(index: nat)
      requires Consistent() && index < |entries| && index !in Abs().idle && index !in Abs().filled
      modifies Repr
      ensures Repr == old(Repr) && entries == old(entries)
      ensures Consistent() && Abs() == Blanked(old(Abs()), index)
    {
      hide Consistent, Abs;
      ClearIdentity(index);
      ClearLinks(index);
      PushEmpty(index);
    }

    method ResetEntry(index: nat)
      requires Consistent() && index < |entries|
      modifies Repr
      ensures Repr == old(Repr) && entries == old(entries)
      ensures Consistent() && Abs() == CacheSpec.ResetEntry(old(Abs()), index)
    {
      hide Consistent, Abs, Without, NotIdle, NotAged, NotResident, Blanked, CacheSpec.ResetEntry;
      ListsAreDistinct();
      WithoutAbsentOrGone(Abs().idle, index);
      WithoutAbsentOrGone(Abs().filled, index);
      ResetInSteps(Abs(), index);
      EntryOfAbs(index);
      LeaveIdleList(index);
      LeaveFillList(index);
      EntryOfAbs(index);
      var erased := EraseResident(entries[index].metadata.key, index);
      BlankEntry(index);
    }

    method CountDiscarded()
      requires Consistent()
      modifies Repr
      ensures Repr == old(Repr) && entries == old(entries)
      ensures Consistent() && Abs() == CountDiscard(old(Abs()))
    {
      hide Consistent, Abs;
      FieldsOfAbs();
      Count(statistics.CountDiscard());
    }

    /** After a reader has left entry `index`: nothing while others remain, else discard or make evictable. */
    method ReleaseReaderEntry(index: nat) returns (ok: bool)
      requires Consistent() && index < |entries|
      modifies Repr
      ensures Repr == old(Repr) && entries == old(entries) && Consistent()
      ensures var e := old(Abs()).entries[index];
              ok <==> e.active != 0 || e.discard || IsIdleCandidate(old(Abs()), index)
      ensures Abs() == if ok then Released(old(Abs()), index) else old(Abs())
    {
      hide Consistent, Abs, CacheSpec.ResetEntry, IsIdleCandidate, AddIdle, CountDiscard;
      EntryOfAbs(index);
      if entries[index].activeAccesses != 0 {
        return true;
      }
      if entries[index].discardWhenUnused {
        ResetEntry(index);
        CountDiscarded();
        return true;
      }
      ok := AddEvictableEntry(index);
    }

    // -------------------------------------------------------------- choosing an entry

    /** The scan of the fill order past entries that are being read. */
    method OldestUnread() returns (index: nat)
      requires Consistent()
      ensures index == OrNoEntry(FirstUnread(Abs().filled, Abs().entries))
    {
      hide Consistent, Abs, FirstUnread, UnreadFrom;
      ghost var order, views, position := filled, Abs().entries, 0;
      FieldsOfAbs();
      FillHead();
      index := oldestFilled;
      UnreadAll(order, views);
      while index != NO_ENTRY && IsRead(index)
        invariant 0 <= position <= |order|
        invariant index == if position == |order| then NO_ENTRY else order[position]
        invariant position < |order| ==> index < |entries|
        invariant FirstUnread(order, views) == UnreadFrom(order, position, views)
        decreases |order| - position
      {
        FillNext(position);
        EntryOfAbs(index);
        UnreadSkips(order, position, views);
        index := entries[index].nextFilled;
        position := position + 1;
      }
      if index != NO_ENTRY {
        EntryOfAbs(index);
      }
      UnreadFound(order, position, views);
    }

    predicate IsRead(index: nat)
      requires index < |entries|
      reads this`entries, entries`activeAccesses
    {
      entries[index].activeAccesses != 0
    }

    lemma FillHead()
      requires Consistent()
      ensures |entries| < NO_ENTRY && oldestFilled == if filled == [] then NO_ENTRY else filled[0]
      ensures filled != [] ==> filled[0] < |entries|
    {
    }

    lemma FillNext(a: nat)
      requires Consistent() && a < |filled|
      ensures filled[a] < |entries| && entries[filled[a]].nextFilled == if a == |filled| - 1 then NO_ENTRY
              else filled[a + 1]
      ensures a + 1 < |filled| ==> filled[a + 1] < |entries|
    {
      NextInList(FillRing(entries), oldestFilled, newestFilled, filled, a);
      assert FillRing(entries)[filled[a]] == entries[filled[a]].FillLinks();
    }

    /** The entry that the policy would evict, or none. */
    method PickVictim() returns (index: nat)
      requires Consistent() && RepInv(Abs()) && Abs().empties == []
      ensures IndicesInRange(Abs())
      ensures index == match ChooseCandidate(Abs()) case TakeIdle(i) => i case _ => NO_ENTRY
    {
      hide Consistent, Abs, RepInv, IndicesInRange, FirstUnread;
      RepInRange(Abs());
      FieldsOfAbs();
      IdleHead();
      if leastRecentlyUsed == NO_ENTRY {
        return NO_ENTRY;
      }
      index := leastRecentlyUsed;
      if evictionPolicy == FIFO {
        VictimIsIdle(Abs());
        index := OldestUnread();
      }
    }

    method TakeCandidate() returns (index: nat, wasEmpty: bool)
      requires Consistent() && RepInv(Abs())
      modifies Repr
      ensures Repr == old(Repr) && entries == old(entries) && Consistent() && IndicesInRange(old(Abs()))
      ensures match ChooseCandidate(old(Abs()))
              case NoCandidate => index == NO_ENTRY && Abs() == old(Abs())
              case TakeEmpty(i) => index == i && wasEmpty && Abs() == EmptyPopped(old(Abs()))
              case TakeIdle(i) => index == i && !wasEmpty && Abs() == NotIdle(old(Abs()), i)
    {
      hide Consistent, Abs, RepInv, IndicesInRange, NotIdle, EmptyPopped, ChooseCandidate;
      RepInRange(Abs());
      CandidateFacts(Abs());
      FieldsOfAbs();
      wasEmpty := emptyEntries != [];
      if wasEmpty {
        index := PopEmpty();
      } else {
        index := PickVictim();
        if index != NO_ENTRY {
          var removed := RemoveEvictableEntry(index);
          if !removed {
            assert false;
          }
        }
      }
    }

    lemma IdleHead()
      requires Consistent()
      ensures leastRecentlyUsed == if Abs().idle == [] then NO_ENTRY else Abs().idle[0]
      ensures Abs().idle != [] ==> Abs().idle[0] < NO_ENTRY
    {
    }

    // -------------------------------------------------------------- lookups

    method CountInvalid()
      requires Consistent()
      modifies Repr
      ensures Repr == old(Repr) && entries == old(entries)
      ensures Consistent() && Abs() == Reject(old(Abs()))
    {
      hide Consistent, Abs;
      FieldsOfAbs();
      Count(statistics.CountInvalid());
    }

    method MakeFallbackAccess(md: FrameMetadata, req: GpuCacheRequest, reason: CacheFallbackReason) returns (a: Access)
      requires Consistent()
      modifies Repr
      ensures Repr == old(Repr) && entries == old(entries)
      ensures Consistent() && Abs() == ServeFallback(old(Abs()), reason) && a == FallbackLease(old(Abs()), md, req)
    {
      hide Consistent, Abs, CacheStatistics.CountFallback;
      FieldsOfAbs();
      a := Access(true, req.d_fallback, dataBytes, NO_ENTRY, md.key, req.stream, req.gpuId, TaskFallback);
      Count(statistics.CountFallback(reason));
      FieldsOfAbs();
      SetFallbacks(activeFallbackAccesses + 1);
    }

    method CountBlocked(p: Progress, onLoading: bool) returns (p': Progress)
      requires Consistent()
      modifies Repr
      ensures Repr == old(Repr) && entries == old(entries) && p' == p.(blocked := true)
      ensures Consistent() && Abs() == Blocked(old(Abs()), p, if onLoading then StillLoading else Full)
    {
      hide Consistent, Abs, CacheStatistics.CountFirstBlock;
      FieldsOfAbs();
      p' := p;
      if !p.blocked {
        Count(statistics.CountFirstBlock(onLoading));
        p' := p.(blocked := true);
      }
    }

    /** The part of the wait before the lock is given up; false when the request must not sleep. */
    method PrepareToWait(p: Progress, now: int) returns (sleeps: bool, p': Progress)
      requires Consistent()
      modifies Repr
      ensures Repr == old(Repr) && entries == old(entries) && Consistent()
      ensures sleeps == MayWait(old(Abs()), p.deadline, now)
      ensures if sleeps then Abs() == FallAsleep(old(Abs()), p.waited) && p' == p.(waited := true)
              else Abs() == old(Abs()) && p' == p
    {
      hide Consistent, Abs, CacheStatistics.CountWaiter;
      FieldsOfAbs();
      p' := p;
      if entries == [] || waitTimeout == 0 || now >= p.deadline {
        return false, p';
      }
      p' := p.(waited := true);
      Count(statistics.CountWaiter(p.waited));
      FieldsOfAbs();
      SetWaiting(waitingAccesses + 1);
      sleeps := true;
    }

    /** The part of the wait after the lock is held again. */
    method FinishWait(p: Progress, elapsed: nat) returns (p': Progress)
      requires Consistent() && Abs().waiting > 0
      modifies Repr
      ensures Repr == old(Repr) && entries == old(entries) && Consistent()
      ensures Abs() == Wake(old(Abs()), p, elapsed).cache && p' == Wake(old(Abs()), p, elapsed).progress
    {
      hide Consistent, Abs, CacheStatistics.CountWait;
      FieldsOfAbs();
      SetWaiting(waitingAccesses - 1);
      p' := p.(requestWait := p.requestWait + elapsed);
      FieldsOfAbs();
      Count(statistics.CountWait(elapsed, p'.requestWait));
    }

    method MeetObstacle(f: Finding, md: FrameMetadata, req: GpuCacheRequest, p: Progress, now: int)
      returns (p': Progress, out: Outcome)
      requires Consistent() && Obstructed(f)
      modifies Repr
      ensures Repr == old(Repr) && entries == old(entries) && Consistent()
      ensures Pass(Abs(), p', out) == Obstruct(old(Abs()), f, md, req, p, now)
    {
      hide Consistent, Abs, Obstruct, MayWait, FallAsleep, ServeFallback, Blocked, FallbackLease;
      ObstructInSteps(Abs(), f, md, req, p, now);
      p' := CountBlocked(p, f == StillLoading);
      var sleeps;
      sleeps, p' := PrepareToWait(p', now);
      if sleeps {
        out := Sleeping;
      } else {
        FieldsOfAbs();
        var reason := if f == StillLoading then (if waitTimeout == 0 then LoadingNoWait else LoadingTimeout)
                      else (if waitTimeout == 0 then FullNoWait else FullTimeout);
        var a := MakeFallbackAccess(md, req, reason);
        out := Returned(a);
      }
    }

    /** A reader joins the valid entry `index`. */
    method JoinReaders(index: nat)
      requires Consistent() && RepInv(Abs()) && index < |entries| && Abs().entries[index].state == Valid
      modifies Repr
      ensures Repr == old(Repr) && entries == old(entries)
      ensures Consistent() && Abs() == ServeHit(old(Abs()), index)
    {
      hide Consistent, Abs, RepInv, ServeHit, NotIdle, ReaderAdded, Counted;
      HitInSteps(Abs(), index);
      EntryOfAbs(index);
      FieldsOfAbs();
      if entries[index].activeAccesses == 0 {
        var removed := RemoveEvictableEntry(index);
        assert removed;
      }
      AddReader(index);
      FieldsOfAbs();
      ReaderAddedKeepsStats(if index in old(Abs()).idle then NotIdle(old(Abs()), index) else old(Abs()), index);
      Count(statistics.CountHit());
    }

    /** The program's checks of a candidate that it has just taken; none of them can fail. */
    method ExamineCandidate(index: nat, state: GpuCacheState, gpuId: int) returns (deviceData: DevicePointer)
      requires Consistent() && index < |entries| && Abs().gpuId == Some(gpuId) && LooksLike(Abs(), index, state)
      ensures deviceData == Abs().entries[index].buffer
    {
      hide Consistent, Abs;
      FieldsOfAbs();
      EntryOfAbs(index);
      deviceData := DataForGpu(index, gpuId);
      if deviceData == NULL_POINTER {
        assert false;
      }
      var evictable := IsEvictable(index);
      if entries[index].cacheState != state || entries[index].activeAccesses != 0 || evictable {
        assert false;
      }
    }

    /** An empty entry, already popped from the stack, is reserved for a new key. */
    method ReserveEmpty(index: nat, md: FrameMetadata, gpuId: int) returns (deviceData: DevicePointer)
      requires Consistent() && index < |entries| && |Abs().table| < |entries| && md.key !in Abs().table
      requires Abs().gpuId == Some(gpuId) && LooksLike(Abs(), index, Empty)
      modifies Repr
      ensures Repr == old(Repr) && entries == old(entries)
      ensures Consistent() && deviceData == old(Abs()).entries[index].buffer
      ensures var c2 := Resident(old(Abs()), md.key, index);
              Abs() == Counted(LoadingBegun(c2, index, md), c2.stats.CountReservation(false))
    {
      hide Consistent, Abs, LoadingBegun, Counted, LooksLike;
      deviceData := ExamineCandidate(index, Empty, gpuId);
      var inserted := InsertResident(md.key, index);
      assert inserted;
      FieldsOfAbs();
      var counted := statistics.CountReservation(false);
      CountedCommutes(Abs(), counted, index, md);
      Count(counted);
      BeginLoading(index, md);
    }

    /** An idle entry, already taken off the idle list, gives up its key and is reserved for a new one. */
    method ReserveIdle(index: nat, md: FrameMetadata, gpuId: int, ghost c: Cache) returns (deviceData: DevicePointer)
      requires Consistent() && RepInv(c) && index in c.idle && md.key !in c.table && |c.entries| == |entries|
      requires index < |c.entries| && Abs() == NotIdle(c, index)
      requires Abs().gpuId == Some(gpuId) && LooksLike(Abs(), index, Valid)
      modifies Repr
      ensures Repr == old(Repr) && entries == old(entries)
      ensures Consistent() && Abs() == FillIdle(c, index, md) && deviceData == old(Abs()).entries[index].buffer
    {
      hide Consistent, Abs, RepInv, LoadingBegun, Counted, FillIdle, NotIdle, NotAged, NotResident, Resident, LooksLike;
      FillIdleInSteps(c, index, md);
      deviceData := ExamineCandidate(index, Valid, gpuId);
      EntryOfAbs(index);
      var erased := EraseResident(entries[index].metadata.key, index);
      assert erased;
      var inserted := InsertResident(md.key, index);
      assert inserted;
      FieldsOfAbs();
      if evictionPolicy == FIFO {
        var removed := RemoveFilledEntry(index);
        assert removed;
      }
      FieldsOfAbs();
      var counted := statistics.CountReservation(true);
      CountedCommutes(Abs(), counted, index, md);
      Count(counted);
      BeginLoading(index, md);
    }

    /** Takes an entry for a key that is not resident, or reports that none is available. */
    method TakeAndReserve(md: FrameMetadata, gpuId: int) returns (index: nat, deviceData: DevicePointer)
      requires Consistent() && RepInv(Abs()) && md.key !in Abs().table && !Abs().failed && Abs().gpuId == Some(gpuId)
      modifies Repr
      ensures Repr == old(Repr) && entries == old(entries) && Consistent() && IndicesInRange(old(Abs()))
      ensures index == Reserved(Find(old(Abs()), md)) && Abs() == Served(old(Abs()), md)
      ensures index != NO_ENTRY ==> index < |entries| && deviceData == old(Abs()).entries[index].buffer
    {
      hide Consistent, Abs, RepInv, IndicesInRange, FillEmpty, FillIdle, EmptyPopped, NotIdle, ChooseCandidate,
           LooksLike, SoundEmpty, SoundIdle;
      ghost var c := Abs();
      FieldsOfAbs();
      FindingIsTrue(c, md);
      CandidateFacts(c);
      CandidateLooks(c);
      if c.empties != [] {
        FillEmptyInSteps(c, c.empties[|c.empties| - 1], md);
      }
      var wasEmpty;
      index, wasEmpty := TakeCandidate();
      if index != NO_ENTRY {
        if wasEmpty {
          deviceData := ReserveEmpty(index, md, gpuId);
        } else {
          deviceData := ReserveIdle(index, md, gpuId, c);
        }
      } else {
        deviceData := NULL_POINTER;
      }
    }

    /** The lookup of a resident key: an error, an obstacle or a hit. */
    method VisitResident(index: nat, md: FrameMetadata, req: GpuCacheRequest, p: Progress, now: int)
      returns (p': Progress, out: Outcome)
      requires Consistent() && RepInv(Abs()) && Abs().gpuId == Some(req.gpuId) && !Abs().failed
      requires md.key in Abs().table && Abs().table[md.key] == index
      modifies Repr
      ensures Repr == old(Repr) && entries == old(entries) && Consistent() && IndicesInRange(old(Abs()))
      ensures Pass(Abs(), p', out) == Section(old(Abs()), md, req, p, now)
    {
      hide Consistent, Abs, RepInv, IndicesInRange, ChooseCandidate, Obstruct, ServeHit, Reject, Section;
      SectionCases(Abs(), md, req, p, now);
      FindingIsTrue(Abs(), md);
      ResidentEntry(Abs(), md.key);
      EntryOfAbs(index);
      FieldsOfAbs();
      p' := p;
      if index >= |entries| {
        assert false;
      }
      if entries[index].metadata != md {
        CountInvalid();
        return p', Returned(NO_ACCESS);
      }
      if entries[index].cacheState == Loading {
        p', out := MeetObstacle(StillLoading, md, req, p, now);
        return;
      }
      if entries[index].cacheState != Valid {
        assert false;
      }
      out := HitResident(index, md, req);
    }

    /** A hit on a valid entry: its replica cannot be missing, and the lists cannot contradict its readers. */
    method HitResident(index: nat, md: FrameMetadata, req: GpuCacheRequest) returns (out: Outcome)
      requires Consistent() && RepInv(Abs()) && Abs().gpuId == Some(req.gpuId)
      requires index < |entries| && Abs().entries[index].state == Valid
      requires Abs().entries[index].replicaValid && Abs().entries[index].buffer != NULL_POINTER
      modifies Repr
      ensures Repr == old(Repr) && entries == old(entries) && Consistent()
      ensures Abs() == ServeHit(old(Abs()), index) && out == Returned(CacheLease(old(Abs()), index, md, req, CacheHit))
    {
      hide Consistent, Abs, RepInv, ServeHit;
      ValidIsJoinable(Abs(), index);
      FieldsOfAbs();
      EntryOfAbs(index);
      var deviceData := DataForGpu(index, req.gpuId);
      var readable := ReplicaValid(index, req.gpuId);
      if deviceData == NULL_POINTER || !readable {
        assert false;
      }
      var aged := IsInFillList(index);
      var evictable := IsEvictable(index);
      if (evictionPolicy == FIFO && !aged) || (entries[index].activeAccesses != 0 && evictable) {
        assert false;
      }
      out := Returned(Access(true, deviceData, dataBytes, index, md.key, req.stream, req.gpuId, CacheHit));
      JoinReaders(index);
    }

    /** The lookup of an absent key when no entry can be taken: no capacity at all, or an obstacle. */
    method MissWithoutEntry(md: FrameMetadata, req: GpuCacheRequest, p: Progress, now: int)
      returns (p': Progress, out: Outcome)
      requires Consistent()
      modifies Repr
      ensures Repr == old(Repr) && entries == old(entries) && Consistent()
      ensures Pass(Abs(), p', out) ==
              if entries == []
              then Pass(ServeFallback(old(Abs()), CapacityZero), p, Returned(FallbackLease(old(Abs()), md, req)))
              else Obstruct(old(Abs()), Full, md, req, p, now)
    {
      hide Consistent, Abs, Obstruct, ServeFallback, FallbackLease;
      p' := p;
      if entries == [] {
        var a := MakeFallbackAccess(md, req, CapacityZero);
        out := Returned(a);
      } else {
        p', out := MeetObstacle(Full, md, req, p, now);
      }
    }

    /** The lookup of an absent key: a reservation, or nothing to reserve. */
    method VisitAbsent(md: FrameMetadata, req: GpuCacheRequest, p: Progress, now: int)
      returns (p': Progress, out: Outcome)
      requires Consistent() && RepInv(Abs()) && Abs().gpuId == Some(req.gpuId) && !Abs().failed
      requires md.key !in Abs().table
      modifies Repr
      ensures Repr == old(Repr) && entries == old(entries) && Consistent() && IndicesInRange(old(Abs()))
      ensures Pass(Abs(), p', out) == Section(old(Abs()), md, req, p, now)
    {
      hide *;
      ghost var c := Abs();
      AbsentSection(c, md, req, p, now);
      FieldsOfAbs();
      var index, deviceData := TakeAndReserve(md, req.gpuId);
      FieldsOfAbs();
      if index != NO_ENTRY {
        p' := p;
        out := FillLease(deviceData, index, md, req, c);
      } else {
        p', out := MissWithoutEntry(md, req, p, now);
      }
    }

    /** The lease of a reservation that has just been made. */
    method FillLease(deviceData: DevicePointer, index: nat, md: FrameMetadata, req: GpuCacheRequest, ghost c: Cache)
      returns (out: Outcome)
      requires index < |c.entries| && deviceData == c.entries[index].buffer && dataBytes == c.dataBytes
      ensures out == Returned(CacheLease(c, index, md, req, CacheFill))
    {
      out := Returned(Access(true, deviceData, dataBytes, index, md.key, req.stream, req.gpuId, CacheFill));
    }

    /** One pass of the lookup loop, from holding the lock to returning or falling asleep. */
    method LookupSection(md: FrameMetadata, req: GpuCacheRequest, p: Progress, now: int)
      returns (p': Progress, out: Outcome)
      requires Consistent() && RepInv(Abs()) && Abs().gpuId == Some(req.gpuId)
      modifies Repr
      ensures Repr == old(Repr) && entries == old(entries) && Consistent() && IndicesInRange(old(Abs()))
      ensures Pass(Abs(), p', out) == Section(old(Abs()), md, req, p, now)
    {
      hide *;
      SectionCases(Abs(), md, req, p, now);
      FindingIsTrue(Abs(), md);
      FieldsOfAbs();
      if failed {
        CountInvalid();
        return p, Returned(NO_ACCESS);
      }
      var found, index := FindResident(md.key);
      if found {
        p', out := VisitResident(index, md, req, p, now);
      } else {
        p', out := VisitAbsent(md, req, p, now);
      }
    }

    // -------------------------------------------------------------- completions

    /** The lease still describes its entry. */
    method MatchesLease(a: Access) returns (b: bool)
      requires Consistent()
      ensures b == Matches(Abs(), a)
    {
      hide Consistent, Abs;
      FieldsOfAbs();
      if a.entryIndex >= |entries| {
        return false;
      }
      EntryOfAbs(a.entryIndex);
      var pointer := DataForGpu(a.entryIndex, a.gpuId);
      b := entries[a.entryIndex].metadata.key == a.key && pointer == a.data && a.bytes == dataBytes;
    }

    /** The state, the reader count and the list membership that a completion checks. */
    method InState(index: nat, state: GpuCacheState) returns (b: bool)
      requires Consistent() && index < |entries|
      ensures b == (Abs().entries[index].state == state && Abs().entries[index].active > 0 && index !in Abs().idle)
    {
      hide Consistent, Abs;
      EntryOfAbs(index);
      var evictable := IsEvictable(index);
      b := entries[index].cacheState == state && entries[index].activeAccesses > 0 && !evictable;
    }

    method FinishReader(index: nat, discardNow: bool)
      requires Consistent() && RepInv(Abs()) && index < |entries|
      requires Abs().entries[index].state == Valid && Abs().entries[index].active > 0
      modifies Repr
      ensures Repr == old(Repr) && entries == old(entries) && Consistent()
      ensures Abs() == EndReader(old(Abs()), index, discardNow) && RepInv(Abs())
    {
      hide Consistent, Abs, RepInv, EndReader, ReaderDropped, Released, IsIdleCandidate;
      EntryOfAbs(index);
      EndReaderInSteps(Abs(), index, discardNow);
      EndReaderKeeps(Abs(), index, discardNow);
      DropReader(index, discardNow);
      var released := ReleaseReaderEntry(index);
      if !released {
        assert false;
      }
    }

    method PublishFill(index: nat, gpuId: int, retention: CacheRetention) returns (ok: bool)
      requires Consistent() && RepInv(Abs()) && index < |entries| && Abs().entries[index].state == Loading
      modifies Repr
      ensures Repr == old(Repr) && entries == old(entries) && Consistent() && RepInv(Abs())
      ensures ok == (old(Abs()).gpuId == Some(gpuId))
      ensures Abs() == if ok then Publish(old(Abs()), index, retention) else CacheSpec.ResetEntry(old(Abs()), index)
    {
      hide Consistent, Abs, RepInv, Publish, MadeReadable, CacheSpec.ResetEntry, Aged, AddIdle, CountDiscard,
           IsIdleCandidate, IsFillCandidate;
      PublishInSteps(Abs(), index);
      PublishKeeps(Abs(), index, retention);
      RollBackKeeps(Abs(), index);
      ok := MarkPublished(index, gpuId);
      if !ok {
        ResetEntry(index);
      } else if retention == Discard {
        ResetEntry(index);
        CountDiscarded();
      } else {
        var aged := AddFilledEntry(index);
        var added := AddEvictableEntry(index);
        assert aged && added;
      }
    }

    method CountFillEnd(ok: bool)
      requires Consistent() && RepInv(Abs())
      modifies Repr
      ensures Repr == old(Repr) && entries == old(entries)
      ensures Consistent() && Abs() == CountFill(old(Abs()), ok) && RepInv(Abs())
    {
      hide Consistent, Abs, RepInv;
      FieldsOfAbs();
      StatsDoNotMatter(Abs(), CountFill(Abs(), ok));
      Count(statistics.CountFillEnd(ok));
    }

    /** The completion checks of a fill lease. */
    method IsFilling(a: Access) returns (valid: bool)
      requires Consistent() && RepInv(Abs())
      ensures valid == FillingLease(Abs(), a)
    {
      hide Consistent, Abs, RepInv, Matches;
      LoadingHasOneLease(Abs(), a.entryIndex);
      valid := MatchesLease(a);
      if valid {
        MatchingIndex(Abs(), a);
        valid := InState(a.entryIndex, Loading);
      }
    }

    /** The completion checks of a hit lease. */
    method IsReading(a: Access) returns (valid: bool)
      requires Consistent() && RepInv(Abs())
      ensures valid == ReadableLease(Abs(), a)
    {
      hide Consistent, Abs, RepInv, Matches;
      valid := MatchesLease(a);
      if valid {
        MatchingIndex(Abs(), a);
        valid := InState(a.entryIndex, Valid);
      }
    }

    method CompleteHit(a: Access, succeeded: bool, retention: CacheRetention) returns (ok: bool)
      requires Consistent() && RepInv(Abs()) && Abs().initialized && !Abs().releasing && a.status == CacheHit
      modifies Repr
      ensures Repr == old(Repr) && entries == old(entries) && Consistent() && RepInv(Abs())
      ensures Reply(Abs(), ok) == Complete(old(Abs()), a, succeeded, retention)
    {
      hide *;
      HitCompletion(Abs(), a, succeeded, retention);
      var valid := IsReading(a);
      if valid {
        valid := ReplicaValid(a.entryIndex, a.gpuId);
      }
      if valid {
        FinishReader(a.entryIndex, retention == Discard);
      }
      ok := valid && succeeded;
    }

    method CompleteFill(a: Access, succeeded: bool, retention: CacheRetention) returns (ok: bool)
      requires Consistent() && RepInv(Abs()) && Abs().initialized && !Abs().releasing && a.status == CacheFill
      modifies Repr
      ensures Repr == old(Repr) && entries == old(entries) && Consistent() && RepInv(Abs())
      ensures Reply(Abs(), ok) == Complete(old(Abs()), a, succeeded, retention)
    {
      hide Consistent, Abs, RepInv, Publish, CacheSpec.ResetEntry, CountFill, FillingLease, Complete;
      FillCompletion(Abs(), a, succeeded, retention);
      RollBackIfLoading(Abs(), a.entryIndex);
      var valid := IsFilling(a);
      ok := false;
      if valid && succeeded {
        ok := PublishFill(a.entryIndex, a.gpuId, retention);
      } else if valid {
        ResetEntry(a.entryIndex);
      }
      CountFillEnd(ok);
    }

    method EndFallback()
      requires Consistent() && RepInv(Abs())
      modifies Repr
      ensures Repr == old(Repr) && entries == old(entries)
      ensures Consistent() && Abs() == FallbackEnded(old(Abs())) && RepInv(Abs())
    {
      hide Consistent, Abs, RepInv;
      FieldsOfAbs();
      FallbackEndKeeps(Abs());
      if activeFallbackAccesses > 0 {
        SetFallbacks(activeFallbackAccesses - 1);
      }
    }

    method CompleteFallback(a: Access, succeeded: bool, retention: CacheRetention) returns (ok: bool)
      requires Consistent() && RepInv(Abs()) && Abs().initialized && !Abs().releasing && a.status == TaskFallback
      modifies Repr
      ensures Repr == old(Repr) && entries == old(entries) && Consistent() && RepInv(Abs())
      ensures Reply(Abs(), ok) == Complete(old(Abs()), a, succeeded, retention)
    {
      hide Consistent, Abs, RepInv, Complete, FallbackEnded;
      FallbackCompletion(Abs(), a, succeeded, retention);
      FieldsOfAbs();
      var valid := activeFallbackAccesses > 0 && a.entryIndex == NO_ENTRY && a.data != NULL_POINTER
        && a.bytes == dataBytes;
      if valid {
        EndFallback();
      }
      ok := valid && succeeded;
    }

    method AbortHit(a: Access)
      requires Consistent() && RepInv(Abs()) && a.status == CacheHit
      modifies Repr
      ensures Repr == old(Repr) && entries == old(entries) && Consistent() && RepInv(Abs())
      ensures Abs() == Abort(old(Abs()), a)
    {
      hide Consistent, Abs, RepInv, EndReader, ReadableLease, Abort;
      HitAbort(Abs(), a);
      var valid := IsReading(a);
      if valid {
        FinishReader(a.entryIndex, false);
      }
    }

    method AbortFill(a: Access)
      requires Consistent() && RepInv(Abs()) && a.status == CacheFill
      modifies Repr
      ensures Repr == old(Repr) && entries == old(entries) && Consistent() && RepInv(Abs())
      ensures Abs() == Abort(old(Abs()), a)
    {
      hide Consistent, Abs, RepInv, CacheSpec.ResetEntry, CountFill, FillingLease, Abort;
      FillAbort(Abs(), a);
      CountFillEnd(false);
      var valid := IsFilling(a);
      if valid {
        ResetEntry(a.entryIndex);
      }
    }

    /** The locked part of `completeAccess`. */
    method CompleteLease(a: Access, succeeded: bool, retention: CacheRetention) returns (ok: bool)
      requires Consistent() && RepInv(Abs()) && Abs().initialized && !Abs().releasing
      modifies Repr
      ensures Repr == old(Repr) && entries == old(entries) && Consistent() && RepInv(Abs())
      ensures Reply(Abs(), ok) == Complete(old(Abs()), a, succeeded, retention)
    {
      hide Consistent, Abs, RepInv, Complete;
      InvalidCompletion(Abs(), a, succeeded, retention);
      match a.status {
        case TaskFallback => ok := CompleteFallback(a, succeeded, retention);
        case CacheHit => ok := CompleteHit(a, succeeded, retention);
        case CacheFill => ok := CompleteFill(a, succeeded, retention);
        case Invalid => ok := false;
      }
    }

    /** The locked part of `abortAccess`. */
    method AbortLease(a: Access)
      requires Consistent() && RepInv(Abs())
      modifies Repr
      ensures Repr == old(Repr) && entries == old(entries) && Consistent() && RepInv(Abs())
      ensures Abs() == Abort(old(Abs()), a)
    {
      hide Consistent, Abs, RepInv, Abort, FallbackEnded;
      FallbackAbort(Abs(), a);
      match a.status {
        case TaskFallback => EndFallback();
        case CacheHit => AbortHit(a);
        case CacheFill => AbortFill(a);
        case Invalid =>
      }
    }

    // -------------------------------------------------------------- between initialisations

    ghost predicate FullyReleased()
      reads this, residencyTable
    {
      && entries == [] && emptyEntries == [] && !releasing && !residencyTable.initialized
      && leastRecentlyUsed == NO_ENTRY && mostRecentlyUsed == NO_ENTRY && oldestFilled == NO_ENTRY
      && newestFilled == NO_ENTRY
    }

    /** A manager that is not initialised: nobody uses it; a failed release may have left entries behind. */
    ghost predicate Dormant()
      reads this, entries, residencyTable, residencyTable.slots
    {
      && this in Repr && residencyTable in Repr && residencyTable.slots in Repr
      && residencyTable.Valid() && activeFallbackAccesses == 0 && waitingAccesses == 0 && |eligibleGpuIds| <= 1
      && (forall i :: 0 <= i < |entries| ==> entries[i] in Repr && Unused(entries[i], i))
      && (eligibleGpuIds == [] ==> FullyReleased())
    }

    /** What holds of a manager whenever its lock is free. */
    ghost predicate WellFormed()
      reads this, entries, residencyTable, residencyTable.slots
    {
      if initialized then !releasing && Consistent() && RepInv(Abs()) else Dormant()
    }

    lemma DormantIsQuiet()
      requires Dormant()
      ensures Abs().fallbacks == 0 && Abs().waiting == 0
      ensures forall i :: 0 <= i < |Abs().entries| ==> Abs().entries[i].active == 0 && Abs().entries[i].state != Loading
      ensures Abs().gpuId == None <==> eligibleGpuIds == []
    {
      forall i | 0 <= i < |Abs().entries|
        ensures Abs().entries[i].active == 0 && Abs().entries[i].state != Loading
      {
        EntryOfAbs(i);
      }
    }

    method CountDormant(counted: CacheStatistics)
      requires Dormant()
      modifies Repr
      ensures Repr == old(Repr) && entries == old(entries)
      ensures Dormant() && Abs() == Counted(old(Abs()), counted)
    {
      hide ViewsOf, GpuResidencyTable.Valid, GpuResidencyTable.Contents;
      statistics := counted;
    }

    method CountLostFill(a: Access)
      requires Dormant()
      modifies Repr
      ensures Repr == old(Repr) && entries == old(entries)
      ensures Dormant() && Abs() == if a.status == CacheFill then CountFill(old(Abs()), false) else old(Abs())
    {
      FieldsOfAbs();
      hide Dormant, Abs;
      if a.status == CacheFill {
        CountDormant(statistics.CountFillEnd(false));
      }
    }

    /** Ends a lease explicitly, whatever the manager's state. */
    method CompleteAny(a: Access, succeeded: bool, retention: CacheRetention) returns (ok: bool)
      requires WellFormed()
      modifies Repr
      ensures Repr == old(Repr) && entries == old(entries) && WellFormed()
      ensures Reply(Abs(), ok) == Complete(old(Abs()), a, succeeded, retention)
    {
      hide Consistent, Dormant, Abs, RepInv, Complete, CountFill;
      FieldsOfAbs();
      CompletionKeepsSetup(Abs(), a, succeeded, retention);
      if initialized {
        ok := CompleteLease(a, succeeded, retention);
      } else {
        DormantCompletion(Abs(), a, succeeded, retention);
        CountLostFill(a);
        ok := false;
      }
      FieldsOfAbs();
    }

    /** Ends a lease by destruction or overwriting, whatever the manager's state. */
    method AbortAny(a: Access)
      requires WellFormed()
      modifies Repr
      ensures Repr == old(Repr) && entries == old(entries) && WellFormed()
      ensures Abs() == Abort(old(Abs()), a)
    {
      hide Consistent, Dormant, Abs, RepInv, Abort, CountFill;
      FieldsOfAbs();
      AbortKeepsSetup(Abs(), a);
      if !initialized {
        DormantIsQuiet();
        DormantAbort(Abs(), a);
      }
      if initialized {
        AbortLease(a);
      } else {
        CountLostFill(a);
      }
      FieldsOfAbs();
    }

    method RecordSyncFailure()
      requires WellFormed()
      modifies Repr
      ensures Repr == old(Repr) && entries == old(entries) && initialized == old(initialized)
              && releasing == old(releasing)
      ensures old(Consistent()) ==> Consistent()
      ensures old(Dormant()) ==> Dormant()
      ensures Abs() == CacheSpec.NoteSyncFailure(old(Abs()))
    {
      hide RepInv, EntriesOk, IdleOk, FilledOk, TableOk, ViewsOf, InRange, GpuResidencyTable.Valid,
           GpuResidencyTable.Contents;
      statistics := statistics.CountSyncFailure();
      failed := true;
      notices := notices + 1;
    }

    method NoteSyncFailure()
      requires WellFormed()
      modifies Repr
      ensures Repr == old(Repr) && entries == old(entries) && WellFormed()
      ensures Abs() == CacheSpec.NoteSyncFailure(old(Abs()))
    {
      hide Consistent, Dormant, Abs, RepInv, CacheSpec.NoteSyncFailure;
      if initialized {
        SyncFailureKeepsRep(Abs());
      }
      RecordSyncFailure();
    }

    // -------------------------------------------------------------- requests

    /** The validation of a request. */
    method Admit(md: FrameMetadata, req: GpuCacheRequest) returns (ok: bool)
      requires WellFormed()
      ensures ok == Admits(Abs(), md, req)
    {
      hide Consistent, Dormant, Abs, RepInv;
      FieldsOfAbs();
      EligibleIds();
      ok := initialized && !releasing && !failed && md.bytes == dataBytes && md.width > 0 && md.height > 0 &&
            req.gpuId >= 0 && req.stream != 0 && req.d_fallback != NULL_POINTER && req.fallbackBytes >= dataBytes &&
            req.gpuId in eligibleGpuIds;
    }

    lemma EligibleIds()
      requires WellFormed()
      ensures Abs().gpuId == if eligibleGpuIds == [] then None else Some(eligibleGpuIds[0])
      ensures |eligibleGpuIds| <= 1
    {
      hide RepInv, ViewsOf, IdleOk, FilledOk, TableOk, GpuResidencyTable.Valid, GpuResidencyTable.Contents;
    }

    method RejectRequest()
      requires WellFormed()
      modifies Repr
      ensures Repr == old(Repr) && entries == old(entries) && WellFormed()
      ensures Abs() == Reject(old(Abs()))
    {
      hide Consistent, Dormant, Abs, RepInv;
      if initialized {
        StatsDoNotMatter(Abs(), Reject(Abs()));
      }
      FieldsOfAbs();
      if initialized {
        CountInvalid();
      } else {
        CountDormant(statistics.CountInvalid());
      }
      FieldsOfAbs();
    }

    method AdmittedLookup(md: FrameMetadata, req: GpuCacheRequest, p: Progress, now: int)
        returns (p': Progress, out: Outcome)
      requires WellFormed() && initialized && Abs().gpuId == Some(req.gpuId) && md.bytes == dataBytes
      modifies Repr
      ensures Repr == old(Repr) && entries == old(entries) && WellFormed()
      ensures RepInv(old(Abs())) && IndicesInRange(old(Abs()))
      ensures Pass(Abs(), p', out) == Section(old(Abs()), md, req, p, now)
    {
      hide Consistent, Dormant, Abs, RepInv, IndicesInRange, Section;
      FieldsOfAbs();
      SectionKeepsRep(Abs(), md, req, p, now);
      p', out := LookupSection(md, req, p, now);
      FieldsOfAbs();
    }

    /** From acquiring the lock to returning or falling asleep for the first time. */
    method BeginLookup(md: FrameMetadata, req: GpuCacheRequest, started: int, now: int)
        returns (p: Progress, out: Outcome)
      requires WellFormed()
      modifies Repr
      ensures Repr == old(Repr) && entries == old(entries) && WellFormed()
      ensures old(initialized) ==> IndicesInRange(old(Abs()))
      ensures Pass(Abs(), p, out) == Lookup(old(Abs()), md, req, started, now)
    {
      hide Consistent, Dormant, Abs, RepInv, IndicesInRange, Section, Reject, Deadline, Lookup, Admits;
      FieldsOfAbs();
      LookupCases(Abs(), md, req, started, now);
      p := Progress(Deadline(waitTimeout, started), false, false, 0);
      var admitted := Admit(md, req);
      if admitted {
        p, out := AdmittedLookup(md, req, p, now);
      } else {
        RejectRequest();
        out := Returned(NO_ACCESS);
      }
    }

    /** From holding the lock again after a sleep to returning or falling asleep once more. */
    method ResumeLookup(md: FrameMetadata, req: GpuCacheRequest, p: Progress, elapsed: nat, now: int)
      returns (p': Progress, out: Outcome)
      requires WellFormed() && initialized && waitingAccesses > 0 && md.bytes == dataBytes
               && Abs().gpuId == Some(req.gpuId)
      modifies Repr
      ensures Repr == old(Repr) && entries == old(entries) && WellFormed()
      ensures var woken := Wake(old(Abs()), p, elapsed);
              && RepInv(woken.cache) && IndicesInRange(woken.cache)
              && Pass(Abs(), p', out) == Section(woken.cache, md, req, woken.progress, now)
    {
      hide Consistent, Dormant, Abs, RepInv, IndicesInRange, Section;
      FieldsOfAbs();
      StatsDoNotMatter(Abs(), Wake(Abs(), p, elapsed).cache);
      p' := FinishWait(p, elapsed);
      FieldsOfAbs();
      p', out := AdmittedLookup(md, req, p', now);
    }

    // -------------------------------------------------------------- reset

    method CanResetLocked() returns (ok: bool)
      ensures ok == CanReset(Abs())
    {
      FieldsOfAbs();
      hide Abs;
      if activeFallbackAccesses != 0 || waitingAccesses != 0 {
        return false;
      }
      for i := 0 to |entries|
        invariant forall j :: 0 <= j < i ==> Abs().entries[j].active == 0 && Abs().entries[j].state != Loading
      {
        EntryOfAbs(i);
        if entries[i].activeAccesses != 0 || entries[i].cacheState == Loading {
          return false;
        }
      }
      return true;
    }

    /** Clears every entry and stacks the indices so that entry 0 is taken first. */
    method BlankAll(ghost was: seq<Entry>, gpuId: int)
      requires |entries| == |was|
      requires forall i :: 0 <= i < |entries| ==> IsKept(entries[i], i, was[i], gpuId)
      modifies this`emptyEntries, entries
      ensures forall i :: 0 <= i < |entries| ==> IsCleared(entries[i], i, was[i], gpuId)
      ensures emptyEntries == CountDown(|entries|)
    {
      emptyEntries := [];
      assert forall j :: 0 <= j < |entries| ==> entries[j].slot == j;
      hide IsKept, IsCleared;
      var index := |entries|;
      while index > 0
        invariant 0 <= index <= |entries|
        invariant forall j :: 0 <= j < index ==> IsKept(entries[j], j, was[j], gpuId)
        invariant forall j :: index <= j < |entries| ==> IsCleared(entries[j], j, was[j], gpuId)
        invariant emptyEntries == CountDown(|entries|)[..|entries| - index]
      {
        ClearEntry(entries[index - 1], index - 1, was[index - 1], gpuId);
        emptyEntries := emptyEntries + [index - 1];
        index := index - 1;
      }
    }

    lemma BlankRings(was: seq<Entry>, gpuId: int)
      requires |entries| == |was| < NO_ENTRY
      requires forall i :: 0 <= i < |entries| ==> IsCleared(entries[i], i, was[i], gpuId)
      ensures Realises(EvictRing(entries), NO_ENTRY, NO_ENTRY, [])
              && Realises(FillRing(entries), NO_ENTRY, NO_ENTRY, [])
    {
      EmptyRealises(EvictRing(entries));
      EmptyRealises(FillRing(entries));
    }

    lemma BlankViews(was: seq<Entry>, gpuId: int)
      requires |entries| == |was| && eligibleGpuIds == [gpuId] && gpuId >= 0
      requires forall i :: 0 <= i < |entries| ==> IsCleared(entries[i], i, was[i], gpuId)
      ensures ViewsOf(entries) == seq(|was|, i requires 0 <= i < |was| => was[i].Cleared())
      ensures EntriesOk() && InRange(CountDown(|entries|), |entries|)
    {
      CountDownMembers(|entries|);
    }

    /** The entries of a running manager, as values. */
    ghost predicate EntriesAre(was: seq<Entry>)
      reads this`entries, this`eligibleGpuIds, entries
    {
      && |entries| == |was| < NO_ENTRY && |eligibleGpuIds| == 1 && eligibleGpuIds[0] >= 0
      && (forall i :: 0 <= i < |entries| ==> IsKept(entries[i], i, was[i], eligibleGpuIds[0]))
    }

    ghost predicate ListsDropped()
      reads this, residencyTable, residencyTable.slots
    {
      && residencyTable.Valid() && residencyTable.Contents() == map[] && TableOk()
      && leastRecentlyUsed == mostRecentlyUsed == oldestFilled == newestFilled == NO_ENTRY && idle == filled == []
    }

    lemma EveryEntryIsKept()
      requires Consistent()
      ensures EntriesAre(ViewsOf(entries))
    {
      EndsAreMembers(EvictRing(entries), leastRecentlyUsed, mostRecentlyUsed, idle);
    }

    method ClearTable()
      requires TableOk()
      modifies residencyTable, residencyTable.slots
      ensures residencyTable.slots == old(residencyTable.slots)
      ensures residencyTable.Valid() && residencyTable.Contents() == map[] && TableOk()
    {
      residencyTable.Clear();
    }

    method DropLists(ghost was: seq<Entry>)
      requires TableOk() && EntriesAre(was)
      modifies residencyTable, residencyTable.slots
      modifies this`leastRecentlyUsed, this`mostRecentlyUsed, this`oldestFilled, this`newestFilled, this`idle,
               this`filled
      ensures residencyTable.slots == old(residencyTable.slots) && ListsDropped() && EntriesAre(was)
    {
      hide EntriesAre, TableOk, GpuResidencyTable.Valid, GpuResidencyTable.Contents;
      ClearTable();
      assert EntriesAre(was) && TableOk();
      leastRecentlyUsed, mostRecentlyUsed, oldestFilled, newestFilled := NO_ENTRY, NO_ENTRY, NO_ENTRY, NO_ENTRY;
      idle, filled := [], [];
      assert EntriesAre(was) && TableOk();
    }

    method BlankEntries(ghost was: seq<Entry>)
      requires EntriesAre(was)
      modifies this`emptyEntries, entries
      ensures EntriesOk() && InRange(emptyEntries, |entries|) && emptyEntries == CountDown(|entries|)
      ensures Realises(EvictRing(entries), NO_ENTRY, NO_ENTRY, [])
              && Realises(FillRing(entries), NO_ENTRY, NO_ENTRY, [])
      ensures ViewsOf(entries) == seq(|was|, i requires 0 <= i < |was| => was[i].Cleared())
    {
      hide IsKept, IsCleared, EntriesOk, EvictRing, FillRing, ViewsOf, Realises, InRange;
      BlankAll(was, eligibleGpuIds[0]);
      BlankRings(was, eligibleGpuIds[0]);
      BlankViews(was, eligibleGpuIds[0]);
    }

    lemma RingsAreEmpty()
      requires leastRecentlyUsed == mostRecentlyUsed == oldestFilled == newestFilled == NO_ENTRY && idle == filled == []
      requires Realises(EvictRing(entries), NO_ENTRY, NO_ENTRY, [])
               && Realises(FillRing(entries), NO_ENTRY, NO_ENTRY, [])
      ensures IdleOk() && FilledOk()
    {
    }

    method ClearStructures(ghost was: seq<Entry>)
      requires Consistent() && was == ViewsOf(entries)
      modifies residencyTable, residencyTable.slots, entries, this`emptyEntries
      modifies this`leastRecentlyUsed, this`mostRecentlyUsed, this`oldestFilled, this`newestFilled, this`idle,
               this`filled
      ensures residencyTable.slots == old(residencyTable.slots) && TableOk() && residencyTable.Contents() == map[]
      ensures EntriesOk() && IdleOk() && FilledOk() && InRange(emptyEntries, |entries|)
              && emptyEntries == CountDown(|entries|)
      ensures idle == filled == []
      ensures ViewsOf(entries) == seq(|was|, i requires 0 <= i < |was| => was[i].Cleared())
    {
      hide EntriesOk, EntriesAre, IdleOk, FilledOk, TableOk, InRange, ViewsOf, EvictRing, FillRing, Realises, CountDown,
           GpuResidencyTable.Valid, GpuResidencyTable.Contents;
      EveryEntryIsKept();
      DropLists(was);
      BlankEntries(was);
      assert IdleOk() && FilledOk() by { RingsAreEmpty(); }
    }

    method ResetEntriesLocked()
      requires Consistent()
      modifies Repr
      ensures Repr == old(Repr) && entries == old(entries)
      ensures Consistent() && Abs() == ResetEntries(old(Abs()))
    {
      ghost var was := ViewsOf(entries);
      hide EntriesOk, IdleOk, FilledOk, TableOk, GpuResidencyTable.Valid, GpuResidencyTable.Contents, InRange, ViewsOf,
           CountDown;
      ClearStructures(was);
    }

    /** `completed` is what the caller's output becomes; a rejected reset leaves it alone. */
    method ResetCache() returns (ok: bool, completed: Option<CacheStatistics>)
      requires WellFormed()
      modifies Repr
      ensures Repr == old(Repr) && entries == old(entries) && WellFormed()
      ensures Reply(Abs(), ok) == CacheSpec.ResetCache(old(Abs()))
      ensures completed == if ok then Some(old(statistics)) else None
    {
      hide Consistent, Dormant, Abs, RepInv, CanReset, ResetEntries;
      FieldsOfAbs();
      if initialized {
        ClearedIsReset(Abs());
      }
      ok := false;
      completed := None;
      if initialized && !releasing && !failed {
        ok := CanResetLocked();
      }
      if ok {
        completed := Some(statistics);
        Count(NO_STATISTICS);
        ResetEntriesLocked();
      }
      FieldsOfAbs();
    }

    // -------------------------------------------------------------- release

    lemma QuietIsDormant()
      requires WellFormed() && CanReset(Abs())
      ensures this in Repr && residencyTable in Repr && residencyTable.slots in Repr
      ensures residencyTable.Valid() && activeFallbackAccesses == 0 && waitingAccesses == 0 && |eligibleGpuIds| <= 1
      ensures forall i :: 0 <= i < |entries| ==> entries[i] in Repr && Unused(entries[i], i)
      ensures initialized ==> eligibleGpuIds != []
      ensures !initialized ==> Dormant()
    {
      hide GpuResidencyTable.Valid, GpuResidencyTable.Contents, IdleOk, FilledOk;
      forall i | 0 <= i < |entries|
        ensures entries[i] in Repr && Unused(entries[i], i)
      {
        assert Abs().entries[i] == entries[i].View();
        assert initialized ==> Placed(Abs(), i);
      }
    }

    lemma NothingHeldMeansReleased()
      requires WellFormed()
      ensures NothingHeld(Abs()) <==>
              !initialized && entries == [] && eligibleGpuIds == [] && !residencyTable.initialized && emptyEntries == []
      ensures !initialized && eligibleGpuIds == [] ==> NothingHeld(Abs())
    {
      hide GpuResidencyTable.Valid, GpuResidencyTable.Contents, ViewsOf, RepInv;
    }

    method MarkReleasing()
      requires WellFormed() && CanReset(Abs()) && !NothingHeld(Abs())
      modifies Repr
      ensures Repr == old(Repr) && entries == old(entries)
      ensures Dormant() && Abs() == old(Abs()).(initialized := false, releasing := true) && eligibleGpuIds != []
    {
      hide ViewsOf, GpuResidencyTable.Valid, GpuResidencyTable.Contents, WellFormed, Consistent, CanReset, RepInv,
           Unused;
      NothingHeldMeansReleased();
      QuietIsDormant();
      initialized := false;
      releasing := true;
    }

    /** The first locked section of `release`. */
    method BeginRelease() returns (already: bool, started: bool)
      requires WellFormed()
      modifies Repr
      ensures Repr == old(Repr) && entries == old(entries) && WellFormed()
      ensures match CacheSpec.BeginRelease(old(Abs()))
              case AlreadyReleased => already && !started && Abs() == old(Abs())
              case ReleaseRejected => !already && !started && Abs() == old(Abs())
              case ReleaseStarted(c) => !already && started && Abs() == c && Dormant() && eligibleGpuIds != []
    {
      hide Consistent, Dormant, Abs, RepInv, CanReset, NothingHeld;
      FieldsOfAbs();
      NothingHeldMeansReleased();
      already := !initialized && entries == [] && eligibleGpuIds == [] && !residencyTable.initialized
            && emptyEntries == [];
      started := false;
      if !already && !releasing {
        started := CanResetLocked();
      }
      if started {
        MarkReleasing();
        FieldsOfAbs();
      }
    }

    /** Frees the entries outside the lock; `freed` is what the driver answers for each. */
    method FreeEach(freed: seq<bool>, ghost was: seq<Entry>) returns (ok: bool, allReleased: bool)
      requires |freed| == |entries| == |was|
      requires forall i :: 0 <= i < |entries| ==> Unused(entries[i], i) && entries[i].View() == was[i]
      modifies entries
      ensures forall i :: 0 <= i < |entries| ==>
                Unused(entries[i], i) && entries[i].View() == FreeEntry(was[i], freed[i])
      ensures ok <==> forall i :: 0 <= i < |entries| ==> freed[i] || was[i].buffer == NULL_POINTER
      ensures allReleased <==> forall i :: 0 <= i < |entries| ==> entries[i].View().buffer == NULL_POINTER
    {
      ok, allReleased := true, true;
      for i := 0 to |entries|
        invariant forall j :: 0 <= j < |entries| ==> Unused(entries[j], j)
        invariant forall j :: 0 <= j < i ==> entries[j].View() == FreeEntry(was[j], freed[j])
        invariant forall j :: i <= j < |entries| ==> entries[j].View() == was[j]
        invariant ok <==> forall j :: 0 <= j < i ==> freed[j] || was[j].buffer == NULL_POINTER
        invariant allReleased <==> forall j :: 0 <= j < i ==> entries[j].View().buffer == NULL_POINTER
      {
        var released := FreeOne(entries[i], i, freed[i]);
        ok := ok && released;
        allReleased := allReleased && !entries[i].initialized;
      }
    }

    method FreeEntries(freed: seq<bool>) returns (ok: bool, allReleased: bool)
      requires Dormant() && |freed| == |entries|
      modifies Repr
      ensures Repr == old(Repr) && entries == old(entries) && eligibleGpuIds == old(eligibleGpuIds)
      ensures Dormant() && Abs() == old(Abs()).(entries := FreedEntries(old(Abs()).entries, freed))
      ensures ok <==> forall i :: 0 <= i < |freed| ==> freed[i] || old(Abs()).entries[i].buffer == NULL_POINTER
      ensures allReleased <==> AllNull(Abs().entries)
    {
      hide GpuResidencyTable.Valid, GpuResidencyTable.Contents, ViewsOf, Unused, FreeEntry;
      ghost var was := ViewsOf(entries);
      ok, allReleased := FreeEach(freed, was);
      assert ViewsOf(entries) == FreedEntries(was, freed);
    }

    method ClearLists()
      modifies this`entries, this`emptyEntries, this`idle, this`filled
      modifies this`leastRecentlyUsed, this`mostRecentlyUsed, this`oldestFilled, this`newestFilled
      ensures entries == [] && emptyEntries == [] && idle == [] && filled == []
      ensures leastRecentlyUsed == mostRecentlyUsed == oldestFilled == newestFilled == NO_ENTRY
    {
      entries, emptyEntries, idle, filled := [], [], [], [];
      leastRecentlyUsed, mostRecentlyUsed, oldestFilled, newestFilled := NO_ENTRY, NO_ENTRY, NO_ENTRY, NO_ENTRY;
    }

    method ClearSettings()
      modifies this`eligibleGpuIds, this`dataBytes, this`activeFallbackAccesses, this`failed, this`initialized,
               this`releasing
      ensures eligibleGpuIds == [] && dataBytes == 0 && activeFallbackAccesses == 0 && !failed && !initialized
              && !releasing
    {
      eligibleGpuIds, dataBytes, activeFallbackAccesses := [], 0, 0;
      failed, initialized, releasing := false, false, false;
    }

    method DropTable()
      requires residencyTable.Valid()
      modifies residencyTable, this`Repr
      ensures residencyTable.Valid() && residencyTable.Contents() == map[] && !residencyTable.initialized
      ensures fresh(residencyTable.slots) && Repr == old(Repr) + {residencyTable.slots}
    {
      hide *;
      residencyTable.Release();
      Repr := Repr + {residencyTable.slots};
    }

    lemma DormantTable()
      requires Dormant()
      ensures residencyTable.Valid() && waitingAccesses == 0
      ensures this in Repr && residencyTable in Repr && residencyTable.slots in Repr
    {
    }

    lemma NothingLeft()
      requires entries == [] && eligibleGpuIds == [] && residencyTable.Valid() && residencyTable.Contents() == map[]
      requires emptyEntries == [] && !releasing && !residencyTable.initialized
               && activeFallbackAccesses == waitingAccesses == 0
      requires leastRecentlyUsed == mostRecentlyUsed == oldestFilled == newestFilled == NO_ENTRY
      requires this in Repr && residencyTable in Repr && residencyTable.slots in Repr
      ensures Dormant() && Abs().entries == [] && Abs().gpuId == None && Abs().table == map[]
    {
    }

    method ForgetEverything()
      requires Dormant()
      modifies Repr
      ensures Dormant() && fresh(Repr - old(Repr)) && Abs() == Emptied(old(Abs()))
    {
      hide Dormant, FullyReleased, GpuResidencyTable.Valid, GpuResidencyTable.Contents, Abs, Unused;
      DormantTable();
      FieldsOfAbs();
      ClearLists();
      ClearSettings();
      DropTable();
      FieldsOfAbs();
      NothingLeft();
    }

    method KeepTheRest()
      requires Dormant() && eligibleGpuIds != []
      modifies Repr
      ensures Repr == old(Repr) && Dormant() && Abs() == old(Abs()).(releasing := false)
    {
      hide ViewsOf, GpuResidencyTable.Valid, GpuResidencyTable.Contents, Unused;
      releasing := false;
    }

    /** The second locked section of `release`. */
    method EndRelease(allReleased: bool)
      requires Dormant() && !initialized && eligibleGpuIds != []
      modifies Repr
      ensures Dormant() && fresh(Repr - old(Repr))
      ensures Abs() == if allReleased then Emptied(old(Abs())) else old(Abs()).(releasing := false)
    {
      hide Dormant, Abs, Emptied;
      if allReleased {
        ForgetEverything();
      } else {
        KeepTheRest();
      }
    }

    /** Frees everything that nobody uses; a buffer that the driver refuses to free stays for a later attempt. */
    method Release(freed: seq<bool>) returns (ok: bool)
      requires WellFormed() && |freed| == |entries|
      modifies Repr
      ensures WellFormed() && fresh(Repr - old(Repr))
      ensures match CacheSpec.BeginRelease(old(Abs()))
              case AlreadyReleased => ok && Abs() == old(Abs())
              case ReleaseRejected => !ok && Abs() == old(Abs())
              case ReleaseStarted(c) =>
                && Abs() == CacheSpec.EndRelease(c, freed)
                && (ok <==> forall i :: 0 <= i < |freed| ==> freed[i] || c.entries[i].buffer == NULL_POINTER)
    {
      hide Consistent, Dormant, Abs, NothingHeld, CanReset, FreedEntries, RepInv;
      var started;
      ok, started := BeginRelease();
      if started {
        var allReleased;
        ok, allReleased := FreeEntries(freed);
        FieldsOfAbs();
        EndRelease(allReleased);
        FieldsOfAbs();
      }
    }

    // -------------------------------------------------------------- initialisation

    method InstallStorage(es: seq<GpuDataCacheEntry>, table: GpuResidencyTable, empties: seq<nat>)
      modifies this`entries, this`residencyTable, this`emptyEntries, this`idle, this`filled, this`Repr
      ensures entries == es && residencyTable == table && emptyEntries == empties && idle == [] && filled == []
      ensures Repr == {this, table, table.slots} + ObjectsOf(es)
    {
      entries, residencyTable, emptyEntries := es, table, empties;
      idle, filled := [], [];
      Repr := {this, table, table.slots} + ObjectsOf(es);
    }

    method InstallSettings(gpuIds: seq<int>, bytes: nat, configuredWaitTimeout: nat, policy: CacheEvictionPolicy)
      modifies this`eligibleGpuIds, this`dataBytes, this`waitTimeout, this`evictionPolicy, this`activeFallbackAccesses
      modifies this`statistics, this`failed, this`initialized
      ensures eligibleGpuIds == gpuIds && dataBytes == bytes && waitTimeout == configuredWaitTimeout
              && evictionPolicy == policy
      ensures activeFallbackAccesses == 0 && statistics == NO_STATISTICS && !failed && initialized
    {
      eligibleGpuIds, dataBytes, waitTimeout, evictionPolicy := gpuIds, bytes, configuredWaitTimeout, policy;
      activeFallbackAccesses, statistics, failed, initialized := 0, NO_STATISTICS, false, true;
    }

    /** The structures that `Install` leaves behind realise a manager in which every entry is empty. */
    lemma InstalledIsConsistent(buffers: seq<DevicePointer>)
      requires |buffers| == |entries| < NO_ENTRY && |eligibleGpuIds| == 1 && eligibleGpuIds[0] >= 0 && dataBytes > 0
      requires forall i :: 0 <= i < |entries| ==> IsCleared(entries[i], i, FreshEntry(buffers[i]), eligibleGpuIds[0])
      requires AllAllocated(buffers) && Apart(buffers)
      requires leastRecentlyUsed == mostRecentlyUsed == oldestFilled == newestFilled == NO_ENTRY && idle == filled == []
      requires TableOk() && residencyTable.Contents() == map[] && emptyEntries == CountDown(|entries|)
      requires Repr == {this, residencyTable, residencyTable.slots} + ObjectsOf(entries)
      ensures Consistent() && RepInv(Abs())
      ensures Abs().entries == FreshEntries(buffers) && Abs().table == map[] && Abs().gpuId == Some(eligibleGpuIds[0])
    {
      ghost var was := FreshEntries(buffers);
      BlankRings(was, eligibleGpuIds[0]);
      BlankViews(was, eligibleGpuIds[0]);
      RingsAreEmpty();
      assert ViewsOf(entries) == was;
      assert residencyTable.Valid();
      AllEmptyIsPlaced(Abs());
    }

    method Install(gpuIds: seq<int>, es: seq<GpuDataCacheEntry>, table: GpuResidencyTable, empties: seq<nat>,
        bytes: nat,
                   configuredWaitTimeout: nat, policy: CacheEvictionPolicy, ghost buffers: seq<DevicePointer>)
      requires Dormant() && FullyReleased()
      requires |gpuIds| == 1 && gpuIds[0] >= 0 && bytes > 0
      requires |buffers| < NO_ENTRY && AllAllocated(buffers) && Apart(buffers)
      requires StorageReady(table, es, empties, buffers, gpuIds[0])
      modifies this
      ensures WellFormed() && Repr == {this, table, table.slots} + ObjectsOf(es)
      ensures Abs() == Initialized(old(Abs()), gpuIds[0], bytes, buffers, configuredWaitTimeout, policy)
    {
      hide Abs, Consistent, Dormant, RepInv, IsCleared, GpuResidencyTable.Valid, GpuResidencyTable.Contents, CountDown;
      FieldsOfAbs();
      InstallStorage(es, table, empties);
      InstallSettings(gpuIds, bytes, configuredWaitTimeout, policy);
      FieldsOfAbs();
      InstalledIsConsistent(buffers);
    }

    method BuildAndInstall(gpuIds: seq<int>, bytes: nat, configuredWaitTimeout: nat, policy: CacheEvictionPolicy,
                           buffers: seq<DevicePointer>, storageAvailable: bool)
      returns (ok: bool, ghost objects: set<object>)
      requires Dormant() && FullyReleased() && this in Repr && !initialized
      requires |gpuIds| == 1 && gpuIds[0] >= 0 && bytes != 0 && |buffers| <= SIZE_MAX && Apart(buffers)
      modifies this
      ensures fresh(objects) && Repr == if ok then {this} + objects else old(Repr)
      ensures ok <==> |buffers| <= MAX_TABLE_ENTRIES && storageAvailable && AllAllocated(buffers)
      ensures if ok then WellFormed() && Abs() == Initialized(old(Abs()), gpuIds[0], bytes, buffers,
              configuredWaitTimeout, policy)
              else !initialized && Dormant() && Abs() == old(Abs())
    {
      assert MAX_TABLE_ENTRIES < NO_ENTRY;
      hide *;
      var table, es, empties;
      ok, table, es, empties, objects := MakeStorage(residencyTable, gpuIds, bytes, buffers, storageAvailable);
      assert Dormant() && FullyReleased() && Abs() == old(Abs());
      if ok {
        Install(gpuIds, es, table, empties, bytes, configuredWaitTimeout, policy, buffers);
      }
    }

    /**
     * `buffers` are the device pointers that the driver returns, null where an allocation fails;
     * `storageAvailable` is false when the table's storage cannot be obtained.
     */
    method Initialize(gpuIds: seq<int>, bytes: nat, cacheEntryCount: nat, configuredWaitTimeout: int,
                      policy: CacheEvictionPolicy, buffers: seq<DevicePointer>, storageAvailable: bool)
      returns (ok: bool)
      requires WellFormed() && cacheEntryCount <= SIZE_MAX && |buffers| == cacheEntryCount
      requires Apart(buffers)
      modifies this
      ensures WellFormed() && fresh(Repr - old(Repr))
      ensures ok <==>
              && CanInitialize(old(Abs()), gpuIds, bytes, configuredWaitTimeout)
              && cacheEntryCount <= MAX_TABLE_ENTRIES && storageAvailable && AllAllocated(buffers)
      ensures Abs() == if ok then Initialized(old(Abs()), gpuIds[0], bytes, buffers, configuredWaitTimeout, policy)
              else old(Abs())
    {
      hide Consistent, Dormant, Abs, RepInv, Initialized, CanInitialize, AllAllocated, Apart, FullyReleased;
      ok := MayInitialize(gpuIds, bytes, configuredWaitTimeout);
      if ok {
        ghost var objects;
        ok, objects := BuildAndInstall(gpuIds, bytes, configuredWaitTimeout, policy, buffers, storageAvailable);
      }
    }

    method MayInitialize(gpuIds: seq<int>, bytes: nat, configuredWaitTimeout: int) returns (ok: bool)
      requires WellFormed()
      ensures ok <==> CanInitialize(Abs(), gpuIds, bytes, configuredWaitTimeout)
      ensures ok ==> Dormant() && FullyReleased() && this in Repr && !initialized
      ensures ok ==> |gpuIds| == 1 && gpuIds[0] >= 0 && bytes != 0 && configuredWaitTimeout >= 0
    {
      hide Abs, Consistent, RepInv, GpuResidencyTable.Valid, Unused;
      FieldsOfAbs();
      NothingHeldMeansReleased();
      ok := !(initialized || releasing || entries != [] || eligibleGpuIds != [] || residencyTable.initialized ||
              emptyEntries != [] || leastRecentlyUsed != NO_ENTRY || mostRecentlyUsed != NO_ENTRY ||
              oldestFilled != NO_ENTRY || newestFilled != NO_ENTRY ||
              |gpuIds| != 1 || gpuIds[0] < 0 || bytes == 0 || configuredWaitTimeout < 0);
    }

    // -------------------------------------------------------------- waiting

    /** Some locked section of another thread; `others` counts the other threads that are asleep in a wait. */
    method OtherSection(others: nat) returns (others': nat)
      requires WellFormed() && initialized && waitingAccesses == others + 1
      modifies Repr
      ensures Repr == old(Repr) && entries == old(entries) && WellFormed()
      ensures initialized && waitingAccesses == others' + 1 && SameSetup(old(Abs()), Abs())
    {
      others' := others;
      if
      case true =>
        var md: FrameMetadata, req: GpuCacheRequest, started: int, now: int := *, *, *, *;
        others' := OtherBegins(md, req, started, now, others);
      case others > 0 =>
        var md: FrameMetadata, req: GpuCacheRequest, p: Progress, elapsed: nat, now: int := *, *, *, *, *;
        others' := OtherResumes(md, req, p, elapsed, now, others);
      case true =>
        var a: Access, succeeded: bool, retention: CacheRetention := *, *, *;
        OtherCompletes(a, succeeded, retention);
      case true =>
        var a: Access := *;
        OtherAborts(a);
      case true =>
        NoteSyncFailure();
        FieldsOfAbs();
      case true =>
        OtherResets();
    }

    method OtherBegins(md: FrameMetadata, req: GpuCacheRequest, started: int, now: int, others: nat)
        returns (others': nat)
      requires WellFormed() && initialized && waitingAccesses == others + 1
      modifies Repr
      ensures Repr == old(Repr) && entries == old(entries) && WellFormed()
      ensures initialized && waitingAccesses == others' + 1 && SameSetup(old(Abs()), Abs())
    {
      hide Consistent, Dormant, Abs, RepInv, IndicesInRange, Lookup;
      FieldsOfAbs();
      LookupIsCounted(Abs(), md, req, started, now);
      var p, out := BeginLookup(md, req, started, now);
      FieldsOfAbs();
      others' := if out.Sleeping? then others + 1 else others;
    }

    method OtherResumes(md: FrameMetadata, req: GpuCacheRequest, p: Progress, elapsed: nat, now: int, others: nat)
      returns (others': nat)
      requires WellFormed() && initialized && waitingAccesses == others + 1 && others > 0
      modifies Repr
      ensures Repr == old(Repr) && entries == old(entries) && WellFormed()
      ensures initialized && waitingAccesses == others' + 1 && SameSetup(old(Abs()), Abs())
    {
      hide Consistent, Dormant, Abs, RepInv, IndicesInRange, Section;
      FieldsOfAbs();
      EligibleIds();
      others' := others;
      if md.bytes == dataBytes && eligibleGpuIds == [req.gpuId] {
        ResumptionIsCounted(Abs(), md, req, p, elapsed, now);
        var p', out := ResumeLookup(md, req, p, elapsed, now);
        FieldsOfAbs();
        others' := if out.Sleeping? then others else others - 1;
      }
    }

    method OtherCompletes(a: Access, succeeded: bool, retention: CacheRetention)
      requires WellFormed() && initialized
      modifies Repr
      ensures Repr == old(Repr) && entries == old(entries) && WellFormed()
      ensures initialized && waitingAccesses == old(waitingAccesses) && SameSetup(old(Abs()), Abs())
    {
      hide Consistent, Dormant, Abs, RepInv, Complete;
      FieldsOfAbs();
      CompletionKeepsSetup(Abs(), a, succeeded, retention);
      var ok := CompleteAny(a, succeeded, retention);
      FieldsOfAbs();
    }

    method OtherAborts(a: Access)
      requires WellFormed() && initialized
      modifies Repr
      ensures Repr == old(Repr) && entries == old(entries) && WellFormed()
      ensures initialized && waitingAccesses == old(waitingAccesses) && SameSetup(old(Abs()), Abs())
    {
      hide Consistent, Dormant, Abs, RepInv, Abort;
      FieldsOfAbs();
      AbortKeepsSetup(Abs(), a);
      AbortAny(a);
      FieldsOfAbs();
    }

    /** A manager with a waiting request can be neither reset nor released. */
    method OtherResets()
      requires WellFormed() && initialized && waitingAccesses > 0
      modifies Repr
      ensures Repr == old(Repr) && entries == old(entries) && WellFormed()
      ensures Abs() == old(Abs()) && initialized && waitingAccesses == old(waitingAccesses)
    {
      hide Consistent, Dormant, Abs, RepInv, CacheSpec.ResetCache, CacheSpec.BeginRelease;
      FieldsOfAbs();
      WaitersPreventReset(Abs());
      var reset, completed := ResetCache();
      var already, started := BeginRelease();
      FieldsOfAbs();
    }

    /** What other threads do between two locked sections of a waiting request: any number of their sections. */
    method OtherThreads(others: nat) returns (others': nat)
      requires WellFormed() && initialized && waitingAccesses == others + 1
      modifies Repr
      ensures Repr == old(Repr) && entries == old(entries) && WellFormed()
      ensures initialized && waitingAccesses == others' + 1 && SameSetup(old(Abs()), Abs())
    {
      hide WellFormed, Consistent, Dormant, Abs, RepInv;
      others' := others;
      var sections: nat := *;
      while sections > 0
        invariant Repr == old(Repr) && entries == old(entries) && WellFormed()
        invariant initialized && waitingAccesses == others' + 1 && SameSetup(old(Abs()), Abs())
      {
        others' := OtherSection(others');
        sections := sections - 1;
      }
    }

    /** The first pass of a request and everything it learns from it. */
    ghost predicate Asleep(md: FrameMetadata, req: GpuCacheRequest, p: Progress, clock: int)
      reads this, entries, residencyTable, residencyTable.slots
    {
      && WellFormed() && initialized && waitingAccesses > 0 && md.bytes == dataBytes && Abs().gpuId == Some(req.gpuId)
      && clock < p.deadline
    }

    /** One sleep of a request, whatever the other threads do meanwhile, and its next pass; the clock advances. */
    method SleepAndRetry(md: FrameMetadata, req: GpuCacheRequest, p: Progress, clock: int)
      returns (p': Progress, out: Outcome, clock': int, ghost seen: Cache, ghost before: Progress)
      requires Asleep(md, req, p, clock)
      modifies Repr
      ensures Repr == old(Repr) && entries == old(entries) && WellFormed() && initialized && clock' > clock
      ensures RepInv(seen) && IndicesInRange(seen) && SameSetup(old(Abs()), seen) && SameSetup(old(Abs()), Abs())
      ensures before.deadline == p'.deadline == p.deadline
      ensures Pass(Abs(), p', out) == Section(seen, md, req, before, clock')
      ensures out.Sleeping? ==> Asleep(md, req, p', clock')
    {
      hide Consistent, Dormant, Abs, RepInv, IndicesInRange, Section;
      FieldsOfAbs();
      var others := OtherThreads(waitingAccesses - 1);
      FieldsOfAbs();
      var woke := ReadClock(clock + 1);
      clock' := ReadClock(woke);
      before := Wake(Abs(), p, woke - clock).progress;
      seen := Wake(Abs(), p, woke - clock).cache;
      ResumptionIsCounted(Abs(), md, req, p, woke - clock, clock');
      p', out := ResumeLookup(md, req, p, woke - clock, clock');
      FieldsOfAbs();
    }

    /**
     * A whole request. `seen`, `before` and `clock` describe the locked section that answered it: the
     * manager as that section found it, what the request remembered, and the time of its wait test.
     */
    method LookupAndWait(md: FrameMetadata, req: GpuCacheRequest, started: int)
      returns (a: Access, clock: int, ghost seen: Cache, ghost before: Progress)
      requires WellFormed()
      modifies Repr
      ensures Repr == old(Repr) && entries == old(entries) && WellFormed() && clock >= started
      ensures !Admits(old(Abs()), md, req) ==> Abs() == Reject(old(Abs())) && a == NO_ACCESS
      ensures Admits(old(Abs()), md, req) ==>
                && initialized && RepInv(seen) && IndicesInRange(seen) && SameSetup(old(Abs()), seen)
                && before.deadline == Deadline(old(waitTimeout), started)
                && Answers(Section(seen, md, req, before, clock), Abs(), a)
    {
      hide Consistent, Dormant, Abs, RepInv, IndicesInRange, Section, Lookup, Admits, Reject, Deadline;
      FieldsOfAbs();
      ghost var admitted := Admits(Abs(), md, req);
      LookupCases(Abs(), md, req, started, started);
      clock := ReadClock(started);
      LookupCases(Abs(), md, req, started, clock);
      seen, before := Abs(), Progress(Deadline(waitTimeout, started), false, false, 0);
      if admitted {
        SleepIsCounted(seen, md, req, before, clock);
        LookupIsCounted(seen, md, req, started, clock);
      }
      var p, out := BeginLookup(md, req, started, clock);
      FieldsOfAbs();
      while out == Sleeping
        invariant Repr == old(Repr) && entries == old(entries) && WellFormed() && clock >= started
        invariant !admitted ==> Abs() == Reject(old(Abs())) && out == Returned(NO_ACCESS)
        invariant admitted ==>
                    && initialized && RepInv(seen) && IndicesInRange(seen)
                    && SameSetup(old(Abs()), seen) && SameSetup(old(Abs()), Abs())
                    && before.deadline == p.deadline == Deadline(old(waitTimeout), started)
                    && Pass(Abs(), p, out) == Section(seen, md, req, before, clock)
        invariant out.Sleeping? ==> Asleep(md, req, p, clock)
        decreases if out.Sleeping? then p.deadline - clock else 0
      {
        p, out, clock, seen, before := SleepAndRetry(md, req, p, clock);
      }
      a := out.access;
    }

    // -------------------------------------------------------------- access objects

    /** Finds or reserves data for a key; the access object is the lease. */
    method GetCacheData(md: FrameMetadata, req: GpuCacheRequest, started: int)
      returns (access: GpuDataAccess, clock: int, ghost seen: Cache, ghost before: Progress)
      requires WellFormed()
      modifies Repr
      ensures Repr == old(Repr) && entries == old(entries) && WellFormed() && clock >= started
      ensures fresh(access) && access.owner == if access.View().live then this else null
      ensures !Admits(old(Abs()), md, req) ==> Abs() == Reject(old(Abs())) && access.View() == NO_ACCESS
      ensures Admits(old(Abs()), md, req) ==>
                && initialized && RepInv(seen) && IndicesInRange(seen) && SameSetup(old(Abs()), seen)
                && before.deadline == Deadline(old(waitTimeout), started)
                && Answers(Section(seen, md, req, before, clock), Abs(), access.View())
    {
      hide Consistent, Dormant, Abs, RepInv, IndicesInRange, Section, Admits, Reject, Deadline, SameSetup;
      var a;
      a, clock, seen, before := LookupAndWait(md, req, started);
      access := new GpuDataAccess(if a.live then this else null, a);
    }

    /** Ends the lease of an access explicitly; an access of another manager is left alone. */
    method CompleteAccess(access: GpuDataAccess, succeeded: bool, retention: CacheRetention) returns (ok: bool)
      requires WellFormed() && access !in Repr
      modifies Repr, access
      ensures Repr == old(Repr) && entries == old(entries) && WellFormed()
      ensures old(access.owner) != this ==> !ok && Abs() == old(Abs()) && unchanged(access)
      ensures old(access.owner) == this ==>
                && Reply(Abs(), ok) == Complete(old(Abs()), old(access.View()), succeeded, retention)
                && access.owner == null && access.View() == NO_ACCESS
    {
      hide Consistent, Dormant, Abs, RepInv, Complete;
      ok := false;
      if access.owner == this {
        var a := access.Content();
        ok := CompleteAny(a, succeeded, retention);
        access.Reset();
      }
    }

    /** Ends the lease of an access that is destroyed or overwritten. */
    method AbortAccess(access: GpuDataAccess)
      requires WellFormed() && access !in Repr
      modifies Repr, access
      ensures Repr == old(Repr) && entries == old(entries) && WellFormed()
      ensures old(access.owner) != this ==> Abs() == old(Abs()) && unchanged(access)
      ensures old(access.owner) == this ==>
                Abs() == Abort(old(Abs()), old(access.View())) && access.owner == null && access.View() == NO_ACCESS
    {
      hide Consistent, Dormant, Abs, RepInv, Abort;
      if access.owner == this {
        var a := access.Content();
        AbortAny(a);
        access.Reset();
      }
    }
  }

  /** A movable lease: it ends exactly once, explicitly, by destruction, or by being overwritten. */
  class GpuDataAccess {
    var owner: GpuDataCache?
    var d_data: DevicePointer
    var dataBytes: nat
    var entryIndex: nat
    var dataKey: GpuDataKey
    var stream: nat
    var deviceId: int
    var accessStatus: CacheStatus

    function View(): Access
      reads this
    {
      Access(owner != null, d_data, dataBytes, entryIndex, dataKey, stream, deviceId, accessStatus)
    }

    constructor (owner: GpuDataCache?, a: Access)
      ensures View() == a.(live := owner != null) && this.owner == owner
    {
      this.owner := owner;
      d_data, dataBytes, entryIndex, dataKey := a.data, a.bytes, a.entryIndex, a.key;
      stream, deviceId, accessStatus := a.stream, a.gpuId, a.status;
    }

    method Content() returns (a: Access)
      ensures a == View()
    {
      a := View();
    }

    /** The manager of a live access is well formed and does not own the access object. */
    ghost predicate Attached()
      reads this, owner, if owner == null then [] else owner.entries
      reads if owner == null then {} else {owner.residencyTable, owner.residencyTable.slots}
    {
      owner != null ==> owner.WellFormed() && this !in owner.Repr
    }

    method Reset()
      modifies this
      ensures owner == null && View() == NO_ACCESS
    {
      owner, d_data, dataBytes, entryIndex := null, NULL_POINTER, 0, 0;
      dataKey, stream, deviceId, accessStatus := DEFAULT_KEY, 0, -1, Invalid;
    }

    method WritableData() returns (pointer: DevicePointer)
      ensures pointer == if View().Writable() then d_data else NULL_POINTER
    {
      pointer := if accessStatus == CacheFill || accessStatus == TaskFallback then d_data else NULL_POINTER;
    }

    method TakeAccess(other: GpuDataAccess)
      requires other != this
      modifies this, other
      ensures View() == old(other.View()) && owner == old(other.owner)
      ensures other.View() == NO_ACCESS && other.owner == null
    {
      owner, d_data, dataBytes, entryIndex := other.owner, other.d_data, other.dataBytes, other.entryIndex;
      dataKey, stream, deviceId, accessStatus := other.dataKey, other.stream, other.deviceId, other.accessStatus;
      other.Reset();
    }

    /** Ends an unfinished lease; `synchronized` is whether the stream could be drained. */
    method AbortUnfinishedAccess(synchronized: bool)
      requires Attached()
      modifies this, if owner == null then {} else owner.Repr
      ensures old(owner) == null ==> unchanged(this)
      ensures old(owner) != null ==>
                && owner == null && View() == NO_ACCESS
                && old(owner).WellFormed() && old(owner).Repr == old(owner.Repr)
                && old(owner).Abs() == Abort(Noted(old(owner.Abs()), synchronized), old(View()))
    {
      if owner == null {
        return;
      }
      hide GpuDataCache.WellFormed, GpuDataCache.Abs, Abort, CacheSpec.NoteSyncFailure;
      var manager := owner;
      if !synchronized {
        manager.NoteSyncFailure();
      }
      manager.AbortAccess(this);
    }

    /**
     * Explicit completion. `retention` is None for a value that is neither Keep nor Discard, which makes
     * the completion a failed one.
     */
    method FreeCacheData(submittedSuccessfully: bool, retention: Option<CacheRetention>, synchronized: bool)
        returns (ok: bool)
      requires Attached()
      modifies this, if owner == null then {} else owner.Repr
      ensures old(owner) == null || old(stream) == 0 ==> !ok && unchanged(this)
      ensures old(owner) != null && old(stream) != 0 ==>
                && owner == null && View() == NO_ACCESS
                && old(owner).WellFormed() && old(owner).Repr == old(owner.Repr)
                && Reply(old(owner).Abs(), ok) ==
                   Complete(Noted(old(owner.Abs()), synchronized), old(View()),
                            submittedSuccessfully && retention.Some? && synchronized,
                            if retention.Some? then retention.value else Keep)
    {
      if owner == null || stream == 0 {
        return false;
      }
      hide GpuDataCache.WellFormed, GpuDataCache.Abs, Complete, CacheSpec.NoteSyncFailure;
      var manager := owner;
      var succeeded := submittedSuccessfully && retention.Some?;
      if !synchronized {
        succeeded := false;
        manager.NoteSyncFailure();
      }
      ok := manager.CompleteAccess(this, succeeded, if retention.Some? then retention.value else Keep);
    }

    /** Move assignment: the overwritten lease is aborted first; assigning an access to itself does nothing. */
    method MoveAssign(other: GpuDataAccess, synchronized: bool)
      requires Attached() && (owner != null ==> other !in owner.Repr)
      modifies this, other, if owner == null then {} else owner.Repr
      ensures other == this ==> unchanged(this)
      ensures other != this ==>
                && View() == old(other.View()) && owner == old(other.owner)
                && other.View() == NO_ACCESS && other.owner == null
      ensures other != this && old(owner) != null ==>
                && old(owner).WellFormed()
                && old(owner).Abs() == Abort(Noted(old(owner.Abs()), synchronized), old(View()))
    {
      hide GpuDataCache.WellFormed, GpuDataCache.Abs, Abort, CacheSpec.NoteSyncFailure;
      if this != other {
        AbortUnfinishedAccess(synchronized);
        TakeAccess(other);
      }
    }
  }
}
