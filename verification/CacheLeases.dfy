/**
 * Lease accounting: what the live access objects say about the entries, and that every kind of
 * lease traffic keeps the counts of the manager equal to the number of live leases.
 */
module CacheLeases {
  import opened Counting
  import opened GpuTypes
  import opened CacheSpec
  import opened CacheInvariant

  type Accesses = map<nat, Access>

  /** The live hit and fill leases of entry `i`. */
  ghost function Holders(accesses: Accesses, i: nat): set<nat> {
    set id | id in accesses && accesses[id].Holds(i)
  }

  predicate IsFallback(a: Access) {
    a.live && a.status == TaskFallback
  }

  ghost function FallbackHolders(accesses: Accesses): set<nat> {
    set id | id in accesses && IsFallback(accesses[id])
  }

  ghost predicate IsBuffer(c: Cache, pointer: DevicePointer) {
    exists i :: 0 <= i < |c.entries| && c.entries[i].buffer == pointer
  }

  ghost predicate OnEntry(c: Cache, a: Access, state: GpuCacheState) {
    && a.entryIndex < |c.entries|
    && c.entries[a.entryIndex].state == state
    && c.entries[a.entryIndex].metadata.key == a.key
    && c.entries[a.entryIndex].buffer == a.data
    && a.bytes == c.dataBytes && c.gpuId == Some(a.gpuId) && a.stream != 0
  }

  /** A live lease describes the entry it holds, or private memory of its caller. */
  ghost predicate LeaseOk(c: Cache, a: Access) {
    match a.status
    case CacheHit => OnEntry(c, a, Valid)
    case CacheFill => OnEntry(c, a, Loading)
    case TaskFallback =>
      && a.entryIndex == NO_ENTRY && a.data != NULL_POINTER && !IsBuffer(c, a.data)
      && a.bytes == c.dataBytes && c.gpuId == Some(a.gpuId) && a.stream != 0
    case Invalid => false
  }

  ghost predicate Counted(c: Cache, accesses: Accesses, i: nat) {
    i < |c.entries| && |Holders(accesses, i)| == c.entries[i].active
  }

  ghost predicate LeaseInv(c: Cache, accesses: Accesses) {
    && (forall id :: id in accesses && accesses[id].live ==> LeaseOk(c, accesses[id]))
    && (forall i {:trigger Counted(c, accesses, i)} :: 0 <= i < |c.entries| ==> Counted(c, accesses, i))
    && |FallbackHolders(accesses)| == c.fallbacks
  }

  /** The manager between initialisations: nobody holds anything. */
  ghost predicate Quiet(c: Cache) {
    c.fallbacks == 0 && c.waiting == 0 &&
    forall i :: 0 <= i < |c.entries| ==> c.entries[i].active == 0 && c.entries[i].state != Loading
  }

  ghost predicate CacheInv(c: Cache) {
    && (c.initialized ==> !c.releasing && RepInv(c))
    && (!c.initialized ==> Quiet(c))
    && (c.gpuId == None ==> c.entries == [] && c.empties == [] && !c.initialized && !c.releasing)
  }

  // ---------------------------------------------------------------- counting

  predicate Absent(accesses: Accesses, id: nat) {
    id in accesses ==> !accesses[id].live
  }

  lemma HoldersAfterPut(accesses: Accesses, id: nat, a: Access, i: nat)
    requires Absent(accesses, id)
    ensures Holders(accesses[id := a], i) == if a.Holds(i) then Holders(accesses, i) + {id} else Holders(accesses, i)
    ensures |Holders(accesses[id := a], i)| == |Holders(accesses, i)| + if a.Holds(i) then 1 else 0
  {
    assert id !in Holders(accesses, i);
    assert Holders(accesses[id := a], i) == if a.Holds(i) then Holders(accesses, i) + {id} else Holders(accesses, i);
  }

  lemma HoldersAfterTake(accesses: Accesses, id: nat, i: nat)
    requires id in accesses
    ensures Holders(accesses[id := NO_ACCESS], i) == Holders(accesses, i) - {id}
    ensures |Holders(accesses[id := NO_ACCESS], i)| == |Holders(accesses, i)| - if accesses[id].Holds(i) then 1 else 0
  {
    assert Holders(accesses[id := NO_ACCESS], i) == Holders(accesses, i) - {id};
    assert id in Holders(accesses, i) <==> accesses[id].Holds(i);
  }

  lemma FallbacksAfterPut(accesses: Accesses, id: nat, a: Access)
    requires Absent(accesses, id)
    ensures |FallbackHolders(accesses[id := a])| == |FallbackHolders(accesses)| + if IsFallback(a) then 1 else 0
  {
    assert id !in FallbackHolders(accesses);
    assert FallbackHolders(accesses[id := a]) ==
           if IsFallback(a) then FallbackHolders(accesses) + {id} else FallbackHolders(accesses);
  }

  lemma FallbacksAfterTake(accesses: Accesses, id: nat)
    requires id in accesses
    ensures |FallbackHolders(accesses[id := NO_ACCESS])| ==
            |FallbackHolders(accesses)| - if IsFallback(accesses[id]) then 1 else 0
  {
    assert FallbackHolders(accesses[id := NO_ACCESS]) == FallbackHolders(accesses) - {id};
    assert id in FallbackHolders(accesses) <==> IsFallback(accesses[id]);
  }

  /** An entry without readers is held by nobody; an entry with one is held by exactly that lease. */
  lemma HoldersOf(c: Cache, accesses: Accesses, i: nat, id: nat)
    requires LeaseInv(c, accesses) && i < |c.entries| && id in accesses && accesses[id].Holds(i)
    ensures c.entries[i].active > 0
    ensures c.entries[i].active == 1 ==> forall other :: other in accesses && accesses[other].Holds(i) ==> other == id
  {
    assert Counted(c, accesses, i);
    assert id in Holders(accesses, i);
    if c.entries[i].active == 1 {
      forall other | other in accesses && accesses[other].Holds(i)
        ensures other == id
      {
        assert other in Holders(accesses, i);
        if other != id {
          assert {id, other} <= Holders(accesses, i);
          SubsetSize({id, other}, Holders(accesses, i));
        }
      }
    }
  }

  lemma NobodyHolds(c: Cache, accesses: Accesses, i: nat)
    requires LeaseInv(c, accesses) && i < |c.entries| && c.entries[i].active == 0
    ensures forall id :: id in accesses ==> !accesses[id].Holds(i)
  {
    assert Counted(c, accesses, i);
    forall id | id in accesses
      ensures !accesses[id].Holds(i)
    {
      assert accesses[id].Holds(i) ==> id in Holders(accesses, i);
    }
  }

  // ---------------------------------------------------------------- lease traffic

  /** Changes to the counters, to the waiters or to the failure flag leave the accounting alone. */
  lemma LeasesIgnoreBookkeeping(c: Cache, c': Cache, accesses: Accesses)
    requires LeaseInv(c, accesses)
    requires c'.entries == c.entries && c'.fallbacks == c.fallbacks && c'.dataBytes == c.dataBytes
             && c'.gpuId == c.gpuId
    ensures LeaseInv(c', accesses)
  {
    forall i | 0 <= i < |c'.entries|
      ensures Counted(c', accesses, i)
    {
      assert Counted(c, accesses, i);
    }
    assert forall p :: IsBuffer(c', p) <==> IsBuffer(c, p);
  }

  /** A change of one entry that keeps its buffer does not touch leases on other entries. */
  lemma OtherLeasesOk(c: Cache, c': Cache, accesses: Accesses, i: nat)
    requires LeaseInv(c, accesses) && i < |c.entries|
    requires |c'.entries| == |c.entries| && c'.dataBytes == c.dataBytes && c'.gpuId == c.gpuId
    requires c'.entries == c.entries[i := c'.entries[i]] && c'.entries[i].buffer == c.entries[i].buffer
    ensures forall id :: id in accesses && accesses[id].live && !accesses[id].Holds(i) ==> LeaseOk(c', accesses[id])
    ensures forall p :: IsBuffer(c', p) <==> IsBuffer(c, p)
  {
    assert forall j :: 0 <= j < |c.entries| ==> c'.entries[j].buffer == c.entries[j].buffer;
    assert forall p :: IsBuffer(c', p) <==> IsBuffer(c, p);
    forall id | id in accesses && accesses[id].live && !accesses[id].Holds(i)
      ensures LeaseOk(c', accesses[id])
    {
      assert LeaseOk(c, accesses[id]);
    }
  }

  lemma HitTakesLease(c: Cache, accesses: Accesses, call: nat, i: nat, md: FrameMetadata, req: GpuCacheRequest)
    requires LeaseInv(c, accesses) && Absent(accesses, call) && RepInv(c)
    requires i < |c.entries| && c.entries[i].state == Valid && c.entries[i].metadata == md
    requires c.gpuId == Some(req.gpuId) && req.stream != 0
    ensures LeaseInv(ServeHit(c, i), accesses[call := CacheLease(c, i, md, req, CacheHit)])
  {
    var c' := ServeHit(c, i);
    var a := CacheLease(c, i, md, req, CacheHit);
    OtherLeasesOk(c, c', accesses, i);
    LeasesAfterPut(c, c', accesses, call, a, i);
  }

  lemma FillTakesLease(c: Cache, c': Cache, accesses: Accesses, call: nat, i: nat, md: FrameMetadata,
      req: GpuCacheRequest)
    requires LeaseInv(c, accesses) && Absent(accesses, call) && RepInv(c)
    requires i < |c.entries| && c.entries[i].active == 0 && c.gpuId == Some(req.gpuId) && req.stream != 0
    requires c'.entries == c.entries[i := Reserve(c.entries[i], md)]
    requires c'.fallbacks == c.fallbacks && c'.dataBytes == c.dataBytes && c'.gpuId == c.gpuId
    ensures LeaseInv(c', accesses[call := CacheLease(c, i, md, req, CacheFill)])
  {
    NobodyHolds(c, accesses, i);
    OtherLeasesOk(c, c', accesses, i);
    LeasesAfterPut(c, c', accesses, call, CacheLease(c, i, md, req, CacheFill), i);
  }

  /** The common end of a hit and of a fill: one more lease, one more reader. */
  lemma LeasesAfterPut(c: Cache, c': Cache, accesses: Accesses, call: nat, a: Access, i: nat)
    requires LeaseInv(c, accesses) && Absent(accesses, call) && |c.entries| < NO_ENTRY
    requires a.Holds(i) && LeaseOk(c', a) && i < |c.entries| == |c'.entries|
    requires forall id :: id in accesses && accesses[id].live ==> LeaseOk(c', accesses[id])
    requires c'.entries == c.entries[i := c'.entries[i]] && c'.entries[i].active == c.entries[i].active + 1
    requires c'.fallbacks == c.fallbacks
    ensures LeaseInv(c', accesses[call := a])
  {
    var accesses' := accesses[call := a];
    FallbacksAfterPut(accesses, call, a);
    forall j | 0 <= j < |c'.entries|
      ensures Counted(c', accesses', j)
    {
      assert Counted(c, accesses, j);
      HoldersAfterPut(accesses, call, a, j);
    }
  }

  lemma FallbackTakesLease(c: Cache, accesses: Accesses, call: nat, md: FrameMetadata, req: GpuCacheRequest,
      reason: CacheFallbackReason)
    requires LeaseInv(c, accesses) && Absent(accesses, call) && |c.entries| < NO_ENTRY
    requires req.d_fallback != NULL_POINTER && !IsBuffer(c, req.d_fallback) && c.gpuId == Some(req.gpuId)
             && req.stream != 0
    ensures LeaseInv(ServeFallback(c, reason), accesses[call := FallbackLease(c, md, req)])
  {
    var c' := ServeFallback(c, reason);
    var a := FallbackLease(c, md, req);
    FallbacksAfterPut(accesses, call, a);
    var accesses' := accesses[call := a];
    assert forall p :: IsBuffer(c', p) <==> IsBuffer(c, p);
    forall j | 0 <= j < |c'.entries|
      ensures Counted(c', accesses', j)
    {
      assert Counted(c, accesses, j);
      HoldersAfterPut(accesses, call, a, j);
    }
  }

  lemma RejectionTakesNoLease(c: Cache, accesses: Accesses, call: nat)
    requires LeaseInv(c, accesses) && Absent(accesses, call)
    ensures LeaseInv(Reject(c), accesses[call := NO_ACCESS])
  {
    var c' := Reject(c);
    FallbacksAfterPut(accesses, call, NO_ACCESS);
    var accesses' := accesses[call := NO_ACCESS];
    assert forall p :: IsBuffer(c', p) <==> IsBuffer(c, p);
    forall j | 0 <= j < |c'.entries|
      ensures Counted(c', accesses', j)
    {
      assert Counted(c, accesses, j);
      HoldersAfterPut(accesses, call, NO_ACCESS, j);
    }
  }

  /** The common end of every cache-backed lease: one lease less, one reader less. */
  lemma LeasesAfterTake(c: Cache, c': Cache, accesses: Accesses, id: nat, i: nat)
    requires LeaseInv(c, accesses) && |c.entries| < NO_ENTRY
    requires id in accesses && accesses[id].Holds(i) && i < |c.entries| == |c'.entries|
    requires c'.dataBytes == c.dataBytes && c'.gpuId == c.gpuId && c'.fallbacks == c.fallbacks
    requires c'.entries == c.entries[i := c'.entries[i]] && c'.entries[i].buffer == c.entries[i].buffer
    requires c'.entries[i].active == c.entries[i].active - 1
    requires c'.entries[i].active != 0 ==>
               c'.entries[i].state == c.entries[i].state && c'.entries[i].metadata == c.entries[i].metadata
    ensures LeaseInv(c', accesses[id := NO_ACCESS])
  {
    var accesses' := accesses[id := NO_ACCESS];
    FallbacksAfterTake(accesses, id);
    OtherLeasesOk(c, c', accesses, i);
    HoldersOf(c, accesses, i, id);
    forall other | other in accesses' && accesses'[other].live
      ensures LeaseOk(c', accesses'[other])
    {
      assert LeaseOk(c, accesses[other]);
    }
    forall j | 0 <= j < |c'.entries|
      ensures Counted(c', accesses', j)
    {
      assert Counted(c, accesses, j);
      HoldersAfterTake(accesses, id, j);
    }
  }

  lemma LeasesAfterFallback(c: Cache, c': Cache, accesses: Accesses, id: nat)
    requires LeaseInv(c, accesses) && id in accesses && IsFallback(accesses[id]) && |c.entries| < NO_ENTRY
    requires c.fallbacks > 0 ==> c' == c.(fallbacks := c.fallbacks - 1)
    ensures c.fallbacks > 0 && LeaseInv(c', accesses[id := NO_ACCESS])
  {
    FallbacksAfterTake(accesses, id);
    assert id in FallbackHolders(accesses);
    var accesses' := accesses[id := NO_ACCESS];
    assert forall p :: IsBuffer(c', p) <==> IsBuffer(c, p);
    forall j | 0 <= j < |c'.entries|
      ensures Counted(c', accesses', j)
    {
      assert Counted(c, accesses, j);
      HoldersAfterTake(accesses, id, j);
    }
  }

  /** Moving a lease between access objects changes no count and no lease. */
  lemma MoveKeepsLeases(c: Cache, accesses: Accesses, source: nat, destination: nat)
    requires LeaseInv(c, accesses) && source in accesses && Absent(accesses, destination) && accesses[source].live
    ensures LeaseInv(c, accesses[destination := accesses[source]][source := NO_ACCESS])
  {
    var a := accesses[source];
    var accesses1 := accesses[destination := a];
    var accesses2 := accesses1[source := NO_ACCESS];
    FallbacksAfterPut(accesses, destination, a);
    FallbacksAfterTake(accesses1, source);
    forall j | 0 <= j < |c.entries|
      ensures Counted(c, accesses2, j)
    {
      assert Counted(c, accesses, j);
      HoldersAfterPut(accesses, destination, a, j);
      HoldersAfterTake(accesses1, source, j);
    }
  }

  /** Nobody holds a lease on a quiet manager. */
  lemma QuietHasNoLeases(c: Cache, accesses: Accesses)
    requires LeaseInv(c, accesses) && Quiet(c)
    ensures forall id :: id in accesses ==> !accesses[id].live
  {
    assert FallbackHolders(accesses) == {};
    forall id | id in accesses
      ensures !accesses[id].live
    {
      if accesses[id].live {
        var i := accesses[id].entryIndex;
        if i < |c.entries| {
          NobodyHolds(c, accesses, i);
        }
        var counted := id in FallbackHolders(accesses);
        assert false;
      }
    }
  }

  lemma NoLeasesInv(c: Cache, accesses: Accesses)
    requires forall id :: id in accesses ==> !accesses[id].live
    requires Quiet(c)
    ensures LeaseInv(c, accesses)
  {
    assert FallbackHolders(accesses) == {};
    forall j | 0 <= j < |c.entries|
      ensures Counted(c, accesses, j)
    {
      assert Holders(accesses, j) == {};
    }
  }
}
