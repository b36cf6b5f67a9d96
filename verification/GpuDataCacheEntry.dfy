/** One reusable cache entry: its identity, its state, its list links and its device replicas. */
module CacheEntry {
  import opened GpuTypes
  import opened CacheSpec
  import opened IntrusiveList

  /** The first replica of a GPU. */
  ghost predicate FirstReplica(replicas: seq<GpuReplica>, gpuId: int, k: int) {
    && 0 <= k < |replicas| && replicas[k].gpuId == gpuId
    && (forall j :: 0 <= j < k ==> replicas[j].gpuId != gpuId)
  }

  ghost predicate NoReplica(replicas: seq<GpuReplica>, gpuId: int) {
    forall j :: 0 <= j < |replicas| ==> replicas[j].gpuId != gpuId
  }

  class GpuDataCacheEntry {
    var metadata: FrameMetadata
    var cacheState: GpuCacheState
    var activeAccesses: nat
    var previousEvictable: nat
    var nextEvictable: nat
    var previousFilled: nat
    var nextFilled: nat
    var replicas: seq<GpuReplica>
    var dataBytes: nat
    var inEvictableList: bool
    var inFilledList: bool
    var discardWhenUnused: bool
    var initialized: bool
    // The position of the entry in its manager; it makes distinct positions distinct objects.
    ghost const slot: nat

    ghost function View(): Entry
      reads this`metadata, this`cacheState, this`activeAccesses, this`discardWhenUnused, this`replicas
    {
      Entry(metadata, cacheState, activeAccesses, discardWhenUnused,
            if |replicas| == 1 then replicas[0].d_data else NULL_POINTER,
            |replicas| == 1 && replicas[0].valid)
    }

    ghost function EvictLinks(): Links
      reads this`previousEvictable, this`nextEvictable, this`inEvictableList
    {
      Links(previousEvictable, nextEvictable, inEvictableList)
    }

    ghost function FillLinks(): Links
      reads this`previousFilled, this`nextFilled, this`inFilledList
    {
      Links(previousFilled, nextFilled, inFilledList)
    }

    ghost predicate IsBlank()
      reads this
    {
      && metadata == DEFAULT_METADATA && cacheState == Empty && activeAccesses == 0 && !discardWhenUnused
      && EvictLinks() == UNLINKED && FillLinks() == UNLINKED && replicas == [] && dataBytes == 0 && !initialized
    }

    constructor (ghost slot: nat)
      ensures IsBlank() && this.slot == slot
    {
      this.slot := slot;
      metadata, cacheState, activeAccesses := DEFAULT_METADATA, Empty, 0;
      previousEvictable, nextEvictable, inEvictableList := NO_ENTRY, NO_ENTRY, false;
      previousFilled, nextFilled, inFilledList := NO_ENTRY, NO_ENTRY, false;
      replicas, dataBytes, discardWhenUnused, initialized := [], 0, false, false;
    }

    /** Nothing that initialisation looks at has been set. */
    ghost predicate IsUnused()
      reads this
    {
      && !initialized && replicas == [] && cacheState == Empty && activeAccesses == 0 && !discardWhenUnused
      && EvictLinks() == UNLINKED && FillLinks() == UNLINKED
    }

    /** `pointer` is what the driver returns for the one replica, or null when it fails. */
    method Initialize(gpuIds: seq<int>, bytes: nat, pointer: DevicePointer) returns (ok: bool)
      modifies this
      ensures ok <==> old(IsUnused()) && |gpuIds| == 1 && gpuIds[0] >= 0 && bytes != 0 && pointer != NULL_POINTER
      ensures ok ==> initialized && dataBytes == bytes && replicas == [GpuReplica(gpuIds[0], pointer, false)]
      ensures ok ==> View() == Entry(old(metadata), Empty, 0, false, pointer, false)
      ensures ok ==> EvictLinks() == UNLINKED && FillLinks() == UNLINKED
      ensures !ok ==> if old(IsUnused()) && |gpuIds| == 1 && gpuIds[0] >= 0 && bytes != 0 then IsBlank()
              else unchanged(this)
    {
      if initialized || replicas != [] || cacheState != Empty || activeAccesses != 0 || previousEvictable != NO_ENTRY ||
         nextEvictable != NO_ENTRY || inEvictableList || previousFilled != NO_ENTRY || nextFilled != NO_ENTRY ||
           inFilledList ||
         discardWhenUnused || |gpuIds| != 1 || gpuIds[0] < 0 || bytes == 0 {
        return false;
      }
      replicas := seq(|gpuIds|, i requires 0 <= i < |gpuIds| => GpuReplica(gpuIds[i], NULL_POINTER, false));
      dataBytes := bytes;
      if pointer == NULL_POINTER {
        var released := Release(true);
        return false;
      }
      replicas := replicas[0 := replicas[0].(d_data := pointer)];
      initialized := true;
      return true;
    }

    /** Everything back to the state of an entry that was never initialised. */
    method Forget()
      modifies this
      ensures IsBlank()
    {
      metadata := DEFAULT_METADATA;
      cacheState := Empty;
      activeAccesses := 0;
      previousEvictable, nextEvictable, previousFilled, nextFilled := NO_ENTRY, NO_ENTRY, NO_ENTRY, NO_ENTRY;
      replicas := [];
      dataBytes := 0;
      inEvictableList, inFilledList, discardWhenUnused, initialized := false, false, false, false;
    }

    /** Frees the replicas; `freed` is false when the driver refuses to free an allocation. */
    method Release(freed: bool) returns (ok: bool)
      requires |replicas| <= 1
      modifies this
      ensures (old(activeAccesses) != 0 || old(cacheState) == Loading) ==> !ok && unchanged(this)
      ensures !(old(activeAccesses) != 0 || old(cacheState) == Loading) ==>
                && ok == (freed || old(View()).buffer == NULL_POINTER)
                && (if ok then IsBlank() else unchanged(this))
    {
      if activeAccesses != 0 || cacheState == Loading {
        return false;
      }
      ok := true;
      var allReleased := true;
      if |replicas| == 1 && replicas[0].d_data != NULL_POINTER {
        if freed {
          replicas := replicas[0 := replicas[0].(d_data := NULL_POINTER, valid := false)];
        } else {
          ok := false;
        }
      }
      if |replicas| == 1 && replicas[0].d_data != NULL_POINTER {
        allReleased := false;
      }
      if allReleased {
        Forget();
      }
    }

    method DataForGpu(gpuId: int) returns (pointer: DevicePointer)
      ensures (exists k :: FirstReplica(replicas, gpuId, k) && pointer == replicas[k].d_data)
              || (NoReplica(replicas, gpuId) && pointer == NULL_POINTER)
    {
      for i := 0 to |replicas|
        invariant forall j :: 0 <= j < i ==> replicas[j].gpuId != gpuId
      {
        if replicas[i].gpuId == gpuId {
          assert FirstReplica(replicas, gpuId, i);
          return replicas[i].d_data;
        }
      }
      return NULL_POINTER;
    }

    method ReplicaValid(gpuId: int) returns (valid: bool)
      ensures valid <==> exists k :: FirstReplica(replicas, gpuId, k) && replicas[k].valid
    {
      for i := 0 to |replicas|
        invariant forall j :: 0 <= j < i ==> replicas[j].gpuId != gpuId
      {
        if replicas[i].gpuId == gpuId {
          assert FirstReplica(replicas, gpuId, i);
          return replicas[i].valid;
        }
      }
      return false;
    }

    method InvalidateReplicas()
      modifies this`replicas
      ensures |replicas| == |old(replicas)|
      ensures forall i :: 0 <= i < |replicas| ==> replicas[i] == old(replicas)[i].(valid := false)
    {
      for i := 0 to |replicas|
        invariant |replicas| == |old(replicas)|
        invariant forall j :: 0 <= j < i ==> replicas[j] == old(replicas)[j].(valid := false)
        invariant forall j :: i <= j < |replicas| ==> replicas[j] == old(replicas)[j]
      {
        replicas := replicas[i := replicas[i].(valid := false)];
      }
    }

    method MarkReplicaValid(gpuId: int) returns (ok: bool)
      modifies this`replicas
      ensures ok ==>
                (exists k :: FirstReplica(old(replicas), gpuId, k)
                  && replicas == old(replicas)[k := old(replicas)[k].(valid := true)])
      ensures !ok ==> NoReplica(old(replicas), gpuId) && replicas == old(replicas)
    {
      for i := 0 to |replicas|
        invariant replicas == old(replicas)
        invariant forall j :: 0 <= j < i ==> replicas[j].gpuId != gpuId
      {
        if replicas[i].gpuId == gpuId {
          assert FirstReplica(replicas, gpuId, i);
          replicas := replicas[i := replicas[i].(valid := true)];
          return true;
        }
      }
      return false;
    }

    /** Forgets the cached identity; the allocation stays. */
    method ClearIdentity()
      requires |replicas| == 1
      modifies this`metadata, this`replicas, this`cacheState, this`activeAccesses, this`discardWhenUnused
      ensures View() == old(View()).Cleared()
      ensures |replicas| == 1 && replicas[0].gpuId == old(replicas[0]).gpuId
    {
      metadata := DEFAULT_METADATA;
      InvalidateReplicas();
      cacheState := Empty;
      activeAccesses := 0;
      discardWhenUnused := false;
    }

    method ClearLinks()
      modifies this`previousEvictable, this`nextEvictable, this`inEvictableList
      modifies this`previousFilled, this`nextFilled, this`inFilledList
      ensures EvictLinks() == UNLINKED && FillLinks() == UNLINKED
    {
      previousEvictable, nextEvictable, inEvictableList := NO_ENTRY, NO_ENTRY, false;
      previousFilled, nextFilled, inFilledList := NO_ENTRY, NO_ENTRY, false;
    }

    /** Takes on a new identity whose payload is still to be produced. */
    method BeginLoading(md: FrameMetadata)
      requires |replicas| == 1
      modifies this`metadata, this`replicas, this`cacheState, this`activeAccesses, this`discardWhenUnused
      ensures View() == Reserve(old(View()), md)
      ensures |replicas| == 1 && replicas[0].gpuId == old(replicas[0]).gpuId
    {
      metadata := md;
      InvalidateReplicas();
      cacheState := Loading;
      activeAccesses := 1;
      discardWhenUnused := false;
    }

    method DropReader(discardNow: bool)
      requires activeAccesses > 0
      modifies this`activeAccesses, this`discardWhenUnused
      ensures View() == OneReaderLess(old(View()), discardNow)
    {
      discardWhenUnused := discardWhenUnused || discardNow;
      activeAccesses := activeAccesses - 1;
    }

    /** Publishes the payload of the one replica; false when the GPU has no replica here. */
    method Publish(gpuId: int) returns (ok: bool)
      requires |replicas| == 1
      modifies this`replicas, this`cacheState, this`activeAccesses
      ensures |replicas| == 1 && replicas[0].gpuId == old(replicas[0]).gpuId && ok == (replicas[0].gpuId == gpuId)
      ensures View() == if ok then old(View()).(state := Valid, active := 0, replicaValid := true) else old(View())
    {
      if gpuId == replicas[0].gpuId {
        assert FirstReplica(replicas, gpuId, 0);
      }
      ok := MarkReplicaValid(gpuId);
      if ok {
        cacheState := Valid;
        activeAccesses := 0;
      }
    }
  }
}
