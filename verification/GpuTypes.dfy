/** Values shared by the cache modules: keys, frame descriptions, policies and counters. */
module GpuTypes {

  // The program's std::size_t is 64 bits wide; its largest value doubles as "no entry" and "no slot".
  const SIZE_MAX: nat := 0xFFFF_FFFF_FFFF_FFFF
  const NO_ENTRY: nat := SIZE_MAX

  datatype Option<+T> = None | Some(value: T)

  datatype GpuDataKey = GpuDataKey(frameId: nat, cameraId: nat, variantId: nat)

  const DEFAULT_KEY := GpuDataKey(0, 0, 0)

  datatype FrameMetadata = FrameMetadata(key: GpuDataKey, bytes: nat, width: int, height: int, dtype: int)

  const DEFAULT_METADATA := FrameMetadata(DEFAULT_KEY, 0, 0, 0, 0)

  datatype CacheEvictionPolicy = LRU | FIFO

  datatype CacheRetention = Keep | Discard

  datatype CacheStatus = Invalid | CacheHit | CacheFill | TaskFallback

  datatype CacheFallbackReason =
    | CapacityZero
    | LoadingTimeout
    | FullTimeout
    | LoadingNoWait
    | FullNoWait
    | ReplicaUnavailable

  datatype CacheFallbackStatistics = CacheFallbackStatistics(
    capacityZero: nat, loadingTimeout: nat, fullTimeout: nat,
    loadingNoWait: nat, fullNoWait: nat, replicaUnavailable: nat)
  {
    function Sum(): nat {
      capacityZero + loadingTimeout + fullTimeout + loadingNoWait + fullNoWait + replicaUnavailable
    }

    function Count(reason: CacheFallbackReason): CacheFallbackStatistics {
      match reason
      case CapacityZero => this.(capacityZero := capacityZero + 1)
      case LoadingTimeout => this.(loadingTimeout := loadingTimeout + 1)
      case FullTimeout => this.(fullTimeout := fullTimeout + 1)
      case LoadingNoWait => this.(loadingNoWait := loadingNoWait + 1)
      case FullNoWait => this.(fullNoWait := fullNoWait + 1)
      case ReplicaUnavailable => this.(replicaUnavailable := replicaUnavailable + 1)
    }
  }

  // Times are nanoseconds.
  datatype CacheStatistics = CacheStatistics(
    hit: nat, fill: nat, fallback: nat, invalid: nat,
    fillSucceeded: nat, fillFailed: nat, eviction: nat, discard: nat, syncFailures: nat,
    firstBlockedLoading: nat, firstBlockedFull: nat,
    fallbackReasons: CacheFallbackStatistics,
    waitedRequests: nat, totalWaitTime: nat, maxWaitTime: nat)
  {
    function CountHit(): CacheStatistics {
      this.(hit := hit + 1)
    }

    function CountReservation(evicted: bool): CacheStatistics {
      this.(fill := fill + 1, eviction := if evicted then eviction + 1 else eviction)
    }

    function CountFallback(reason: CacheFallbackReason): CacheStatistics {
      this.(fallback := fallback + 1, fallbackReasons := fallbackReasons.Count(reason))
    }

    function CountInvalid(): CacheStatistics {
      this.(invalid := invalid + 1)
    }

    function CountFillEnd(succeeded: bool): CacheStatistics {
      if succeeded then this.(fillSucceeded := fillSucceeded + 1) else this.(fillFailed := fillFailed + 1)
    }

    function CountDiscard(): CacheStatistics {
      this.(discard := discard + 1)
    }

    function CountSyncFailure(): CacheStatistics {
      this.(syncFailures := syncFailures + 1)
    }

    function CountFirstBlock(onLoading: bool): CacheStatistics {
      if onLoading then this.(firstBlockedLoading := firstBlockedLoading + 1)
      else this.(firstBlockedFull := firstBlockedFull + 1)
    }

    function CountWaiter(waited: bool): CacheStatistics {
      if waited then this else this.(waitedRequests := waitedRequests + 1)
    }

    /** One completed sleep of a request that has now slept `requestWait` in all. */
    function CountWait(elapsed: nat, requestWait: nat): CacheStatistics {
      this.(totalWaitTime := totalWaitTime + elapsed,
            maxWaitTime := if maxWaitTime < requestWait then requestWait else maxWaitTime)
    }
  }

  const NO_STATISTICS :=
    CacheStatistics(0, 0, 0, 0, 0, 0, 0, 0, 0, 0, 0, CacheFallbackStatistics(0, 0, 0, 0, 0, 0), 0, 0, 0)

  // A device pointer; 0 is the null pointer.
  type DevicePointer = nat

  const NULL_POINTER: DevicePointer := 0

  datatype GpuReplica = GpuReplica(gpuId: int, d_data: DevicePointer, valid: bool)

  datatype GpuCacheState = Empty | Loading | Valid

  // A stream handle; 0 is the null stream that requests must not use.
  datatype GpuCacheRequest = GpuCacheRequest(gpuId: int, stream: nat, d_fallback: DevicePointer, fallbackBytes: nat)
}
