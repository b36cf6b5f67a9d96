/**
 * The owner of a cache with one fixed frame layout. It makes metadata a function of the key, which is
 * what `CacheDefences` needs to show that its lookups never meet a metadata mismatch.
 */
module StaticFrames {
  import opened GpuTypes
  import opened CacheSpec
  import opened CacheInvariant
  import opened CacheStores
  import opened CacheDefences
  import opened DataCache

  datatype AlgoRuntimeInfo = AlgoRuntimeInfo(inBytes: nat, frameW: int, frameH: int, frameDtype: int)

  /** The frame layout of a runtime: everything but the key is fixed. */
  function LayoutOf(runtime: AlgoRuntimeInfo): Layout {
    key => FrameMetadata(key, runtime.inBytes, runtime.frameW, runtime.frameH, runtime.frameDtype)
  }

  predicate MatchesRuntime(md: FrameMetadata, runtime: AlgoRuntimeInfo) {
    && md.bytes != 0 && md.bytes == runtime.inBytes && md.width == runtime.frameW && md.height == runtime.frameH
    && md.dtype == runtime.frameDtype
  }

  /** The validation accepts exactly one description per key, and none at all for an empty layout. */
  lemma MatchingIsFollowing(md: FrameMetadata, runtime: AlgoRuntimeInfo)
    ensures MatchesRuntime(md, runtime) <==> runtime.inBytes != 0 && md == LayoutOf(runtime)(md.key)
  {
  }

  datatype StaticGpuDataState = Unused | Filling | Ready

  class StaticData {
    const gpuDataCache: GpuDataCache
    var staticState: StaticGpuDataState
    var frameRuntime: AlgoRuntimeInfo
    var initialized: bool

    constructor (cache: GpuDataCache)
      ensures gpuDataCache == cache && !initialized && staticState == Unused
    {
      gpuDataCache := cache;
      staticState, initialized, frameRuntime := Unused, false, AlgoRuntimeInfo(0, 0, 0, 0);
    }

    predicate Executable()
      reads this
    {
      initialized && staticState == Ready
    }

    method ValidateFrame(md: FrameMetadata) returns (ok: bool)
      ensures ok <==> Executable() && frameRuntime.inBytes != 0 && md == LayoutOf(frameRuntime)(md.key)
    {
      MatchingIsFollowing(md, frameRuntime);
      ok := Executable() && MatchesRuntime(md, frameRuntime);
    }

    /** Only frames of the fixed layout reach the cache; a rejected frame does not even count as a request. */
    method GetCacheData(md: FrameMetadata, req: GpuCacheRequest, started: int)
      returns (access: GpuDataAccess, clock: int, ghost seen: Cache, ghost before: Progress)
      requires gpuDataCache.WellFormed() && this !in gpuDataCache.Repr
      modifies gpuDataCache.Repr
      ensures gpuDataCache.WellFormed() && fresh(access) && clock >= started
      ensures
        var valid := old(Executable()) && old(frameRuntime).inBytes != 0 && md == LayoutOf(old(frameRuntime))(md.key);
        && (!valid ==>
              gpuDataCache.Abs() == old(gpuDataCache.Abs()) && access.owner == null && access.View() == NO_ACCESS)
        && (valid && !Admits(old(gpuDataCache.Abs()), md, req) ==>
              gpuDataCache.Abs() == Reject(old(gpuDataCache.Abs())) && access.View() == NO_ACCESS)
        && (valid && Admits(old(gpuDataCache.Abs()), md, req) ==>
              && RepInv(seen) && IndicesInRange(seen) && SameSetup(old(gpuDataCache.Abs()), seen)
              && Answers(Section(seen, md, req, before, clock), gpuDataCache.Abs(), access.View()))
    {
      hide GpuDataCache.WellFormed, GpuDataCache.Abs, Section, Admits, Reject, RepInv, IndicesInRange, SameSetup,
           Answers;
      var valid := ValidateFrame(md);
      if valid {
        access, clock, seen, before := gpuDataCache.GetCacheData(md, req, started);
      } else {
        access := new GpuDataAccess(null, NO_ACCESS);
        clock, seen, before := started, gpuDataCache.Abs(), Progress(0, false, false, 0);
      }
    }
  }

  /** The memory plan of an initialisation, checked for overflow before each step. */
  method PlanMemory(cacheEntries: nat, frameBytes: nat, detectionZoneBytes: nat, distortionBytes: nat)
    returns (fits: bool, totalGpuBytes: nat)
    requires cacheEntries <= SIZE_MAX && frameBytes <= SIZE_MAX && detectionZoneBytes <= SIZE_MAX
             && distortionBytes <= SIZE_MAX
    ensures fits <==> cacheEntries * frameBytes + detectionZoneBytes + distortionBytes <= SIZE_MAX
    ensures fits ==> totalGpuBytes == cacheEntries * frameBytes + detectionZoneBytes + distortionBytes
  {
    totalGpuBytes := 0;
    if cacheEntries != 0 {
      QuotientBounds(cacheEntries, frameBytes, SIZE_MAX);
    }
    if cacheEntries != 0 && frameBytes > SIZE_MAX / cacheEntries {
      return false, totalGpuBytes;
    }
    var cacheGpuBytes := cacheEntries * frameBytes;
    if detectionZoneBytes > SIZE_MAX - cacheGpuBytes ||
       distortionBytes > SIZE_MAX - cacheGpuBytes - detectionZoneBytes {
      return false, totalGpuBytes;
    }
    return true, cacheGpuBytes + detectionZoneBytes + distortionBytes;
  }

  /** A factor exceeds the quotient of a limit exactly when the product exceeds the limit. */
  lemma QuotientBounds(n: nat, x: nat, limit: nat)
    requires n > 0
    ensures x > limit / n <==> n * x > limit
  {
    var q := limit / n;
    assert limit == q * n + limit % n && 0 <= limit % n < n;
    if x > q {
      assert n * x >= n * (q + 1);
    } else {
      assert n * x <= n * q;
    }
  }
}
