/**
 * How leases and managers end, said in the fields of entries, in leases and in single counters: the end of a
 * reader, of a fill and of a fallback, resets, releases and initialisations.
 */
module CacheEndLaws {
  import opened Counting
  import opened GpuTypes
  import opened CacheSpec
  import opened CacheInvariant
  import opened CacheLeases
  import opened CacheSystem
  import opened CacheRuns
  import opened CacheLaws
  import CT = CacheTheorems

  /** The entry holds nothing any more but its buffer. */
  predicate Blank(e: Entry, buffer: DevicePointer) {
    && e.metadata == DEFAULT_METADATA && e.state == Empty && e.active == 0 && !e.discard && !e.replicaValid
    && e.buffer == buffer
  }

  /** Only `key` left the table. */
  ghost predicate Forgets(table: map<GpuDataKey, nat>, table': map<GpuDataKey, nat>, key: GpuDataKey) {
    && key !in table'
    && (forall k :: k != key ==> (k in table' <==> k in table))
    && (forall k :: k in table' ==> k in table && table'[k] == table[k])
  }

  /** Entry `i` alone has been emptied: its key is gone, it is on top of the stack, and sleepers have been notified. */
  ghost predicate Dropped(c: Cache, c': Cache, i: nat)
    requires i < |c.entries|
  {
    && |c'.entries| == |c.entries| && Blank(c'.entries[i], c.entries[i].buffer)
    && c'.entries == c.entries[i := c'.entries[i]]
    && Forgets(c.table, c'.table, c.entries[i].metadata.key)
    && c'.empties == c.empties + [i] && c'.idle == c.idle && c'.filled == Without(c.filled, i)
    && c'.notices == c.notices + 1
    && c' == c.(entries := c'.entries, table := c'.table, empties := c'.empties, filled := c'.filled,
                notices := c'.notices, stats := c'.stats)
  }

  // ---------------------------------------------------------------- readers

  /**
   * One reader of entry `i` has left, with `mark` if it asked for a discard: while others remain nothing else
   * happens; the last one of a marked entry drops it and counts one discard, and the last one of an unmarked
   * entry leaves it resident, readable and at the end of the idle list.
   */
  ghost predicate ReaderLeft(c: Cache, c': Cache, i: nat, mark: bool)
    requires i < |c.entries|
  {
    var e := c.entries[i];
    if e.active > 1 then
      c' == c.(entries := c.entries[i := Entry(e.metadata, Valid, e.active - 1, e.discard || mark, e.buffer, true)])
    else if e.discard || mark then
      Dropped(c, c', i) && c'.stats == c.stats.(discard := c.stats.discard + 1)
    else
      c' == c.(entries := c.entries[i := Entry(e.metadata, Valid, 0, false, e.buffer, true)], idle := c.idle + [i],
               notices := c.notices + 1)
  }

  lemma ReaderEndLaw(c: Cache, accesses: Accesses, id: nat, succeeded: bool, retention: CacheRetention)
    requires c.initialized && !c.releasing && RepInv(c) && LeaseInv(c, accesses)
    requires id in accesses && accesses[id].live && accesses[id].status == CacheHit
    ensures var a := accesses[id];
            && a.entryIndex < |c.entries|
            && Complete(c, a, succeeded, retention).ok == succeeded
            && ReaderLeft(c, Complete(c, a, succeeded, retention).cache, a.entryIndex, retention == Discard)
            && ReaderLeft(c, Abort(c, a), a.entryIndex, false)
  {
    hide RepInv, LeaseInv, Complete, Abort, EndReader, ReaderLeft;
    CompletionIsValid(c, accesses, id, succeeded, retention);
    AbortIsValid(c, accesses, id);
    EndReaderLaw(c, accesses[id].entryIndex, retention == Discard);
    EndReaderLaw(c, accesses[id].entryIndex, false);
  }

  lemma EndReaderLaw(c: Cache, i: nat, mark: bool)
    requires RepInv(c) && i < |c.entries| && c.entries[i].state == Valid && c.entries[i].active > 0
    ensures ReaderLeft(c, EndReader(c, i, mark), i, mark)
  {
    assert Placed(c, i);
    hide RepInv, ResetEntry, Dropped;
    var e := c.entries[i];
    DropLaw(c, i, e.(active := e.active - 1, discard := e.discard || mark));
    if e.active > 1 {
    } else if e.discard || mark {
      var c' := ResetEntry(c.(entries := c.entries[i := e.(active := e.active - 1, discard := e.discard || mark)]), i);
      DroppedUncounted(c, c', i, c'.stats.CountDiscard());
    } else {
    }
  }

  /** Emptying entry `i` after its reader count, mark or state has been rewritten drops it. */
  lemma DropLaw(c: Cache, i: nat, e: Entry)
    requires RepInv(c) && i < |c.entries| && c.entries[i].state != Empty && i !in c.idle
    requires e.metadata == c.entries[i].metadata && e.buffer == c.entries[i].buffer
    ensures var c1 := c.(entries := c.entries[i := e]);
            Dropped(c, ResetEntry(c1, i), i) && ResetEntry(c1, i).stats == c.stats
  {
    ResidentKeyIsUnique(c, i);
    WithoutAbsent(c.idle, i);
    hide RepInv, Without;
    assert c.entries[i := e][i := e.Cleared()] == c.entries[i := e.Cleared()];
  }

  /** Only entry `i` answers to its key. */
  lemma ResidentKeyIsUnique(c: Cache, i: nat)
    requires RepInv(c) && i < |c.entries| && c.entries[i].state != Empty
    ensures var key := c.entries[i].metadata.key;
            key in c.table && c.table[key] == i && forall k :: k in c.table && c.table[k] == i ==> k == key
  {
    assert Placed(c, i);
  }

  /** In particular an unmarked entry survives a reader that does not ask for a discard, however the lease ends. */
  lemma UnmarkedEntryStays(c: Cache, accesses: Accesses, id: nat, succeeded: bool)
    requires c.initialized && !c.releasing && RepInv(c) && LeaseInv(c, accesses)
    requires id in accesses && accesses[id].live && accesses[id].status == CacheHit
    requires accesses[id].entryIndex < |c.entries| && !c.entries[accesses[id].entryIndex].discard
    ensures var i := accesses[id].entryIndex;
            forall c' :: c' == Complete(c, accesses[id], succeeded, Keep).cache || c' == Abort(c, accesses[id]) ==>
              && |c'.entries| == |c.entries| && c'.entries[i].state == Valid && !c'.entries[i].discard
              && c'.entries[i].metadata == c.entries[i].metadata && c'.table == c.table
              && c'.stats == c.stats && c'.empties == c.empties && c'.filled == c.filled
              && c'.idle == (if c.entries[i].active == 1 then c.idle + [i] else c.idle)
  {
    ReaderEndLaw(c, accesses, id, succeeded, Keep);
    HolderIsCounted(c, accesses, id);
    hide RepInv, LeaseInv, Complete, Abort;
  }

  lemma HolderIsCounted(c: Cache, accesses: Accesses, id: nat)
    requires RepInv(c) && LeaseInv(c, accesses) && id in accesses && accesses[id].live
             && accesses[id].status == CacheHit
    ensures accesses[id].entryIndex < |c.entries| && c.entries[accesses[id].entryIndex].active > 0
  {
    assert LeaseOk(c, accesses[id]);
    HoldersOf(c, accesses, accesses[id].entryIndex, id);
  }

  // ---------------------------------------------------------------- fills and fallbacks

  /**
   * The filler of entry `i` has left: a successful fill that is kept becomes readable under its key, idle and the
   * newest in fill order; every other end empties the entry. One fill end is counted, as what it was.
   */
  ghost predicate FillerLeft(c: Cache, c': Cache, i: nat, succeeded: bool, keep: bool)
    requires i < |c.entries|
  {
    var e := c.entries[i];
    if succeeded && keep then
      c' == c.(entries := c.entries[i := Entry(e.metadata, Valid, 0, false, e.buffer, true)],
               idle := c.idle + [i], filled := if c.policy == FIFO then c.filled + [i] else c.filled,
               notices := c.notices + 1, stats := c.stats.(fillSucceeded := c.stats.fillSucceeded + 1))
    else
      && Dropped(c, c', i)
      && c'.stats == if succeeded then c.stats.(fillSucceeded := c.stats.fillSucceeded + 1,
         discard := c.stats.discard + 1)
                     else c.stats.(fillFailed := c.stats.fillFailed + 1)
  }

  lemma FillEndLaw(c: Cache, accesses: Accesses, id: nat, succeeded: bool, retention: CacheRetention)
    requires c.initialized && !c.releasing && RepInv(c) && LeaseInv(c, accesses)
    requires id in accesses && accesses[id].live && accesses[id].status == CacheFill
    ensures var a := accesses[id];
            && a.entryIndex < |c.entries|
            && Complete(c, a, succeeded, retention).ok == succeeded
            && FillerLeft(c, Complete(c, a, succeeded, retention).cache, a.entryIndex, succeeded, retention == Keep)
            && FillerLeft(c, Abort(c, a), a.entryIndex, false, false)
  {
    hide RepInv, LeaseInv, Complete, Abort, Publish, ResetEntry, CountFill, FillerLeft;
    CompletionIsValid(c, accesses, id, succeeded, retention);
    AbortIsValid(c, accesses, id);
    FillerEndLaw(c, accesses[id].entryIndex, succeeded, retention);
    FillerEndLaw(c, accesses[id].entryIndex, false, Keep);
  }

  lemma FillerEndLaw(c: Cache, i: nat, succeeded: bool, retention: CacheRetention)
    requires RepInv(c) && i < |c.entries| && c.entries[i].state == Loading
    ensures FillerLeft(c, CountFill(if succeeded then Publish(c, i, retention) else ResetEntry(c, i), succeeded), i,
                       succeeded, retention == Keep)
    ensures FillerLeft(c, CountFill(ResetEntry(c, i), false), i, false, false)
  {
    assert Placed(c, i);
    hide RepInv, Publish, ResetEntry, Dropped, FillerLeft, CountFill;
    var e := c.entries[i];
    FailedFillLaw(c, i, retention == Keep);
    FailedFillLaw(c, i, false);
    if succeeded && retention == Keep {
      KeptFillLaw(c, i);
    } else if succeeded {
      DropLaw(c, i, e.(state := Valid, active := 0, replicaValid := true));
      PublishedThenDropped(c, i);
    }
  }

  lemma KeptFillLaw(c: Cache, i: nat)
    requires i < |c.entries| && !c.entries[i].discard
    ensures FillerLeft(c, CountFill(Publish(c, i, Keep), true), i, true, true)
  {
  }

  lemma FailedFillLaw(c: Cache, i: nat, keep: bool)
    requires RepInv(c) && i < |c.entries| && c.entries[i].state == Loading
    ensures FillerLeft(c, CountFill(ResetEntry(c, i), false), i, false, keep)
  {
    assert Placed(c, i);
    hide RepInv, ResetEntry, Dropped;
    var e := c.entries[i];
    DropLaw(c, i, e);
    assert c.entries[i := e] == c.entries && c.(entries := c.entries) == c;
    DroppedUncounted(c, ResetEntry(c, i), i, ResetEntry(c, i).stats.CountFillEnd(false));
  }

  lemma DroppedUncounted(c: Cache, c': Cache, i: nat, stats: CacheStatistics)
    requires i < |c.entries| && Dropped(c, c', i)
    ensures Dropped(c, c'.(stats := stats), i)
  {
  }

  lemma PublishedThenDropped(c: Cache, i: nat)
    requires i < |c.entries|
    requires var c1 := c.(entries := c.entries[i := c.entries[i].(state := Valid, active := 0, replicaValid := true)]);
             Dropped(c, ResetEntry(c1, i), i) && ResetEntry(c1, i).stats == c.stats
    ensures FillerLeft(c, CountFill(Publish(c, i, Discard), true), i, true, false)
  {
    var c1 := c.(entries := c.entries[i := c.entries[i].(state := Valid, active := 0, replicaValid := true)]);
    DroppedUncounted(c, ResetEntry(c1, i), i, ResetEntry(c1, i).stats.CountDiscard().CountFillEnd(true));
    hide ResetEntry, Dropped;
  }

  lemma FallbackEndLaw(c: Cache, accesses: Accesses, id: nat, succeeded: bool, retention: CacheRetention)
    requires c.initialized && !c.releasing && RepInv(c) && LeaseInv(c, accesses)
    requires id in accesses && accesses[id].live && accesses[id].status == TaskFallback
    ensures c.fallbacks > 0
    ensures Complete(c, accesses[id], succeeded, retention) == Reply(c.(fallbacks := c.fallbacks - 1), succeeded)
    ensures Abort(c, accesses[id]) == c.(fallbacks := c.fallbacks - 1)
  {
    hide RepInv, LeaseInv, Complete, Abort;
    CompletionIsValid(c, accesses, id, succeeded, retention);
    AbortIsValid(c, accesses, id);
  }

  /** The access does not name an entry under its key, with its buffer and of the manager's size. */
  ghost predicate Foreign(c: Cache, a: Access) {
    || a.entryIndex >= |c.entries| || c.entries[a.entryIndex].metadata.key != a.key
    || c.entries[a.entryIndex].buffer != a.data || c.dataBytes != a.bytes
  }

  /** The end of an access that does not belong here touches nothing; a fill still counts as failed. */
  lemma RefusedEndLaw(c: Cache, a: Access, succeeded: bool, retention: CacheRetention)
    requires a.data != NULL_POINTER && a.status != TaskFallback
    ensures var c' := c.(stats := c.stats.(fillFailed := c.stats.fillFailed + One(a.status == CacheFill)));
            && (!c.initialized || c.releasing || Foreign(c, a) ==>
               Complete(c, a, succeeded, retention) == Reply(c', false))
            && (Foreign(c, a) ==> Abort(c, a) == c')
  {
    hide EndReader, Publish, ResetEntry;
    ForeignDoesNotMatch(c, a);
    hide Matches, Foreign;
  }

  lemma ForeignDoesNotMatch(c: Cache, a: Access)
    requires a.data != NULL_POINTER
    ensures Foreign(c, a) ==> !Matches(c, a)
  {
  }

  /**
   * A fallback ends only while one is counted, and only by an access that looks like one; otherwise nothing happens.
   */
  lemma RefusedFallbackLaw(c: Cache, a: Access, succeeded: bool, retention: CacheRetention)
    requires a.status == TaskFallback
    ensures var fits := a.entryIndex == NO_ENTRY && a.data != NULL_POINTER && a.bytes == c.dataBytes;
            !(c.initialized && !c.releasing && c.fallbacks > 0 && fits) ==>
              Complete(c, a, succeeded, retention) == Reply(c, false)
    ensures c.fallbacks == 0 ==> Abort(c, a) == c
  {
  }

  // ---------------------------------------------------------------- resets and releases

  ghost predicate NobodyThere(s: System) {
    (forall id :: id in s.accesses ==> !s.accesses[id].live) && s.sleepers == map[]
  }

  /** Nothing but a live lease or a sleeping request keeps a manager from being reset or released. */
  lemma CanResetMeansNobody(s: System)
    requires SysInv(s)
    ensures CanReset(s.cache) <==> NobodyThere(s)
  {
    if NobodyThere(s) {
      assert s.sleepers.Keys == {};
      assert FallbackHolders(s.accesses) == {};
      forall i | 0 <= i < |s.cache.entries|
        ensures s.cache.entries[i].active == 0 && s.cache.entries[i].state != Loading
      {
        assert Holders(s.accesses, i) == {};
        assert Counted(s.cache, s.accesses, i);
        if s.cache.initialized {
          assert Placed(s.cache, i);
        }
      }
    } else if s.sleepers != map[] {
      SleepersPinTheManager(s);
    } else {
      var id :| id in s.accesses && s.accesses[id].live;
      assert LeaseOk(s.cache, s.accesses[id]);
      LiveLeaseMeansRunning(s, id);
      if s.accesses[id].status == TaskFallback {
        assert id in FallbackHolders(s.accesses);
      } else {
        HoldersOf(s.cache, s.accesses, s.accesses[id].entryIndex, id);
      }
    }
  }

  /** Every entry is blank over its old buffer, entry 0 is the first to be handed out, and the counters start again. */
  ghost predicate StartsOver(c: Cache, c': Cache) {
    && |c'.entries| == |c.entries| == |c'.empties|
    && (forall i :: 0 <= i < |c.entries| ==> Blank(c'.entries[i], c.entries[i].buffer))
    && (forall i :: 0 <= i < |c.entries| ==> c'.empties[i] == |c.entries| - 1 - i)
    && c' == c.(entries := c'.entries, empties := c'.empties, table := map[], idle := [], filled := [],
                stats := NO_STATISTICS)
  }

  /** A reset of a running manager is rejected for a failure, a lease or a sleeper, and for nothing else. */
  lemma ResetLaw(s: System)
    requires SysInv(s)
    ensures var Reply(c', ok) := ResetCache(s.cache);
            && (ok <==> s.cache.initialized && !s.cache.failed && NobodyThere(s))
            && if ok then StartsOver(s.cache, c') else c' == s.cache
  {
    hide CanReset;
    CanResetMeansNobody(s);
  }

  /** A release starts exactly when there is something to release, no other release runs and nobody is there. */
  lemma ReleaseLaw(s: System)
    requires SysInv(s)
    ensures var nothing := !s.cache.initialized && s.cache.entries == [] && s.cache.gpuId == None;
            BeginRelease(s.cache) ==
            if nothing then AlreadyReleased
            else if !s.cache.releasing && NobodyThere(s)
            then ReleaseStarted(s.cache.(initialized := false, releasing := true))
            else ReleaseRejected
  {
    hide CanReset;
    CanResetMeansNobody(s);
  }

  /** The end of a release frees what the driver frees; the manager is as new exactly when no buffer is left. */
  lemma EndReleaseLaw(c: Cache, freed: seq<bool>)
    requires |freed| == |c.entries|
    ensures var c' := EndRelease(c, freed);
            var gone := forall i :: 0 <= i < |freed| ==> freed[i] || c.entries[i].buffer == NULL_POINTER;
            if gone then
              && c'.entries == [] && c'.table == map[] && c'.empties == [] && c'.idle == [] && c'.filled == []
              && c'.gpuId == None && c'.dataBytes == 0 && c'.fallbacks == 0
              && !c'.initialized && !c'.releasing && !c'.failed
              && c'.policy == c.policy && c'.waitTimeout == c.waitTimeout && c'.stats == c.stats
              && c'.waiting == c.waiting && c'.notices == c.notices
            else
              && |c'.entries| == |c.entries|
              && (forall i :: 0 <= i < |freed| ==>
                    if freed[i] || c.entries[i].buffer == NULL_POINTER then Blank(c'.entries[i], NULL_POINTER)
                    else c'.entries[i] == c.entries[i])
              && c' == c.(entries := c'.entries, releasing := false)
  {
    var entries := FreedEntries(c.entries, freed);
    assert forall i :: 0 <= i < |freed| ==> entries[i] == FreeEntry(c.entries[i], freed[i]);
    if i :| 0 <= i < |freed| && !freed[i] && c.entries[i].buffer != NULL_POINTER {
      assert entries[i].buffer != NULL_POINTER;
    }
  }

  /** An initialisation is accepted exactly by a manager that holds nothing, for one GPU, a size and a timeout. */
  lemma InitializeLaw(s: System, gpuIds: seq<int>, bytes: nat, buffers: seq<DevicePointer>, waitTimeout: int,
                      policy: CacheEvictionPolicy)
    requires SysInv(s)
    ensures var c := s.cache;
            CanInitialize(c, gpuIds, bytes, waitTimeout) <==>
            && !c.initialized && !c.releasing && c.gpuId == None
            && |gpuIds| == 1 && gpuIds[0] >= 0 && bytes > 0 && waitTimeout >= 0
    ensures |gpuIds| == 1 && waitTimeout >= 0 ==>
              var c' := Initialized(s.cache, gpuIds[0], bytes, buffers, waitTimeout, policy);
              && |c'.entries| == |buffers| == |c'.empties|
              && (forall i :: 0 <= i < |buffers| ==> Blank(c'.entries[i], buffers[i]))
              && (forall i :: 0 <= i < |buffers| ==> c'.empties[i] == |buffers| - 1 - i)
              && c'.initialized && !c'.failed && c'.gpuId == Some(gpuIds[0]) && c'.dataBytes == bytes
              && c'.waitTimeout == waitTimeout && c'.policy == policy && c'.fallbacks == 0
              && c'.table == map[] && c'.idle == [] && c'.filled == [] && c'.stats == NO_STATISTICS
              && c'.releasing == s.cache.releasing && c'.waiting == s.cache.waiting
  {
  }

  lemma SyncFailureLaw(c: Cache)
    ensures NoteSyncFailure(c) ==
            c.(failed := true, notices := c.notices + 1, stats := c.stats.(syncFailures := c.stats.syncFailures + 1))
  {
  }
}
