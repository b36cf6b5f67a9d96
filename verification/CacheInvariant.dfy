/**
 * The representation invariant that ties the entries, the table, the empty stack and both lists
 * together, and the proof that every locked section keeps it.
 */
module CacheInvariant {
  import opened Counting
  import opened GpuTypes
  import opened CacheSpec

  /** What the fields of one entry may look like, whatever list it is on. */
  predicate EntryOk(dataBytes: nat, e: Entry) {
    && e.buffer != NULL_POINTER
    && (e.state == Empty ==> e.active == 0 && e.metadata == DEFAULT_METADATA)
    && (e.state == Loading ==> e.active == 1)
    && (e.state != Empty ==> e.metadata.bytes == dataBytes)
    && (e.replicaValid <==> e.state == Valid)
    && (e.discard ==> e.state == Valid && e.active > 0)
  }

  /** Entry `i` is exactly where its state says: on the stack, in the table, on the idle list, on the fill list. */
  ghost predicate Placed(c: Cache, i: nat) {
    && i < |c.entries|
    && var e := c.entries[i];
       && EntryOk(c.dataBytes, e)
       && (i in c.empties <==> e.state == Empty)
       && (i in c.idle <==> e.state == Valid && e.active == 0)
       && (i in c.filled <==> e.state == Valid && c.policy == FIFO)
       && (e.state != Empty ==> e.metadata.key in c.table && c.table[e.metadata.key] == i)
  }

  ghost predicate InRange(s: seq<nat>, n: nat) {
    forall j :: 0 <= j < |s| ==> s[j] < n
  }

  /** What holds of the lists, the table and the buffers as wholes. */
  ghost predicate Frame(c: Cache) {
    && c.gpuId.Some? && c.gpuId.value >= 0 && c.dataBytes > 0 && |c.entries| < NO_ENTRY
    && Distinct(c.empties) && Distinct(c.idle) && Distinct(c.filled)
    && InRange(c.empties, |c.entries|) && InRange(c.idle, |c.entries|) && InRange(c.filled, |c.entries|)
    && (forall k :: k in c.table ==>
          c.table[k] < |c.entries| && c.entries[c.table[k]].state != Empty && c.entries[c.table[k]].metadata.key == k)
    && (forall i, j :: 0 <= i < j < |c.entries| ==> c.entries[i].buffer != c.entries[j].buffer)
  }

  ghost predicate RepInv(c: Cache) {
    && Frame(c)
    && (forall i {:trigger Placed(c, i)} :: 0 <= i < |c.entries| ==> Placed(c, i))
  }

  /** Everything is in place except entry `x`, which a section is moving between lists. */
  ghost predicate Detached(c: Cache, x: nat) {
    && Frame(c) && x < |c.entries|
    && c.entries[x].state != Empty && c.entries[x].buffer != NULL_POINTER
    && c.entries[x].metadata.key in c.table && c.table[c.entries[x].metadata.key] == x
    && x !in c.empties && x !in c.idle
    && (forall i {:trigger Placed(c, i)} :: 0 <= i < |c.entries| && i != x ==> Placed(c, i))
  }

  // ---------------------------------------------------------------- lists

  lemma WithoutMembers(s: seq<nat>, x: nat)
    requires Distinct(s)
    ensures Distinct(Without(s, x))
    ensures forall y :: y in Without(s, x) <==> y in s && y != x
    ensures forall n :: InRange(s, n) ==> InRange(Without(s, x), n)
  {
    WithoutIsApart(s, x);
    var rest := Without(s, x);
    forall n | InRange(s, n)
      ensures InRange(rest, n)
    {
      forall j | 0 <= j < |rest|
        ensures rest[j] < n
      {
        assert rest[j] in rest;
      }
    }
  }

  lemma {:induction false} WithoutIsApart(s: seq<nat>, x: nat)
    requires Distinct(s)
    ensures Distinct(Without(s, x))
    ensures forall y :: y in Without(s, x) <==> y in s && y != x
  {
    if s != [] {
      WithoutIsApart(s[1..], x);
      var rest := Without(s[1..], x);
      assert s == [s[0]] + s[1..];
      assert s[0] !in s[1..] && s[0] !in rest;
      assert forall i :: 0 <= i < |rest| ==> rest[i] in rest;
    }
  }

  lemma {:induction false} WithoutAbsent(s: seq<nat>, x: nat)
    requires x !in s
    ensures Without(s, x) == s
  {
    if s != [] {
      WithoutAbsent(s[1..], x);
    }
  }

  /** Removing twice, or removing what is not there, changes nothing more. */
  lemma WithoutAbsentOrGone(s: seq<nat>, x: nat)
    requires Distinct(s)
    ensures x !in Without(s, x)
    ensures x !in s ==> Without(s, x) == s
  {
    WithoutMembers(s, x);
    if x !in s {
      WithoutAbsent(s, x);
    }
  }

  lemma {:induction false} WithoutAt(s: seq<nat>, k: nat)
    requires Distinct(s) && k < |s|
    ensures Without(s, s[k]) == s[..k] + s[k + 1..]
  {
    if k > 0 {
      WithoutAt(s[1..], k - 1);
    }
  }

  /** The policy's scan finds an entry on the list without readers, and nothing before it qualifies. */
  lemma {:induction false} FirstUnreadIs(order: seq<nat>, entries: seq<Entry>)
    requires InRange(order, |entries|)
    ensures var first := FirstUnread(order, entries);
            if first.Some? then
              exists k :: 0 <= k < |order| && order[k] == first.value && entries[first.value].active == 0
                && forall j :: 0 <= j < k ==> entries[order[j]].active != 0
            else forall j :: 0 <= j < |order| ==> entries[order[j]].active != 0
  {
    if order != [] && entries[order[0]].active != 0 {
      FirstUnreadIs(order[1..], entries);
      if FirstUnread(order, entries).Some? {
        var first := FirstUnread(order, entries).value;
        var k :| 0 <= k < |order[1..]| && order[1..][k] == first
          && forall j :: 0 <= j < k ==> entries[order[1..][j]].active != 0;
        forall j | 0 <= j < k + 1
          ensures entries[order[j]].active != 0
        {
          assert j > 0 ==> order[j] == order[1..][j - 1];
        }
        assert order[k + 1] == first;
      }
    }
  }

  // ---------------------------------------------------------------- room in the table

  /** Every stored key names its own entry, so an entry that no key names leaves room for one more key. */
  lemma {:induction false} KeysFit(table: map<GpuDataKey, nat>, keys: set<GpuDataKey>, indices: set<nat>)
    requires keys <= table.Keys
    requires forall k :: k in keys ==> table[k] in indices
    requires forall k, l :: k in keys && l in keys && k != l ==> table[k] != table[l]
    ensures |keys| <= |indices|
  {
    if keys != {} {
      var k :| k in keys;
      KeysFit(table, keys - {k}, indices - {table[k]});
    }
  }

  lemma TableFits(c: Cache, free: nat)
    requires RepInv(c) && free < |c.entries| && c.entries[free].state == Empty
    ensures |c.table| < |c.entries|
  {
    KeysFit(c.table, c.table.Keys, UpTo(|c.entries|) - {free});
    assert |c.table| == |c.table.Keys|;
  }

  lemma TableFitsAfterErase(c: Cache, i: nat)
    requires RepInv(c) && i < |c.entries| && c.entries[i].state != Empty
    ensures |ErasedKey(c.table, c.entries[i].metadata.key, i)| < |c.entries|
  {
    assert Placed(c, i);
    var table := ErasedKey(c.table, c.entries[i].metadata.key, i);
    KeysFit(table, table.Keys, UpTo(|c.entries|) - {i});
    assert |table| == |table.Keys|;
  }

  // ---------------------------------------------------------------- lookups

  lemma RepInRange(c: Cache)
    requires RepInv(c)
    ensures IndicesInRange(c)
  {
  }

  lemma HitKeeps(c: Cache, i: nat)
    requires RepInv(c) && i < |c.entries| && c.entries[i].state == Valid
    ensures RepInv(ServeHit(c, i))
  {
    var c' := ServeHit(c, i);
    WithoutMembers(c.idle, i);
    assert Placed(c, i);
    forall j | 0 <= j < |c'.entries|
      ensures Placed(c', j)
    {
      assert Placed(c, j);
    }
  }

  lemma FillEmptyKeeps(c: Cache, md: FrameMetadata)
    requires RepInv(c) && c.empties != [] && md.key !in c.table && md.bytes == c.dataBytes
    ensures RepInv(FillEmpty(c, c.empties[|c.empties| - 1], md))
  {
    var top := |c.empties| - 1;
    var i := c.empties[top];
    var c' := FillEmpty(c, i, md);
    assert Placed(c, i);
    assert forall y :: y in c'.empties <==> y in c.empties && y != i by {
      assert c.empties == c'.empties + [i];
    }
    forall j | 0 <= j < |c'.entries|
      ensures Placed(c', j)
    {
      assert Placed(c, j);
    }
  }

  lemma FillIdleKeeps(c: Cache, i: nat, md: FrameMetadata)
    requires RepInv(c) && i in c.idle && md.key !in c.table && md.bytes == c.dataBytes
    ensures i < |c.entries| && RepInv(FillIdle(c, i, md))
  {
    assert i < |c.entries| && Placed(c, i);
    var c' := FillIdle(c, i, md);
    WithoutMembers(c.idle, i);
    WithoutMembers(c.filled, i);
    forall j | 0 <= j < |c'.entries|
      ensures Placed(c', j)
    {
      assert Placed(c, j);
    }
  }

  // ---------------------------------------------------------------- completions

  lemma ResetEntryKeeps(c: Cache, x: nat)
    requires Detached(c, x)
    ensures RepInv(ResetEntry(c, x))
  {
    var c' := ResetEntry(c, x);
    WithoutMembers(c.idle, x);
    WithoutMembers(c.filled, x);
    forall j | 0 <= j < |c'.entries|
      ensures Placed(c', j)
    {
      assert j != x ==> Placed(c, j);
    }
  }

  lemma AddIdleKeeps(c: Cache, x: nat)
    requires Detached(c, x)
    requires c.entries[x].state == Valid && c.entries[x].active == 0 && EntryOk(c.dataBytes, c.entries[x])
    requires x in c.filled <==> c.policy == FIFO
    ensures RepInv(AddIdle(c, x))
  {
    var c' := AddIdle(c, x);
    forall j | 0 <= j < |c'.entries|
      ensures Placed(c', j)
    {
      assert j != x ==> Placed(c, j);
    }
  }

  /** Rewriting a reader's or filler's entry, without moving it, leaves everything else in place. */
  lemma RewriteDetaches(c: Cache, x: nat, e: Entry)
    requires RepInv(c) && x < |c.entries| && c.entries[x].state != Empty && c.entries[x].active > 0
    requires e.state != Empty && e.metadata == c.entries[x].metadata && e.buffer == c.entries[x].buffer
    ensures Detached(c.(entries := c.entries[x := e]), x)
    ensures x in c.filled <==> c.entries[x].state == Valid && c.policy == FIFO
  {
    var c1 := c.(entries := c.entries[x := e]);
    assert Placed(c, x);
    forall j | 0 <= j < |c1.entries| && j != x
      ensures Placed(c1, j)
    {
      assert Placed(c, j);
    }
  }

  lemma ReadersRemain(c: Cache, x: nat, e: Entry)
    requires RepInv(c) && x < |c.entries| && c.entries[x].state == Valid && c.entries[x].active > 0
    requires e == c.entries[x].(active := e.active, discard := e.discard) && e.active > 0
    ensures RepInv(c.(entries := c.entries[x := e]))
  {
    var c1 := c.(entries := c.entries[x := e]);
    assert Placed(c, x);
    forall j | 0 <= j < |c1.entries|
      ensures Placed(c1, j)
    {
      assert Placed(c, j);
    }
  }

  lemma EndReaderKeeps(c: Cache, x: nat, discardNow: bool)
    requires RepInv(c) && x < |c.entries| && c.entries[x].state == Valid && c.entries[x].active > 0
    ensures RepInv(EndReader(c, x, discardNow))
  {
    assert EntryOk(c.dataBytes, c.entries[x]) by { assert Placed(c, x); }
    var e := c.entries[x].(active := c.entries[x].active - 1, discard := c.entries[x].discard || discardNow);
    var c1 := c.(entries := c.entries[x := e]);
    RewriteDetaches(c, x, e);
    hide RepInv, Detached, ResetEntry, AddIdle;
    if e.active != 0 {
      ReadersRemain(c, x, e);
    } else if e.discard {
      ResetEntryKeeps(c1, x);
      StatsDoNotMatter(ResetEntry(c1, x), CountDiscard(ResetEntry(c1, x)));
    } else {
      AddIdleKeeps(c1, x);
    }
  }

  lemma PublishKeeps(c: Cache, x: nat, retention: CacheRetention)
    requires RepInv(c) && x < |c.entries| && c.entries[x].state == Loading
    ensures RepInv(Publish(c, x, retention))
  {
    assert EntryOk(c.dataBytes, c.entries[x]) by { assert Placed(c, x); }
    var e := c.entries[x].(state := Valid, active := 0, replicaValid := true);
    var c1 := c.(entries := c.entries[x := e]);
    RewriteDetaches(c, x, e);
    hide RepInv, Detached, ResetEntry, AddIdle;
    if retention == Discard {
      ResetEntryKeeps(c1, x);
      StatsDoNotMatter(ResetEntry(c1, x), CountDiscard(ResetEntry(c1, x)));
    } else if c.policy == FIFO {
      AppendFilledDetaches(c1, x);
      AddIdleKeeps(c1.(filled := c1.filled + [x]), x);
    } else {
      AddIdleKeeps(c1, x);
    }
  }

  lemma AppendFilledDetaches(c: Cache, x: nat)
    requires Detached(c, x) && x !in c.filled
    ensures Detached(c.(filled := c.filled + [x]), x)
  {
    var c' := c.(filled := c.filled + [x]);
    forall j | 0 <= j < |c'.entries| && j != x
      ensures Placed(c', j)
    {
      assert Placed(c, j);
    }
  }

  lemma RollBackKeeps(c: Cache, x: nat)
    requires RepInv(c) && x < |c.entries| && c.entries[x].state == Loading
    ensures RepInv(ResetEntry(c, x))
  {
    assert Placed(c, x);
    ResetEntryKeeps(c, x);
  }

  /** Two caches with the same entries, lists, table and configuration satisfy the invariant together. */
  lemma StatsDoNotMatter(c: Cache, c': Cache)
    requires RepInv(c)
    requires c' == c.(stats := c'.stats, fallbacks := c'.fallbacks, waiting := c'.waiting, notices := c'.notices,
                      failed := c'.failed, initialized := c'.initialized, releasing := c'.releasing)
    ensures RepInv(c')
  {
    forall j | 0 <= j < |c'.entries|
      ensures Placed(c', j)
    {
      assert Placed(c, j);
    }
  }

  // ---------------------------------------------------------------- life cycle

  ghost predicate AllFresh(c: Cache) {
    forall i :: 0 <= i < |c.entries| ==>
      c.entries[i] == Entry(DEFAULT_METADATA, Empty, 0, false, c.entries[i].buffer, false)
  }

  lemma CountDownMembers(n: nat)
    ensures Distinct(CountDown(n)) && InRange(CountDown(n), n)
    ensures forall i :: 0 <= i < n ==> i in CountDown(n)
  {
    forall i | 0 <= i < n
      ensures i in CountDown(n)
    {
      assert CountDown(n)[n - 1 - i] == i;
    }
  }

  lemma AllEmptyIsPlaced(c: Cache)
    requires c.gpuId.Some? && c.gpuId.value >= 0 && c.dataBytes > 0 && |c.entries| < NO_ENTRY
    requires c.table == map[] && c.idle == [] && c.filled == [] && c.empties == CountDown(|c.entries|)
    requires AllFresh(c)
    requires forall i :: 0 <= i < |c.entries| ==> c.entries[i].buffer != NULL_POINTER
    requires forall i, j :: 0 <= i < j < |c.entries| ==> c.entries[i].buffer != c.entries[j].buffer
    ensures RepInv(c)
  {
    CountDownMembers(|c.entries|);
    forall j | 0 <= j < |c.entries|
      ensures Placed(c, j)
    {
    }
  }

  lemma ResetKeeps(c: Cache)
    requires RepInv(c)
    ensures RepInv(ResetEntries(c))
  {
    var c' := ResetEntries(c);
    assert forall j :: 0 <= j < |c.entries| ==> c'.entries[j].buffer == c.entries[j].buffer;
    forall j | 0 <= j < |c'.entries|
      ensures c'.entries[j].buffer != NULL_POINTER
    {
      assert Placed(c, j);
    }
    AllEmptyIsPlaced(c');
  }

  // ---------------------------------------------------------------- what a lookup finds

  lemma EmptyIsSound(c: Cache, i: nat)
    requires RepInv(c) && i in c.empties
    ensures i < |c.entries| && SoundEmpty(c, i)
  {
    assert Placed(c, i);
    TableFits(c, i);
  }

  lemma IdleIsSound(c: Cache, i: nat)
    requires RepInv(c) && i in c.idle
    ensures i < |c.entries| && SoundIdle(c, i)
  {
    assert Placed(c, i);
    WithoutMembers(c.idle, i);
    TableFitsAfterErase(c, i);
  }

  /**
   * The defensive checks of a lookup never fail: no resident entry is unusable, and no candidate is unsound.
   * Every other finding means what its name says; in particular Full means that no entry is empty or idle.
   */
  lemma FindingIsTrue(c: Cache, md: FrameMetadata)
    requires RepInv(c)
    ensures IndicesInRange(c)
    ensures var f := Find(c, md);
            && !f.Corrupt? && !f.MissingReplica?
            && (f.Refused? <==> c.failed || (md.key in c.table && c.entries[c.table[md.key]].metadata != md))
            && (f.Readable? ==> c.entries[f.index].state == Valid && c.entries[f.index].metadata == md
                                && c.entries[f.index].replicaValid && md.key in c.table)
            && (f.StillLoading? ==> md.key in c.table && c.entries[c.table[md.key]].state == Loading
                                    && c.entries[c.table[md.key]].metadata == md)
            && (f.FillableEmpty? ==> md.key !in c.table && c.empties != [] && f.index == c.empties[|c.empties| - 1]
                                     && c.entries[f.index].state == Empty && c.entries[f.index].active == 0)
            && (f.FillableIdle? ==> md.key !in c.table && c.empties == [] && f.index in c.idle
                                    && c.entries[f.index].state == Valid && c.entries[f.index].active == 0)
            && (f.Full? ==> md.key !in c.table && c.empties == [] && c.idle == [] && c.entries != [])
            && (f.NoCapacity? ==> c.entries == [])
  {
    if md.key in c.table {
      assert Placed(c, c.table[md.key]);
    } else if !c.failed && c.empties == [] && c.idle != [] {
      assert Placed(c, c.idle[0]);
      if c.policy == FIFO {
        VictimIsIdle(c);
      }
      IdleIsSound(c, ChooseCandidate(c).victim);
    } else if !c.failed && c.empties != [] {
      EmptyIsSound(c, c.empties[|c.empties| - 1]);
    }
  }

  lemma VictimIsIdle(c: Cache)
    requires RepInv(c) && c.policy == FIFO && c.idle != []
    ensures var first := FirstUnread(c.filled, c.entries); first.Some? && first.value in c.idle
  {
    FirstUnreadIs(c.filled, c.entries);
    assert Placed(c, c.idle[0]);
    assert c.idle[0] in c.idle;
    var at :| 0 <= at < |c.filled| && c.filled[at] == c.idle[0];
    var first := FirstUnread(c.filled, c.entries);
    assert Placed(c, first.value);
  }

  /** What a finding makes of the entries, the table and the lists; obstacles leave them alone. */
  ghost function Served(c: Cache, md: FrameMetadata): Cache
    requires IndicesInRange(c)
  {
    match Find(c, md)
    case Readable(i) => ServeHit(c, i)
    case FillableEmpty(i) => FillEmpty(c, i, md)
    case FillableIdle(i) => FillIdle(c, i, md)
    case Corrupt => Spoiled(c, md.key)
    case _ => c
  }

  lemma ObstructEffect(c: Cache, f: Finding, md: FrameMetadata, req: GpuCacheRequest, p: Progress, now: int)
    ensures var c' := Obstruct(c, f, md, req, p, now).cache;
            c' == c.(stats := c'.stats, fallbacks := c'.fallbacks, waiting := c'.waiting)
  {
    hide MayWait, TimeoutReason, CacheStatistics.CountFirstBlock, CacheStatistics.CountFallback,
         CacheStatistics.CountWaiter;
    if p.blocked {
      if MayWait(c, p.deadline, now) {
      } else {
      }
    } else if MayWait(c, p.deadline, now) {
    } else {
    }
  }

  lemma RejectEffect(c: Cache)
    ensures Reject(c) == c.(stats := Reject(c).stats)
  {
  }

  lemma FallbackEffect(c: Cache, reason: CacheFallbackReason)
    ensures ServeFallback(c, reason) == c.(stats := ServeFallback(c, reason).stats,
            fallbacks := ServeFallback(c, reason).fallbacks)
  {
  }

  lemma SectionEffect(c: Cache, md: FrameMetadata, req: GpuCacheRequest, p: Progress, now: int)
    requires IndicesInRange(c)
    ensures var c' := Section(c, md, req, p, now).cache;
            c' == Served(c, md).(stats := c'.stats, fallbacks := c'.fallbacks, waiting := c'.waiting)
  {
    hide Find, ServeHit, FillEmpty, FillIdle, Spoiled, Obstruct, IndicesInRange, Reject, ServeFallback;
    ObstructEffect(c, StillLoading, md, req, p, now);
    ObstructEffect(c, Full, md, req, p, now);
    RejectEffect(c);
    RejectEffect(Spoiled(c, md.key));
    FallbackEffect(c, CapacityZero);
    FallbackEffect(c, ReplicaUnavailable);
  }
}
