/**
 * Doubly linked lists threaded through an array of records by index. A ring of links realises a
 * duplicate-free sequence; appending at the tail and unlinking anywhere are the sequence operations.
 */
module IntrusiveList {
  import opened Counting
  import opened GpuTypes
  import opened CacheSpec
  import opened CacheInvariant

  datatype Links = Links(prev: nat, next: nat, member: bool)

  const UNLINKED := Links(NO_ENTRY, NO_ENTRY, false)

  /** The links of the element at position `a` of the list. */
  ghost predicate LinkedAt(ring: seq<Links>, s: seq<nat>, a: nat)
    requires a < |s|
  {
    && s[a] < |ring|
    && ring[s[a]] == Links(if a == 0 then NO_ENTRY else s[a - 1], if a == |s| - 1 then NO_ENTRY else s[a + 1], true)
  }

  ghost predicate Realises(ring: seq<Links>, head: nat, tail: nat, s: seq<nat>) {
    && |ring| < NO_ENTRY && Distinct(s)
    && InRange(s, |ring|)
    && (forall a {:trigger LinkedAt(ring, s, a)} :: 0 <= a < |s| ==> LinkedAt(ring, s, a))
    && (forall x :: 0 <= x < |ring| ==> if x in s then ring[x].member else ring[x] == UNLINKED)
    && head == (if s == [] then NO_ENTRY else s[0])
    && tail == (if s == [] then NO_ENTRY else s[|s| - 1])
  }

  /** The stores of an append at the tail. */
  ghost function Appended(ring: seq<Links>, tail: nat, x: nat): seq<Links>
    requires x < |ring|
  {
    var r := ring[x := Links(tail, NO_ENTRY, true)];
    if tail < |ring| then r[tail := r[tail].(next := x)] else r
  }

  lemma AppendRealises(ring: seq<Links>, head: nat, tail: nat, s: seq<nat>, x: nat)
    requires Realises(ring, head, tail, s) && x < |ring| && x !in s
    ensures Realises(Appended(ring, tail, x), if tail == NO_ENTRY then x else head, x, s + [x])
  {
    var r, s' := Appended(ring, tail, x), s + [x];
    if s != [] {
      assert LinkedAt(ring, s, |s| - 1);
    }
    forall a | 0 <= a < |s'|
      ensures LinkedAt(r, s', a)
    {
      assert a < |s| ==> LinkedAt(ring, s, a);
    }
  }

  /** The stores of unlinking one element, wherever it is. */
  ghost function Unlinked(ring: seq<Links>, x: nat): seq<Links>
    requires x < |ring|
  {
    var l := ring[x];
    var r1 := if l.prev < |ring| then ring[l.prev := ring[l.prev].(next := l.next)] else ring;
    var r2 := if l.next < |ring| then r1[l.next := r1[l.next].(prev := l.prev)] else r1;
    r2[x := UNLINKED]
  }

  /** Unlinking changes the two neighbours and nothing else. */
  lemma UnlinkedAt(ring: seq<Links>, x: nat, y: nat)
    requires x < |ring| && y < |ring| && x != y
    ensures |Unlinked(ring, x)| == |ring| && Unlinked(ring, x)[x] == UNLINKED
    ensures Unlinked(ring, x)[y] == Links(if y == ring[x].next then ring[x].prev else ring[y].prev,
                                          if y == ring[x].prev then ring[x].next else ring[y].next, ring[y].member)
  {
  }

  lemma UnlinkedNeighbour(ring: seq<Links>, s: seq<nat>, k: nat, a: nat)
    requires Distinct(s) && |ring| < NO_ENTRY && k < |s| && a < |s| - 1
    requires forall a {:trigger LinkedAt(ring, s, a)} :: 0 <= a < |s| ==> LinkedAt(ring, s, a)
    ensures s[k] < |ring|
    ensures LinkedAt(Unlinked(ring, s[k]), s[..k] + s[k + 1..], a)
  {
    var s' := s[..k] + s[k + 1..];
    var b := if a < k then a else a + 1;
    assert LinkedAt(ring, s, k) && LinkedAt(ring, s, b);
    UnlinkedAt(ring, s[k], s[b]);
    hide Unlinked;
    assert s'[a] == s[b];
    if b > 0 {
      assert LinkedAt(ring, s, b - 1);
    }
    if b < |s| - 1 {
      assert LinkedAt(ring, s, b + 1);
    }
    if a > 0 {
      assert s'[a - 1] == s[if a - 1 < k then a - 1 else a];
    }
    if a < |s'| - 1 {
      assert s'[a + 1] == s[if a + 1 < k then a + 1 else a + 2];
    }
  }

  lemma UnlinkRealises(ring: seq<Links>, head: nat, tail: nat, s: seq<nat>, x: nat)
    requires Realises(ring, head, tail, s) && x in s
    ensures x < |ring|
    ensures Realises(Unlinked(ring, x),
                     if ring[x].prev == NO_ENTRY then ring[x].next else head,
                     if ring[x].next == NO_ENTRY then ring[x].prev else tail, Without(s, x))
  {
    var k :| 0 <= k < |s| && s[k] == x;
    WithoutAt(s, k);
    UnlinkRealisesAt(ring, head, tail, s, k);
    hide Realises, Unlinked, Without;
  }

  lemma UnlinkRealisesAt(ring: seq<Links>, head: nat, tail: nat, s: seq<nat>, k: nat)
    requires Realises(ring, head, tail, s) && k < |s|
    ensures s[k] < |ring|
    ensures Realises(Unlinked(ring, s[k]),
                     if ring[s[k]].prev == NO_ENTRY then ring[s[k]].next else head,
                     if ring[s[k]].next == NO_ENTRY then ring[s[k]].prev else tail, s[..k] + s[k + 1..])
  {
    var x, s' := s[k], s[..k] + s[k + 1..];
    assert LinkedAt(ring, s, k);
    UnlinkedChain(ring, s, k);
    UnlinkedOutsiders(ring, s, k);
    UnlinkedEnds(ring, s, k);
    hide LinkedAt, Unlinked;
    assert forall y :: y in s' <==> y in s && y != x by {
      WithoutAt(s, k);
      WithoutMembers(s, x);
    }
  }

  lemma UnlinkedChain(ring: seq<Links>, s: seq<nat>, k: nat)
    requires Distinct(s) && |ring| < NO_ENTRY && k < |s|
    requires forall a {:trigger LinkedAt(ring, s, a)} :: 0 <= a < |s| ==> LinkedAt(ring, s, a)
    ensures s[k] < |ring|
    ensures var s' := s[..k] + s[k + 1..];
            forall a {:trigger LinkedAt(Unlinked(ring, s[k]), s', a)} :: 0 <= a < |s'| ==>
              LinkedAt(Unlinked(ring, s[k]), s', a)
  {
    assert LinkedAt(ring, s, k);
    var r, s' := Unlinked(ring, s[k]), s[..k] + s[k + 1..];
    forall a | 0 <= a < |s'|
      ensures LinkedAt(r, s', a)
    {
      UnlinkedNeighbour(ring, s, k, a);
    }
  }

  lemma UnlinkedOutsiders(ring: seq<Links>, s: seq<nat>, k: nat)
    requires |ring| < NO_ENTRY && k < |s| && LinkedAt(ring, s, k)
    requires forall y :: 0 <= y < |ring| ==> if y in s then ring[y].member else ring[y] == UNLINKED
    ensures |Unlinked(ring, s[k])| == |ring|
    ensures forall y :: 0 <= y < |ring| ==>
              if y in s && y != s[k] then Unlinked(ring, s[k])[y].member else Unlinked(ring, s[k])[y] == UNLINKED
  {
    forall y | 0 <= y < |ring|
      ensures if y in s && y != s[k] then Unlinked(ring, s[k])[y].member else Unlinked(ring, s[k])[y] == UNLINKED
    {
      if y != s[k] {
        UnlinkedAt(ring, s[k], y);
        if y !in s {
          OutsidersAreNoNeighbours(ring, s, k, y);
        }
      }
    }
  }

  lemma OutsidersAreNoNeighbours(ring: seq<Links>, s: seq<nat>, k: nat, y: nat)
    requires k < |s| && LinkedAt(ring, s, k) && y !in s && y < |ring| < NO_ENTRY
    ensures y != ring[s[k]].prev && y != ring[s[k]].next
  {
  }

  lemma UnlinkedEnds(ring: seq<Links>, s: seq<nat>, k: nat)
    requires k < |s| && LinkedAt(ring, s, k) && |ring| < NO_ENTRY
    requires forall a :: 0 <= a < |s| ==> s[a] < |ring|
    ensures var s', l := s[..k] + s[k + 1..], ring[s[k]];
            && (if l.prev == NO_ENTRY then l.next else s[0]) == (if s' == [] then NO_ENTRY else s'[0])
            && (if l.next == NO_ENTRY then l.prev else s[|s| - 1]) == (if s' == [] then NO_ENTRY else s'[|s'| - 1])
  {
  }

  lemma EmptyRealises(ring: seq<Links>)
    requires |ring| < NO_ENTRY && forall x :: 0 <= x < |ring| ==> ring[x] == UNLINKED
    ensures Realises(ring, NO_ENTRY, NO_ENTRY, [])
  {
  }

  /** The head, the tail and the membership flags are what the list operations rely on. */
  lemma EndsAreMembers(ring: seq<Links>, head: nat, tail: nat, s: seq<nat>)
    requires Realises(ring, head, tail, s)
    ensures |ring| < NO_ENTRY && (head == NO_ENTRY <==> s == [])
    ensures tail == NO_ENTRY <==> s == []
    ensures s != [] ==> head < |ring| && tail < |ring|
    ensures forall x :: 0 <= x < |ring| ==> (ring[x].member <==> x in s)
  {
    if s != [] {
      assert LinkedAt(ring, s, 0) && LinkedAt(ring, s, |s| - 1);
    }
  }

  lemma NeighboursInRange(ring: seq<Links>, head: nat, tail: nat, s: seq<nat>, x: nat)
    requires Realises(ring, head, tail, s) && x in s
    ensures x < |ring|
    ensures ring[x].prev == NO_ENTRY || (ring[x].prev < |ring| && ring[x].prev != x && ring[x].prev != ring[x].next)
    ensures ring[x].next == NO_ENTRY || (ring[x].next < |ring| && ring[x].next != x && ring[x].prev != ring[x].next)
  {
    var k :| 0 <= k < |s| && s[k] == x;
    assert LinkedAt(ring, s, k);
  }

  lemma MembersInRange(ring: seq<Links>, head: nat, tail: nat, s: seq<nat>)
    requires Realises(ring, head, tail, s)
    ensures forall x :: x in s ==> x < |ring|
  {
  }

  lemma NonMembersAreUnlinked(ring: seq<Links>, head: nat, tail: nat, s: seq<nat>, x: nat)
    requires Realises(ring, head, tail, s) && x < |ring| && x !in s
    ensures ring[x] == UNLINKED
  {
  }

  lemma NextInList(ring: seq<Links>, head: nat, tail: nat, s: seq<nat>, a: nat)
    requires Realises(ring, head, tail, s) && a < |s|
    ensures s[a] < |ring| && ring[s[a]].next == if a == |s| - 1 then NO_ENTRY else s[a + 1]
    ensures forall b :: 0 <= b < |s| ==> s[b] < |ring|
  {
    assert LinkedAt(ring, s, a);
  }
}
