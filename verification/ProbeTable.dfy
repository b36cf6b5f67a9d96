/**
 * Linear probing on a ring of slots, for an arbitrary home-slot function.
 *
 * A table is described by the slots themselves and by a ghost position map from each stored key to
 * its slot. Two facts make a probe sequence work: the positions are exactly the occupied slots
 * (`Represents`), and the slots between a key's home and its position are all occupied (`Chained`).
 */
module ProbeTable {
  import opened Counting
  import opened GpuTypes
  import opened BitMask

  datatype Slot = Slot(key: GpuDataKey, entryIndex: nat, occupied: bool)

  const EMPTY_SLOT := Slot(DEFAULT_KEY, 0, false)

  /** How many forward steps lead from `home` to `index` on a ring of `n` slots. */
  function Distance(n: int, home: int, index: int): int {
    if index >= home then index - home else n - (home - index)
  }

  function Next(n: int, index: int): int {
    if index + 1 == n then 0 else index + 1
  }

  lemma RingArithmetic(n: nat, home: nat, index: nat)
    requires home < n && index < n
    ensures Distance(n, home, index) == (index - home) % n
    ensures Next(n, index) == (index + 1) % n
    ensures 0 <= Distance(n, home, index) < n
    ensures (home + Distance(n, home, index)) % n == index
  {
    var d := Distance(n, home, index);
    QuotientRemainderUnique(index - home, n, if index >= home then 0 else -1, d);
    QuotientRemainderUnique(index + 1, n, if index + 1 == n then 1 else 0, Next(n, index));
    QuotientRemainderUnique(home + d, n, if index >= home then 0 else 1, index);
  }

  ghost predicate Represents(slots: seq<Slot>, pos: map<GpuDataKey, nat>) {
    && (forall k :: k in pos ==> pos[k] < |slots| && slots[pos[k]].occupied && slots[pos[k]].key == k)
    && (forall j :: 0 <= j < |slots| && slots[j].occupied ==> slots[j].key in pos && pos[slots[j].key] == j)
  }

  /** Slot `x` lies on the probe sequence of the key stored at `j`, before `j` itself. */
  ghost predicate Crosses(slots: seq<Slot>, home: GpuDataKey -> nat, j: int, x: int) {
    && 0 <= j < |slots| && 0 <= x < |slots| && slots[j].occupied
    && Distance(|slots|, home(slots[j].key), x) < Distance(|slots|, home(slots[j].key), j)
  }

  ghost predicate Chained(slots: seq<Slot>, home: GpuDataKey -> nat) {
    forall j, x {:trigger Crosses(slots, home, j, x)} :: Crosses(slots, home, j, x) ==> slots[x].occupied
  }

  ghost predicate HomesInRange(n: nat, home: GpuDataKey -> nat) {
    forall k :: home(k) < n
  }

  /** The finite map that a table stands for. */
  ghost function Model(slots: seq<Slot>, pos: map<GpuDataKey, nat>): map<GpuDataKey, nat>
    requires Represents(slots, pos)
  {
    map k | k in pos :: slots[pos[k]].entryIndex
  }

  /** The stored values are those of `contents`, wherever their keys are stored. */
  ghost predicate KeepsValues(slots: seq<Slot>, pos: map<GpuDataKey, nat>, contents: map<GpuDataKey, nat>) {
    forall k :: k in pos ==> pos[k] < |slots| && k in contents && slots[pos[k]].entryIndex == contents[k]
  }

  lemma NothingStored(slots: seq<Slot>, home: GpuDataKey -> nat)
    requires forall j :: 0 <= j < |slots| ==> !slots[j].occupied
    ensures Represents(slots, map[]) && Chained(slots, home)
  {
  }

  /** A prefix of a probe sequence that met only occupied slots holding other keys. */
  ghost predicate ProbedPast(slots: seq<Slot>, home: nat, key: GpuDataKey, probe: int) {
    forall x :: 0 <= x < |slots| && Distance(|slots|, home, x) < probe ==> slots[x].occupied && slots[x].key != key
  }

  lemma ProbeStep(slots: seq<Slot>, home: nat, key: GpuDataKey, probe: nat, index: nat)
    requires home < |slots| && index < |slots| && Distance(|slots|, home, index) == probe
    requires ProbedPast(slots, home, key, probe)
    requires slots[index].occupied && slots[index].key != key
    ensures ProbedPast(slots, home, key, probe + 1)
    ensures Next(|slots|, index) < |slots|
    ensures probe + 1 < |slots| ==> Distance(|slots|, home, Next(|slots|, index)) == probe + 1
  {
  }

  /** A probe that reaches a free slot, or goes all the way round, has proved the key absent. */
  lemma ProbeMiss(slots: seq<Slot>, home: GpuDataKey -> nat, pos: map<GpuDataKey, nat>, key: GpuDataKey, probe: nat)
    requires Represents(slots, pos) && Chained(slots, home) && HomesInRange(|slots|, home)
    requires ProbedPast(slots, home(key), key, probe)
    requires probe >= |slots|
      || exists free :: 0 <= free < |slots| && !slots[free].occupied && Distance(|slots|, home(key), free) == probe
    ensures key !in pos
  {
    if key in pos {
      var j := pos[key];
      assert slots[j].occupied && slots[j].key == key;
      if probe < |slots| {
        var free :| 0 <= free < |slots| && !slots[free].occupied && Distance(|slots|, home(key), free) == probe;
        var crossing := Crosses(slots, home, j, free);
        assert false;
      }
    }
  }

  lemma InsertAtFree(slots: seq<Slot>, home: GpuDataKey -> nat, pos: map<GpuDataKey, nat>, key: GpuDataKey, value: nat,
      free: nat)
    requires Represents(slots, pos) && Chained(slots, home) && HomesInRange(|slots|, home)
    requires key !in pos && free < |slots| && !slots[free].occupied
    requires ProbedPast(slots, home(key), key, Distance(|slots|, home(key), free))
    ensures var slots' := slots[free := Slot(key, value, true)];
            && Represents(slots', pos[key := free]) && Chained(slots', home)
            && Model(slots', pos[key := free]) == Model(slots, pos)[key := value]
  {
    var slots' := slots[free := Slot(key, value, true)];
    assert Represents(slots', pos[key := free]);
    forall j, x | Crosses(slots', home, j, x)
      ensures slots'[x].occupied
    {
      assert j != free ==> Crosses(slots, home, j, x);
    }
  }

  /**
   * The state of the backward shift: `hole` holds stale contents and counts as free, everything
   * strictly between the hole and `scan` has been kept in place, and a key whose chain crosses the
   * hole has not been scanned yet.
   */
  ghost predicate Shifting(slots: seq<Slot>, home: GpuDataKey -> nat, pos: map<GpuDataKey, nat>, hole: nat, scan: nat) {
    var n := |slots|;
    && 0 <= hole < n && 0 <= scan < n && hole != scan
    && (forall k :: k in pos ==> pos[k] < n && pos[k] != hole && slots[pos[k]].occupied && slots[pos[k]].key == k)
    && (forall j :: 0 <= j < n && j != hole && slots[j].occupied ==> slots[j].key in pos && pos[slots[j].key] == j)
    && (forall j, x {:trigger Crosses(slots, home, j, x)} ::
          Crosses(slots, home, j, x) && j != hole && x != hole ==> slots[x].occupied)
    && (forall j {:trigger Crosses(slots, home, j, hole)} ::
          Crosses(slots, home, j, hole) && j != hole ==> Distance(n, hole, j) >= Distance(n, hole, scan))
    && (forall x :: 0 <= x < n && 0 < Distance(n, hole, x) < Distance(n, hole, scan) ==> slots[x].occupied)
  }

  lemma ShiftStarts(slots: seq<Slot>, home: GpuDataKey -> nat, pos: map<GpuDataKey, nat>, key: GpuDataKey)
    requires Represents(slots, pos) && Chained(slots, home) && HomesInRange(|slots|, home)
    requires key in pos && |slots| >= 2
    ensures Shifting(slots, home, pos - {key}, pos[key], Next(|slots|, pos[key]))
  {
    assert forall j, x :: Crosses(slots, home, j, x) ==> slots[x].occupied;
  }

  lemma ShiftMoves(slots: seq<Slot>, home: GpuDataKey -> nat, pos: map<GpuDataKey, nat>, hole: nat, scan: nat)
    requires Shifting(slots, home, pos, hole, scan) && HomesInRange(|slots|, home) && slots[scan].occupied
    requires var h := home(slots[scan].key); Distance(|slots|, h, hole) < Distance(|slots|, h, scan)
    ensures var slots' := slots[hole := slots[scan]];
            Shifting(slots', home, pos[slots[scan].key := hole], scan, Next(|slots|, scan))
  {
    var slots' := slots[hole := slots[scan]];
    forall j, x | Crosses(slots', home, j, x) && j != scan && x != scan
      ensures slots'[x].occupied
    {
      assert j == hole ==> Crosses(slots, home, scan, x);
      assert j != hole ==> Crosses(slots, home, j, x);
    }
  }

  lemma ShiftSkips(slots: seq<Slot>, home: GpuDataKey -> nat, pos: map<GpuDataKey, nat>, hole: nat, scan: nat)
    requires Shifting(slots, home, pos, hole, scan) && HomesInRange(|slots|, home) && slots[scan].occupied
    requires var h := home(slots[scan].key); Distance(|slots|, h, hole) >= Distance(|slots|, h, scan)
    requires Next(|slots|, scan) != hole
    ensures Shifting(slots, home, pos, hole, Next(|slots|, scan))
  {
    assert !Crosses(slots, home, scan, hole);
  }

  lemma ShiftEnds(slots: seq<Slot>, home: GpuDataKey -> nat, pos: map<GpuDataKey, nat>, hole: nat, scan: nat)
    requires Shifting(slots, home, pos, hole, scan) && HomesInRange(|slots|, home) && !slots[scan].occupied
    ensures Represents(slots[hole := EMPTY_SLOT], pos) && Chained(slots[hole := EMPTY_SLOT], home)
  {
    var slots' := slots[hole := EMPTY_SLOT];
    forall j, x | Crosses(slots', home, j, x)
      ensures slots'[x].occupied
    {
      assert Crosses(slots, home, j, x);
      if x == hole {
        // The chain of j would cross the hole and then the free slot at scan.
        var crosses := Crosses(slots, home, j, scan);
        assert false;
      }
    }
  }

  /** The whole state of an erase: the shift, the keys and values that must survive, and a free slot ahead. */
  ghost predicate Erasing(slots: seq<Slot>, home: GpuDataKey -> nat, pos: map<GpuDataKey, nat>, hole: nat, scan: nat,
                          free: nat, keys: set<GpuDataKey>, contents: map<GpuDataKey, nat>)
  {
    && Shifting(slots, home, pos, hole, scan) && HomesInRange(|slots|, home)
    && pos.Keys == keys && KeepsValues(slots, pos, contents)
    && free < |slots| && free != hole && !slots[free].occupied
    && Distance(|slots|, hole, scan) <= Distance(|slots|, hole, free)
  }

  lemma EraseStarts(slots: seq<Slot>, home: GpuDataKey -> nat, pos: map<GpuDataKey, nat>, key: GpuDataKey, free: nat)
    requires Represents(slots, pos) && Chained(slots, home) && HomesInRange(|slots|, home)
    requires key in pos && |slots| >= 2 && free < |slots| && !slots[free].occupied
    ensures pos[key] < |slots| && 0 <= Next(|slots|, pos[key]) < |slots|
    ensures Erasing(slots, home, pos - {key}, pos[key], Next(|slots|, pos[key]), free, pos.Keys - {key},
            Model(slots, pos))
  {
    ShiftStarts(slots, home, pos, key);
  }

  lemma EraseMoves(slots: seq<Slot>, home: GpuDataKey -> nat, pos: map<GpuDataKey, nat>, hole: nat, scan: nat,
                   free: nat, keys: set<GpuDataKey>, contents: map<GpuDataKey, nat>)
    requires Erasing(slots, home, pos, hole, scan, free, keys, contents)
    requires hole < |slots| && scan < |slots| && slots[scan].occupied
    requires var h := home(slots[scan].key); Distance(|slots|, h, hole) < Distance(|slots|, h, scan)
    ensures 0 <= Next(|slots|, scan) < |slots|
    ensures Erasing(slots[hole := slots[scan]], home, pos[slots[scan].key := hole], scan, Next(|slots|, scan), free,
            keys, contents)
    ensures 0 <= Distance(|slots|, Next(|slots|, scan), free) < Distance(|slots|, scan, free)
  {
    ShiftMoves(slots, home, pos, hole, scan);
  }

  lemma EraseSkips(slots: seq<Slot>, home: GpuDataKey -> nat, pos: map<GpuDataKey, nat>, hole: nat, scan: nat,
                   free: nat, keys: set<GpuDataKey>, contents: map<GpuDataKey, nat>)
    requires Erasing(slots, home, pos, hole, scan, free, keys, contents)
    requires hole < |slots| && scan < |slots| && slots[scan].occupied
    requires var h := home(slots[scan].key); Distance(|slots|, h, hole) >= Distance(|slots|, h, scan)
    ensures 0 <= Next(|slots|, scan) < |slots|
    ensures Erasing(slots, home, pos, hole, Next(|slots|, scan), free, keys, contents)
    ensures 0 <= Distance(|slots|, Next(|slots|, scan), free) < Distance(|slots|, scan, free)
  {
    ShiftSkips(slots, home, pos, hole, scan);
  }

  lemma EraseEnds(slots: seq<Slot>, home: GpuDataKey -> nat, pos: map<GpuDataKey, nat>, hole: nat, scan: nat,
                  free: nat, keys: set<GpuDataKey>, contents: map<GpuDataKey, nat>)
    requires Erasing(slots, home, pos, hole, scan, free, keys, contents)
    requires hole < |slots| && scan < |slots| && !slots[scan].occupied
    ensures var slots' := slots[hole := EMPTY_SLOT];
            Represents(slots', pos) && Chained(slots', home) && pos.Keys == keys && KeepsValues(slots', pos, contents)
  {
    ShiftEnds(slots, home, pos, hole, scan);
  }

  lemma ModelAfterErase(slots: seq<Slot>, pos: map<GpuDataKey, nat>, contents: map<GpuDataKey, nat>, key: GpuDataKey)
    requires Represents(slots, pos) && KeepsValues(slots, pos, contents)
    requires key in contents && pos.Keys == contents.Keys - {key}
    ensures Model(slots, pos) == contents - {key} && |pos| == |contents| - 1
  {
    assert |pos| == |pos.Keys| && |contents| == |contents.Keys|;
  }

  lemma ModelKeys(slots: seq<Slot>, pos: map<GpuDataKey, nat>)
    requires Represents(slots, pos)
    ensures Model(slots, pos).Keys == pos.Keys && |Model(slots, pos)| == |pos|
  {
    assert |pos| == |pos.Keys| && |Model(slots, pos)| == |Model(slots, pos).Keys|;
  }

  /** Fewer stored keys than slots leave a free slot, which is what ends every probe and every shift. */
  lemma FreeSlotExists(slots: seq<Slot>, pos: map<GpuDataKey, nat>)
    requires Represents(slots, pos) && |pos| < |slots|
    ensures exists free :: 0 <= free < |slots| && !slots[free].occupied
  {
    if forall j :: 0 <= j < |slots| ==> slots[j].occupied {
      var keys := DistinctKeys(slots, pos, |slots|);
      assert keys <= pos.Keys;
      SubsetSize(keys, pos.Keys);
    }
  }

  lemma {:induction false} DistinctKeys(slots: seq<Slot>, pos: map<GpuDataKey, nat>, count: nat)
      returns (keys: set<GpuDataKey>)
    requires Represents(slots, pos) && count <= |slots|
    requires forall j :: 0 <= j < |slots| ==> slots[j].occupied
    ensures |keys| == count && keys <= pos.Keys
    ensures forall k :: k in keys ==> pos[k] < count
  {
    if count == 0 {
      keys := {};
    } else {
      var rest := DistinctKeys(slots, pos, count - 1);
      assert pos[slots[count - 1].key] == count - 1;
      assert slots[count - 1].key !in rest;
      keys := rest + {slots[count - 1].key};
    }
  }
}
