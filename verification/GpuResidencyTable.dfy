/**
 * The residency index: a fixed-capacity table with linear probing and backward-shift deletion.
 * Every method is proved against the finite map `Contents()`, for an arbitrary hash function.
 */
module ResidencyTable {
  import opened GpuTypes
  import opened BitMask
  import opened ProbeTable

  /** The number of entries for which doubling to a power of two still fits in a size_t. */
  const MAX_TABLE_ENTRIES: nat := 0x4000_0000_0000_0000

  /** A hash reduced to one of `n` slots by masking; for a power of two this is the remainder. */
  function Masked(hash: GpuDataKey -> nat, key: GpuDataKey, n: nat): (index: nat)
    requires n >= 1
    ensures index < n
  {
    And(hash(key), n - 1)
  }

  ghost function HomeMap(hash: GpuDataKey -> nat, n: nat): GpuDataKey -> nat {
    key => if n == 0 then 0 else Masked(hash, key, n)
  }

  class GpuResidencyTable {
    const hash: GpuDataKey -> nat
    var slots: array<Slot>
    var residentLimit: nat
    var residentCount: nat
    var initialized: bool
    ghost var pos: map<GpuDataKey, nat>
    ghost var slotBits: nat

    ghost predicate Valid()
      reads this, slots
    {
      && Represents(slots[..], pos)
      && Chained(slots[..], Home())
      && |pos| == residentCount <= residentLimit
      && (!initialized ==> residentLimit == 0)
      && (if residentLimit == 0 then slots.Length == 0 else
            slots.Length == Pow2(slotBits) && 2 * residentLimit <= slots.Length < 4 * residentLimit)
    }

    ghost function Contents(): map<GpuDataKey, nat>
      reads this, slots
      requires Valid()
    {
      Model(slots[..], pos)
    }

    ghost function Home(): GpuDataKey -> nat
      reads this`slots
    {
      HomeMap(hash, slots.Length)
    }

    constructor (hash: GpuDataKey -> nat)
      ensures Valid() && !initialized && Contents() == map[] && residentLimit == 0
      ensures this.hash == hash && fresh(slots)
    {
      this.hash := hash;
      slots := new Slot[0];
      residentLimit, residentCount, initialized := 0, 0, false;
      pos, slotBits := map[], 0;
    }

    /** The slot count for `maxResidentEntries`: the first power of two with room for twice as many. */
    static method SlotCountFor(maxResidentEntries: nat) returns (fits: bool, slotCount: nat, ghost bits: nat)
      requires maxResidentEntries <= SIZE_MAX
      ensures fits <==> maxResidentEntries <= MAX_TABLE_ENTRIES
      ensures fits && maxResidentEntries == 0 ==> slotCount == 0
      ensures fits && maxResidentEntries != 0 ==>
                slotCount == Pow2(bits) && 2 * maxResidentEntries <= slotCount < 4 * maxResidentEntries
    {
      var requiredSlots := 0;
      slotCount, bits := 0, 0;
      if maxResidentEntries != 0 {
        if maxResidentEntries > SIZE_MAX / 2 {
          return false, slotCount, bits;
        }
        requiredSlots := maxResidentEntries * 2;
      }
      slotCount := if requiredSlots == 0 then 0 else 1;
      TopBit();
      while slotCount < requiredSlots
        invariant requiredSlots == 0 ==> slotCount == 0
        invariant requiredSlots != 0 ==> slotCount == Pow2(bits) && slotCount < 2 * requiredSlots
        invariant bits <= 63
        decreases requiredSlots - slotCount
      {
        if slotCount > SIZE_MAX / 2 {
          return false, slotCount, bits;
        }
        assert bits < 63;
        slotCount := slotCount * 2;
        bits := bits + 1;
      }
      Pow2Monotone(bits, 63);
      return true, slotCount, bits;
    }

    /** `storageAvailable` is false when the slot storage cannot be obtained. */
    method Initialize(maxResidentEntries: nat, storageAvailable: bool) returns (ok: bool)
      requires Valid()
      requires maxResidentEntries <= SIZE_MAX
      modifies this
      ensures Valid()
      ensures ok <==> !old(initialized) && storageAvailable && maxResidentEntries <= MAX_TABLE_ENTRIES
      ensures ok ==> initialized && residentLimit == maxResidentEntries && Contents() == map[] && fresh(slots)
      ensures !ok ==> unchanged(this)
    {
      if initialized || slots.Length != 0 || residentLimit != 0 || residentCount != 0 {
        return false;
      }
      var fits, newSlotCount, bits := SlotCountFor(maxResidentEntries);
      if !fits || !storageAvailable {
        return false;
      }
      slots := new Slot[newSlotCount](_ => EMPTY_SLOT);
      residentLimit := maxResidentEntries;
      residentCount := 0;
      initialized := true;
      pos, slotBits := map[], bits;
      NothingStored(slots[..], Home());
      return true;
    }

    method Clear()
      requires Valid()
      modifies this, slots
      ensures Valid() && Contents() == map[]
      ensures slots == old(slots) && residentLimit == old(residentLimit) && initialized == old(initialized)
    {
      for i := 0 to slots.Length
        modifies slots
        invariant forall j :: 0 <= j < i ==> slots[j] == EMPTY_SLOT
      {
        slots[i] := EMPTY_SLOT;
      }
      residentCount := 0;
      pos := map[];
    }

    method Release()
      requires Valid()
      modifies this
      ensures Valid() && Contents() == map[] && !initialized && residentLimit == 0 && fresh(slots)
    {
      slots := new Slot[0];
      residentLimit := 0;
      residentCount := 0;
      initialized := false;
      pos := map[];
    }

    method Find(key: GpuDataKey) returns (found: bool, entryIndex: nat)
      requires Valid()
      ensures found <==> initialized && key in Contents()
      ensures found ==> entryIndex == Contents()[key]
    {
      entryIndex := 0;
      if !initialized {
        return false, entryIndex;
      }
      var index := FindSlot(key);
      if index == None {
        return false, entryIndex;
      }
      return true, slots[index.value].entryIndex;
    }

    method Insert(key: GpuDataKey, entryIndex: nat) returns (ok: bool)
      requires Valid()
      modifies this, slots
      ensures Valid()
      ensures ok <==> initialized && |old(Contents())| < residentLimit && key !in old(Contents())
      ensures Contents() == if ok then old(Contents())[key := entryIndex] else old(Contents())
      ensures slots == old(slots) && residentLimit == old(residentLimit) && initialized == old(initialized)
    {
      assert |Contents()| == |pos| by { assert Contents().Keys == pos.Keys; }
      if !initialized || residentCount >= residentLimit || slots.Length == 0 {
        return false;
      }
      var index := ProbeForInsert(key);
      if index == None {
        return false;
      }
      StoreAt(key, entryIndex, index.value);
      return true;
    }

    /** The first free slot on the probe sequence of a key, or None when the key is met first. */
    method ProbeForInsert(key: GpuDataKey) returns (free: Option<nat>)
      requires Valid() && residentCount < residentLimit
      ensures free == None <==> key in pos
      ensures free.Some? ==>
                free.value < slots.Length && !slots[free.value].occupied &&
                ProbedPast(slots[..], Home()(key), key, Distance(slots.Length, Home()(key), free.value))
    {
      ghost var s := slots[..];
      FreeSlotExists(s, pos);
      var index := HomeSlot(key);
      var probe := 0;
      while probe < slots.Length
        invariant 0 <= probe <= slots.Length && 0 <= index < slots.Length
        invariant probe < slots.Length ==> Distance(|s|, Home()(key), index) == probe
        invariant ProbedPast(s, Home()(key), key, probe)
      {
        assert slots[index] == s[index];
        if !slots[index].occupied {
          ProbeMiss(s, Home(), pos, key, probe);
          return Some(index);
        }
        if slots[index].key == key {
          return None;
        }
        ProbeStep(s, Home()(key), key, probe, index);
        index := NextSlot(index);
        probe := probe + 1;
      }
      free := None;
      assert false;
    }

    method StoreAt(key: GpuDataKey, entryIndex: nat, index: nat)
      requires Valid() && residentCount < residentLimit && key !in pos
      requires index < slots.Length && !slots[index].occupied
      requires ProbedPast(slots[..], Home()(key), key, Distance(slots.Length, Home()(key), index))
      modifies slots, this`residentCount, this`pos
      ensures Valid() && Contents() == old(Contents())[key := entryIndex]
    {
      ghost var s := slots[..];
      InsertAtFree(s, Home(), pos, key, entryIndex, index);
      slots[index] := Slot(key, entryIndex, true);
      assert slots[..] == s[index := Slot(key, entryIndex, true)];
      residentCount := residentCount + 1;
      pos := pos[key := index];
    }

    method Erase(key: GpuDataKey, entryIndex: nat) returns (ok: bool)
      requires Valid()
      modifies this, slots
      ensures Valid()
      ensures ok <==> initialized && key in old(Contents()) && old(Contents())[key] == entryIndex
      ensures Contents() == if ok then old(Contents()) - {key} else old(Contents())
      ensures slots == old(slots) && residentLimit == old(residentLimit) && initialized == old(initialized)
    {
      if !initialized {
        return false;
      }
      var index := FindSlot(key);
      if index == None || slots[index.value].entryIndex != entryIndex {
        return false;
      }
      FreeSlotExists(slots[..], pos);
      EraseSlot(index.value, key);
      residentCount := residentCount - 1;
      return true;
    }

    method FindSlot(key: GpuDataKey) returns (index: Option<nat>)
      requires Valid()
      ensures index == if key in pos then Some(pos[key]) else None
    {
      if slots.Length == 0 {
        return None;
      }
      var at := HomeSlot(key);
      var probe := 0;
      while probe < slots.Length
        invariant 0 <= probe <= slots.Length && 0 <= at < slots.Length
        invariant probe < slots.Length ==> Distance(slots.Length, Home()(key), at) == probe
        invariant ProbedPast(slots[..], Home()(key), key, probe)
      {
        var slot := slots[at];
        if !slot.occupied {
          ProbeMiss(slots[..], Home(), pos, key, probe);
          return None;
        }
        if slot.key == key {
          return Some(at);
        }
        ProbeStep(slots[..], Home()(key), key, probe, at);
        at := NextSlot(at);
        probe := probe + 1;
      }
      ProbeMiss(slots[..], Home(), pos, key, probe);
      return None;
    }

    method HomeSlot(key: GpuDataKey) returns (index: nat)
      requires slots.Length == Pow2(slotBits)
      ensures index == Home()(key) && index < slots.Length
      ensures index == hash(key) % slots.Length
    {
      MaskIsRemainder(hash(key), slotBits);
      index := Masked(hash, key, slots.Length);
    }

    method NextSlot(index: nat) returns (next: nat)
      requires slots.Length == Pow2(slotBits) && index < slots.Length
      ensures next == Next(slots.Length, index)
    {
      MaskIsRemainder(index + 1, slotBits);
      RingArithmetic(slots.Length, index, index);
      next := And(index + 1, slots.Length - 1);
    }

    /** Backward-shift deletion of the slot at `index`, which holds `key`. */
    method EraseSlot(index: nat, ghost key: GpuDataKey)
      requires Valid() && key in pos && pos[key] == index && slots.Length == Pow2(slotBits) && slots.Length >= 2
      requires exists free :: 0 <= free < slots.Length && !slots[free].occupied
      modifies slots, this`pos
      ensures Represents(slots[..], pos) && Chained(slots[..], Home())
      ensures Model(slots[..], pos) == old(Contents()) - {key}
      ensures |pos| == old(|pos|) - 1
    {
      ghost var n, s, contents, keys := slots.Length, slots[..], Contents(), pos.Keys - {key};
      ModelKeys(s, pos);
      ghost var free :| 0 <= free < n && !s[free].occupied;
      EraseStarts(s, Home(), pos, key, free);
      hide Valid, HomeMap, Represents, Model, Chained, Erasing, Distance, KeepsValues;
      pos := pos - {key};
      var emptyIndex := index;
      var scanIndex := NextSlot(index);
      while slots[scanIndex].occupied
        invariant 0 <= emptyIndex < n && 0 <= scanIndex < n && slots[..] == s && slots.Length == Pow2(slotBits)
        invariant Erasing(s, Home(), pos, emptyIndex, scanIndex, free, keys, contents)
        decreases Distance(n, scanIndex, free)
      {
        var homeIndex := HomeSlot(slots[scanIndex].key);
        var nextIndex := NextSlot(scanIndex);
        if Distance(slots.Length, homeIndex, emptyIndex) < Distance(slots.Length, homeIndex, scanIndex) {
          EraseMoves(s, Home(), pos, emptyIndex, scanIndex, free, keys, contents);
          pos := pos[s[scanIndex].key := emptyIndex];
          s := s[emptyIndex := s[scanIndex]];
          slots[emptyIndex] := slots[scanIndex];
          emptyIndex := scanIndex;
        } else {
          EraseSkips(s, Home(), pos, emptyIndex, scanIndex, free, keys, contents);
        }
        scanIndex := nextIndex;
      }
      EraseEnds(s, Home(), pos, emptyIndex, scanIndex, free, keys, contents);
      slots[emptyIndex] := EMPTY_SLOT;
      assert slots[..] == s[emptyIndex := EMPTY_SLOT];
      ModelAfterErase(slots[..], pos, contents, key);
    }
  }
}
