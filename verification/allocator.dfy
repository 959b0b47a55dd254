/**
 Allocation and deallocation for one process record against the unit map.

 Allocation asks the first-fit search for an index b and, unless b is -1,
 marks the units [b, b + size) allocated and sets the process's flag; the code
 never checks that b + size stays within the map, so a request that runs past
 the last unit is undefined behaviour of the program, modelled here as the
 outcome `OutOfBounds`. Deallocation marks every unit of the map free, not only
 the units of the named process, and clears that process's flag.
 */
module Allocator {
  import opened Units
  import opened Search

  /** A process record (`struct Process`) without its name. */
  datatype Process = Process(size: int, isAllocated: bool)

  /** The unit map and the process record after an operation. */
  datatype Placement = Placement(units: UnitMap, process: Process)

  /** The outcome of a step: its result, or a write past the end of the unit
      map, after which the program's behaviour is undefined. */
  datatype Effect<T> = Defined(value: T) | OutOfBounds

  /** `allocateMemory` on a map and one process record. */
  function Allocate(m: UnitMap, p: Process): Effect<Placement> {
    var b := FirstFit(m, p.size);
    if b == -1 then Defined(Placement(m, p))
    else if b + p.size > |m| then OutOfBounds
    else Defined(Placement(MarkRange(m, b, b + p.size), p.(isAllocated := true)))
  }

  /** `deallocateMemory` on a map and one process record. */
  function Deallocate(m: UnitMap, p: Process): Placement {
    Placement(ClearAll(m), p.(isAllocated := false))
  }

  /** `allocateMemory`: when the search fails nothing changes; when it finds b
      and the range fits, exactly the units [b, b + size) become allocated,
      no size changes, and only the process's flag is set; when the range runs
      past the map the write is out of bounds. */
  method AllocateMemory(m: UnitMap, p: Process) returns (r: Effect<Placement>)
    ensures r == Allocate(m, p)
    ensures FirstFit(m, p.size) == -1 ==> r == Defined(Placement(m, p))
    ensures FirstFit(m, p.size) != -1 && FirstFit(m, p.size) + p.size > |m| ==> r == OutOfBounds
    ensures FirstFit(m, p.size) != -1 && FirstFit(m, p.size) + p.size <= |m| ==>
              && r.Defined?
              && r.value.process == p.(isAllocated := true)
              && |r.value.units| == |m|
              && forall i :: 0 <= i < |m| ==>
                   && r.value.units[i].size == m[i].size
                   && (r.value.units[i].isAllocated <==>
                         m[i].isAllocated || FirstFit(m, p.size) <= i < FirstFit(m, p.size) + p.size)
  {
    var b := FindFreeBlockFirstFit(m, p.size);
    if b == -1 {
      return Defined(Placement(m, p));
    }
    if b + p.size > |m| {
      return OutOfBounds;
    }
    var units := m;
    var i := b;
    while i < b + p.size
      invariant b <= i && (i <= b + p.size || i == b)
      invariant |units| == |m|
      invariant forall k :: 0 <= k < |m| ==> units[k] == if b <= k < i then m[k].(isAllocated := true) else m[k]
    {
      units := units[i := units[i].(isAllocated := true)];
      i := i + 1;
    }
    assert units == MarkRange(m, b, b + p.size);
    return Defined(Placement(units, p.(isAllocated := true)));
  }

  /** `deallocateMemory`: every unit of the map ends up free whichever process
      is named, sizes are untouched, and only the named process's flag is
      cleared. */
  method DeallocateMemory(m: UnitMap, p: Process) returns (r: Placement)
    ensures r == Deallocate(m, p)
    ensures |r.units| == |m|
    ensures forall i :: 0 <= i < |m| ==> !r.units[i].isAllocated && r.units[i].size == m[i].size
    ensures r.process == p.(isAllocated := false)
  {
    var units := m;
    var i := 0;
    while i < |units|
      invariant 0 <= i <= |units| == |m|
      invariant forall k :: 0 <= k < |m| ==> units[k] == if k < i then m[k].(isAllocated := false) else m[k]
    {
      if units[i].isAllocated {
        units := units[i := units[i].(isAllocated := false)];
      }
      i := i + 1;
    }
    assert units == ClearAll(m);
    return Placement(units, p.(isAllocated := false));
  }

  /** Neither operation changes the length of the map, any unit's size or
      the process's requested size. */
  lemma AllocatePreservesSizes(m: UnitMap, p: Process)
    ensures Allocate(m, p).Defined? ==>
              && |Allocate(m, p).value.units| == |m|
              && (forall i :: 0 <= i < |m| ==> Allocate(m, p).value.units[i].size == m[i].size)
              && Allocate(m, p).value.process.size == p.size
    ensures |Deallocate(m, p).units| == |m|
    ensures forall i :: 0 <= i < |m| ==> Deallocate(m, p).units[i].size == m[i].size
    ensures Deallocate(m, p).process.size == p.size
  {
  }

  /** A request of one unit never changes the map: the search returns one
      below the first free unit, and that unit is already allocated (or the
      search fails with -1 because unit 0 is free or no unit is). Only the
      process's flag can change. */
  lemma AllocateSizeOneLeavesMap(m: UnitMap, p: Process)
    requires UnitSizesOne(m) && p.size == 1
    ensures FirstFit(m, 1) == -1 <==> (AllAllocated(m) || (|m| > 0 && !m[0].isAllocated))
    ensures Allocate(m, p).Defined?
    ensures Allocate(m, p).value.units == m
    ensures Allocate(m, p).value.process.isAllocated == (p.isAllocated || FirstFit(m, 1) != -1)
  {
    var b := FirstFit(m, 1);
    FirstFitLowestRunEnd(m, 1);
    if AllAllocated(m) {
      forall e
        ensures !RunEndsAt(m, e, 1)
      {
        if 0 <= e < |m| {
          assert m[e].isAllocated;
        }
      }
    } else {
      var k :| 0 <= k < |m| && !m[k].isAllocated;
      assert RunEndsAt(m, k, 1);
    }
    if b != -1 {
      assert !RunEndsAt(m, b, 1);
      assert MarkRange(m, b, b + 1) == m;
    } else if !AllAllocated(m) {
      assert RunEndsAt(m, 0, 1);
    }
  }

  /** A request of two units marks exactly the lowest pair of adjacent free
      units, both of which were free, and nothing else. */
  lemma AllocatePairMarksFreePair(m: UnitMap, p: Process)
    requires UnitSizesOne(m) && p.size == 2
    requires FirstFit(m, 2) != -1
    ensures var b := FirstFit(m, 2);
      && FreeWindow(m, b, 2)
      && (forall s :: 0 <= s < b ==> !FreeWindow(m, s, 2))
      && Allocate(m, p) == Defined(Placement(MarkRange(m, b, b + 2), p.(isAllocated := true)))
      && forall i :: 0 <= i < |m| ==>
           (Allocate(m, p).value.units[i].isAllocated <==> m[i].isAllocated || i == b || i == b + 1)
  {
    FirstFitPairStart(m);
  }

  /** For any request of three or more units that the search satisfies, the
      lowest free window of that size starts size - 2 units below the index
      the search returns. The marking therefore leaves the window's first unit
      free, and it runs past the map exactly when b + size exceeds numUnits. */
  lemma AllocateSkipsWindowStart(m: UnitMap, p: Process)
    requires UnitSizesOne(m) && p.size >= 3 && FirstFit(m, p.size) != -1
    ensures var b := FirstFit(m, p.size);
      && FreeWindow(m, b + 2 - p.size, p.size)
      && (forall s :: 0 <= s < b + 2 - p.size ==> !FreeWindow(m, s, p.size))
      && b + 2 - p.size < b
      && (Allocate(m, p) == OutOfBounds <==> b + p.size > |m|)
      && (Allocate(m, p).Defined? ==> !Allocate(m, p).value.units[b + 2 - p.size].isAllocated)
  {
    var b := FirstFit(m, p.size);
    FirstFitLowestRunEnd(m, p.size);
    assert RunEndsAt(m, b + 1, p.size);
    forall s | 0 <= s < b + 2 - p.size
      ensures !FreeWindow(m, s, p.size)
    {
      assert FreeWindow(m, s, p.size) ==> RunEndsAt(m, s + p.size - 1, p.size);
    }
  }

  /** Three free units and a request of three: the search returns 1, so the
      marking loop would write unit 3, which does not exist. */
  lemma AllocateOverrunExample()
    ensures FirstFit(Initial(3), 3) == 1
    ensures Allocate(Initial(3), Process(3, false)) == OutOfBounds
  {
    var m := Initial(3);
    assert ScanFrom(m, 3, 2, 2) == 1;
    assert ScanFrom(m, 3, 1, 1) == 1;
  }

  /** Three free units followed by an allocated one and a request of three:
      unit 0 of the free run stays free while the already allocated unit 3 is
      claimed again, so the process gets only two fresh units. */
  lemma AllocateOverlapExample()
    ensures var m := [FreeUnit, FreeUnit, FreeUnit, MemoryBlock(1, true)];
      && FirstFit(m, 3) == 1
      && Allocate(m, Process(3, false)) ==
           Defined(Placement([FreeUnit, MemoryBlock(1, true), MemoryBlock(1, true), MemoryBlock(1, true)],
                             Process(3, true)))
  {
    var m := [FreeUnit, FreeUnit, FreeUnit, MemoryBlock(1, true)];
    assert ScanFrom(m, 3, 2, 2) == 1;
    assert ScanFrom(m, 3, 1, 1) == 1;
    assert MarkRange(m, 1, 4) == [FreeUnit, MemoryBlock(1, true), MemoryBlock(1, true), MemoryBlock(1, true)];
  }

  /** A single free unit and a request of one: the search reports -1, so the
      request fails although all of memory is free. */
  lemma AllocateSingleUnitFailsExample()
    ensures Allocate(Initial(1), Process(1, false)) == Defined(Placement(Initial(1), Process(1, false)))
  {
    assert ScanFrom(Initial(1), 1, 0, 0) == -1;
  }

  /** Deallocating twice is the same as deallocating once. */
  lemma DeallocateIdempotent(m: UnitMap, p: Process)
    ensures var once := Deallocate(m, p);
      Deallocate(once.units, once.process) == once
  {
    assert ClearAll(ClearAll(m)) == ClearAll(m);
  }
}
