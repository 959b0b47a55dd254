/**
 The unit map of the allocator: a fixed-length sequence of memory units, each
 with a size and an allocated flag, and the whole-map operations the allocator
 performs on it (initialise, mark a range allocated, mark everything free).
 */
module Units {

  /** One unit of the simulated memory (`struct MemoryBlock`). The size is a
      C `int`; initialisation gives every unit size 1 and nothing changes it. */
  datatype MemoryBlock = MemoryBlock(size: int, isAllocated: bool)

  type UnitMap = seq<MemoryBlock>

  /** The unit every slot holds right after initialisation. */
  const FreeUnit := MemoryBlock(1, false)

  /** Every unit has size 1. */
  predicate UnitSizesOne(m: UnitMap) {
    forall i :: 0 <= i < |m| ==> m[i].size == 1
  }

  /** No unit is allocated. */
  predicate AllFree(m: UnitMap) {
    forall i :: 0 <= i < |m| ==> !m[i].isAllocated
  }

  /** Every unit is allocated. */
  predicate AllAllocated(m: UnitMap) {
    forall i :: 0 <= i < |m| ==> m[i].isAllocated
  }

  /** The units [lo, hi) exist and are all free. */
  predicate FreeRange(m: UnitMap, lo: int, hi: int) {
    0 <= lo <= hi <= |m| && forall k :: lo <= k < hi ==> !m[k].isAllocated
  }

  /** The n units starting at unit s exist and are all free. */
  predicate FreeWindow(m: UnitMap, s: int, n: int) {
    FreeRange(m, s, s + n)
  }

  /** The map of `numUnits` units that initialisation produces. */
  function Initial(numUnits: nat): UnitMap {
    seq(numUnits, _ => FreeUnit)
  }

  /** The map with units [lo, hi) marked allocated (sizes untouched). */
  function MarkRange(m: UnitMap, lo: int, hi: int): UnitMap
    requires 0 <= lo && hi <= |m|
  {
    seq(|m|, i requires 0 <= i < |m| => if lo <= i < hi then m[i].(isAllocated := true) else m[i])
  }

  /** The map with every unit marked free (sizes untouched). */
  function ClearAll(m: UnitMap): UnitMap {
    seq(|m|, i requires 0 <= i < |m| => m[i].(isAllocated := false))
  }

  /** `initializeMemory`: every slot of the freshly obtained map, whatever it
      held before, becomes a free unit of size 1. */
  method InitializeMemory(m: UnitMap) returns (m': UnitMap)
    ensures |m'| == |m|
    ensures forall i :: 0 <= i < |m'| ==> m'[i].size == 1 && !m'[i].isAllocated
    ensures m' == Initial(|m|)
  {
    m' := m;
    var i := 0;
    while i < |m'|
      invariant 0 <= i <= |m'| == |m|
      invariant forall k :: 0 <= k < i ==> m'[k] == FreeUnit
    {
      m' := m'[i := m'[i].(size := 1)];
      m' := m'[i := m'[i].(isAllocated := false)];
      i := i + 1;
    }
  }
}
