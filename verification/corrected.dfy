/**
 The first-fit search as its comment and its allocation message describe it:
 it returns the START of the lowest run of free units long enough for the
 request, so the allocation that follows stays inside the map and claims only
 free units. This is a corrected variant, kept apart from the model of the
 code as written (module Search), which returns one below the END of that run.
 Non-positive requests are rejected instead of being searched for.
 */
module Corrected {
  import opened Units
  import opened Search
  import opened Allocator

  /** Why a corrected allocation is refused. */
  datatype AllocError = InvalidSize | InsufficientMemory

  datatype AllocResult = Success(placement: Placement) | Failure(error: AllocError)

  /** The same left-to-right scan as `ScanFrom`, returning the first unit of
      the run when the count reaches the request. */
  function StartScanFrom(m: UnitMap, processSize: int, i: nat, blockSize: int): int
    requires i <= |m|
    decreases |m| - i
  {
    if i == |m| then -1
    else if !m[i].isAllocated then
      var grown := blockSize + m[i].size;
      if grown >= processSize then i + 1 - processSize
      else StartScanFrom(m, processSize, i + 1, grown)
    else StartScanFrom(m, processSize, i + 1, 0)
  }

  /** The corrected first-fit search. */
  function FirstFitStart(m: UnitMap, processSize: int): int {
    if processSize < 1 then -1 else StartScanFrom(m, processSize, 0, 0)
  }

  /** A free window of n units at s is a run of n units ending at s + n - 1. */
  lemma WindowIsRunEnd(m: UnitMap, s: int, n: int)
    requires n >= 1
    ensures FreeWindow(m, s, n) <==> RunEndsAt(m, s + n - 1, n)
  {
  }

  lemma {:induction false} StartScanFindsLowestWindow(m: UnitMap, n: int, i: nat)
    requires UnitSizesOne(m) && n >= 1 && i <= |m|
    requires FreeRunBefore(m, i) < n
    ensures (forall e :: i <= e < |m| ==> !RunEndsAt(m, e, n)) ==> StartScanFrom(m, n, i, FreeRunBefore(m, i)) == -1
    ensures forall e :: i <= e < |m| && RunEndsAt(m, e, n) && (forall e' :: i <= e' < e ==> !RunEndsAt(m, e', n)) ==>
              StartScanFrom(m, n, i, FreeRunBefore(m, i)) == e + 1 - n
    decreases |m| - i
  {
    if i < |m| {
      RunEndsAtIsFreeRun(m, i, n);
      var bs := FreeRunBefore(m, i);
      assert FreeRunBefore(m, i + 1) == if m[i].isAllocated then 0 else bs + 1;
      if !m[i].isAllocated && bs + 1 >= n {
        assert RunEndsAt(m, i, n);
        assert StartScanFrom(m, n, i, bs) == i + 1 - n;
      } else {
        assert !RunEndsAt(m, i, n);
        assert StartScanFrom(m, n, i, bs) == StartScanFrom(m, n, i + 1, FreeRunBefore(m, i + 1));
        StartScanFindsLowestWindow(m, n, i + 1);
      }
    }
  }

  /** The corrected search on a map of size-1 units: for a request of n >= 1
      units it returns -1 exactly when no n consecutive units are free, and
      otherwise the lowest s with units [s, s + n) free. */
  lemma FirstFitStartLowest(m: UnitMap, n: int)
    requires UnitSizesOne(m) && n >= 1
    ensures FirstFitStart(m, n) == -1 <==> forall s :: !FreeWindow(m, s, n)
    ensures FirstFitStart(m, n) != -1 ==>
              && FreeWindow(m, FirstFitStart(m, n), n)
              && forall s :: 0 <= s < FirstFitStart(m, n) ==> !FreeWindow(m, s, n)
  {
    StartScanFindsLowestWindow(m, n, 0);
    forall s
      ensures FreeWindow(m, s, n) <==> RunEndsAt(m, s + n - 1, n)
    {
      WindowIsRunEnd(m, s, n);
    }
    forall e
      ensures RunEndsAt(m, e, n) <==> FreeWindow(m, e + 1 - n, n)
    {
      WindowIsRunEnd(m, e + 1 - n, n);
    }
    if e :| RunEndsAt(m, e, n) {
      var lowest := LowestRunEnd(m, n, e);
      assert FirstFitStart(m, n) == lowest + 1 - n;
    }
  }

  /** Allocation with the corrected search and the guards the code lacks
      for sizes: non-positive requests are refused, a failed search is
      reported, and otherwise the window found is marked. */
  function AllocateCorrected(m: UnitMap, p: Process): AllocResult {
    if p.size < 1 then Failure(InvalidSize)
    else
      var s := FirstFitStart(m, p.size);
      if s < 0 || s + p.size > |m| then Failure(InsufficientMemory)
      else Success(Placement(MarkRange(m, s, s + p.size), p.(isAllocated := true)))
  }

  /** The corrected allocation fails with InsufficientMemory exactly when no
      window of the requested size is free; when it succeeds it stays inside
      the map and turns exactly the lowest free window of the requested size
      from free to allocated, leaving every other unit as it was. */
  lemma AllocateCorrectedClaimsFreeWindow(m: UnitMap, p: Process)
    requires UnitSizesOne(m)
    ensures p.size < 1 ==> AllocateCorrected(m, p) == Failure(InvalidSize)
    ensures p.size >= 1 ==>
              (AllocateCorrected(m, p) == Failure(InsufficientMemory) <==> forall s :: !FreeWindow(m, s, p.size))
    ensures AllocateCorrected(m, p).Success? ==>
              var s := FirstFitStart(m, p.size);
              var units := AllocateCorrected(m, p).placement.units;
              && FreeWindow(m, s, p.size)
              && (forall s' :: 0 <= s' < s ==> !FreeWindow(m, s', p.size))
              && |units| == |m|
              && AllocateCorrected(m, p).placement.process == p.(isAllocated := true)
              && forall i :: 0 <= i < |m| ==>
                   && units[i].size == m[i].size
                   && (units[i].isAllocated <==> m[i].isAllocated || s <= i < s + p.size)
  {
    if p.size >= 1 {
      FirstFitStartLowest(m, p.size);
    }
  }

  /** Four free units and a request of three: the code as written answers 1,
      the corrected search answers 0, the start of the free window. */
  lemma OffByOneExample()
    ensures FirstFit(Initial(4), 3) == 1
    ensures FirstFitStart(Initial(4), 3) == 0
  {
    var m := Initial(4);
    assert ScanFrom(m, 3, 2, 2) == 1;
    assert ScanFrom(m, 3, 1, 1) == 1;
    assert StartScanFrom(m, 3, 2, 2) == 0;
    assert StartScanFrom(m, 3, 1, 1) == 0;
  }
}
