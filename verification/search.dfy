/**
 The first-fit search of the allocator, exactly as the code computes it, and
 its characterisation in terms of runs of free units.

 The scan walks the map left to right, adding each free unit's size to a
 running count and resetting the count at an allocated unit. As soon as the
 count reaches the requested size at unit i it returns i when the count
 overshoots, and i - 1 when it matches exactly. With every unit of size 1 and
 a request of n >= 1 units the count matches exactly at the last unit e of the
 lowest run of n free units, so the search returns e - 1: the start of that
 run only when n == 2, and the failure value -1 when n == 1 and unit 0 is free.
 */
module Search {
  import opened Units

  /** The scan of `findFreeBlockFirstFit` from unit i on, with `blockSize`
      counted so far. Its result is -1 or an index of the map. */
  function ScanFrom(m: UnitMap, processSize: int, i: nat, blockSize: int): (r: int)
    requires i <= |m|
    ensures -1 <= r < |m|
    decreases |m| - i
  {
    if i == |m| then -1
    else if !m[i].isAllocated then
      var grown := blockSize + m[i].size;
      if grown >= processSize then i - (if grown != processSize then 0 else 1)
      else ScanFrom(m, processSize, i + 1, grown)
    else ScanFrom(m, processSize, i + 1, 0)
  }

  /** The result of `findFreeBlockFirstFit` on map m. */
  function FirstFit(m: UnitMap, processSize: int): int {
    ScanFrom(m, processSize, 0, 0)
  }

  /** The loop of `findFreeBlockFirstFit`, returning early from
      inside it. The map is a value, so the search cannot change it. */
  method FindFreeBlockFirstFit(m: UnitMap, processSize: int) returns (r: int)
    ensures -1 <= r < |m|
    ensures r == FirstFit(m, processSize)
  {
    var blockSize := 0;
    var i := 0;
    while i < |m|
      invariant 0 <= i <= |m|
      invariant ScanFrom(m, processSize, i, blockSize) == FirstFit(m, processSize)
    {
      if !m[i].isAllocated {
        blockSize := blockSize + m[i].size;
        if blockSize >= processSize {
          return i - (if blockSize != processSize then 0 else 1);
        }
      } else {
        blockSize := 0;
      }
      i := i + 1;
    }
    return -1;
  }

  /** A run of n >= 1 consecutive free units ends at unit e. */
  predicate RunEndsAt(m: UnitMap, e: int, n: int) {
    n >= 1 && 0 <= e < |m| && FreeRange(m, e + 1 - n, e + 1)
  }

  /** The number of consecutive free units immediately before unit i. */
  function FreeRunBefore(m: UnitMap, i: nat): nat
    requires i <= |m|
  {
    if i == 0 || m[i - 1].isAllocated then 0 else FreeRunBefore(m, i - 1) + 1
  }

  /** The free run before unit i is at least n long exactly when the n units
      before i are free. */
  lemma {:induction false} FreeRunBeforeIsFreeRange(m: UnitMap, i: nat, n: nat)
    requires n <= i <= |m|
    ensures FreeRunBefore(m, i) >= n <==> FreeRange(m, i - n, i)
  {
    if n == 0 {
    } else if m[i - 1].isAllocated {
      assert !FreeRange(m, i - n, i);
    } else {
      FreeRunBeforeIsFreeRange(m, i - 1, n - 1);
    }
  }

  lemma {:induction false} FreeRunBeforeAtMost(m: UnitMap, i: nat)
    requires i <= |m|
    ensures FreeRunBefore(m, i) <= i
  {
    if i > 0 && !m[i - 1].isAllocated {
      FreeRunBeforeAtMost(m, i - 1);
    }
  }

  /** A run of n units ends at e exactly when the free run up to e is at least n long. */
  lemma RunEndsAtIsFreeRun(m: UnitMap, e: int, n: int)
    requires n >= 1 && 0 <= e < |m|
    ensures RunEndsAt(m, e, n) <==> FreeRunBefore(m, e + 1) >= n
  {
    if e + 1 >= n {
      FreeRunBeforeIsFreeRange(m, e + 1, n);
    } else {
      FreeRunBeforeAtMost(m, e + 1);
    }
  }

  /** The scan from unit i, entered with the count of free units just before
      i and no fitting run ended yet, returns e - 1 for the lowest end e of a
      fitting run at or after i, and -1 when there is none. */
  lemma {:induction false} ScanFromFindsLowestRunEnd(m: UnitMap, n: int, i: nat)
    requires UnitSizesOne(m) && n >= 1 && i <= |m|
    requires FreeRunBefore(m, i) < n
    ensures (forall e :: i <= e < |m| ==> !RunEndsAt(m, e, n)) ==> ScanFrom(m, n, i, FreeRunBefore(m, i)) == -1
    ensures forall e :: i <= e < |m| && RunEndsAt(m, e, n) && (forall e' :: i <= e' < e ==> !RunEndsAt(m, e', n)) ==>
              ScanFrom(m, n, i, FreeRunBefore(m, i)) == e - 1
    decreases |m| - i
  {
    if i < |m| {
      RunEndsAtIsFreeRun(m, i, n);
      var bs := FreeRunBefore(m, i);
      assert FreeRunBefore(m, i + 1) == if m[i].isAllocated then 0 else bs + 1;
      if !m[i].isAllocated && bs + 1 >= n {
        assert RunEndsAt(m, i, n);
        assert ScanFrom(m, n, i, bs) == i - 1;
      } else {
        assert !RunEndsAt(m, i, n);
        assert ScanFrom(m, n, i, bs) == ScanFrom(m, n, i + 1, FreeRunBefore(m, i + 1));
        ScanFromFindsLowestRunEnd(m, n, i + 1);
      }
    }
  }

  /** First fit as written, for a request of n >= 1 units on a map of size-1
      units: with no run of n free units the result is -1; otherwise the
      result plus one is the end of a run of n free units and no such run
      ends at or before the result. */
  lemma FirstFitLowestRunEnd(m: UnitMap, n: int)
    requires UnitSizesOne(m) && n >= 1
    ensures (forall e :: !RunEndsAt(m, e, n)) ==> FirstFit(m, n) == -1
    ensures (exists e :: RunEndsAt(m, e, n)) ==>
              RunEndsAt(m, FirstFit(m, n) + 1, n) &&
              forall e :: 0 <= e <= FirstFit(m, n) ==> !RunEndsAt(m, e, n)
  {
    ScanFromFindsLowestRunEnd(m, n, 0);
    if e :| RunEndsAt(m, e, n) {
      var lowest := LowestRunEnd(m, n, e);
      assert FirstFit(m, n) == lowest - 1;
    }
  }

  /** Some run end at or below e that no lower run end precedes. */
  lemma {:induction false} LowestRunEnd(m: UnitMap, n: int, e: int) returns (lowest: int)
    requires RunEndsAt(m, e, n)
    ensures 0 <= lowest <= e && RunEndsAt(m, lowest, n)
    ensures forall e' :: 0 <= e' < lowest ==> !RunEndsAt(m, e', n)
    decreases e
  {
    if e' :| 0 <= e' < e && RunEndsAt(m, e', n) {
      lowest := LowestRunEnd(m, n, e');
    } else {
      lowest := e;
    }
  }

  /** With a request of two units the search as written does return the
      start of the lowest pair of adjacent free units, and -1 when there is
      no such pair. */
  lemma FirstFitPairStart(m: UnitMap)
    requires UnitSizesOne(m)
    ensures FirstFit(m, 2) == -1 <==> forall s :: !FreeWindow(m, s, 2)
    ensures FirstFit(m, 2) != -1 ==>
              FreeWindow(m, FirstFit(m, 2), 2) && forall s :: 0 <= s < FirstFit(m, 2) ==> !FreeWindow(m, s, 2)
  {
    FirstFitLowestRunEnd(m, 2);
    forall s
      ensures FreeWindow(m, s, 2) <==> RunEndsAt(m, s + 1, 2)
    {
    }
    forall e
      ensures RunEndsAt(m, e, 2) <==> FreeWindow(m, e - 1, 2)
    {
    }
  }

  /** The scan from unit i with an empty count and a request of at most zero
      units stops at the first free unit at or after i. */
  lemma {:induction false} ScanFromFirstFree(m: UnitMap, n: int, i: nat)
    requires UnitSizesOne(m) && n <= 0 && i <= |m|
    ensures var r := ScanFrom(m, n, i, 0);
      (r == -1 ==> forall k :: i <= k < |m| ==> m[k].isAllocated) &&
      (r != -1 ==> i <= r && !m[r].isAllocated && forall k :: i <= k < r ==> m[k].isAllocated)
    decreases |m| - i
  {
    if i < |m| && m[i].isAllocated {
      ScanFromFirstFree(m, n, i + 1);
    }
  }

  /** With a request of at most zero units the search returns the first free
      unit, and -1 when every unit is allocated. */
  lemma FirstFitNonPositiveSize(m: UnitMap, n: int)
    requires UnitSizesOne(m) && n <= 0
    ensures FirstFit(m, n) == -1 <==> AllAllocated(m)
    ensures FirstFit(m, n) != -1 ==>
              !m[FirstFit(m, n)].isAllocated && forall k :: 0 <= k < FirstFit(m, n) ==> m[k].isAllocated
  {
    ScanFromFirstFree(m, n, 0);
  }
}
