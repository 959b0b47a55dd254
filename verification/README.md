# First-fit unit allocator — a Dafny model

This project models the allocator of a small memory-allocation simulator written in C
(`ggg.c`). Memory is a fixed array of `numUnits` units. Each unit is a `MemoryBlock` with a
`size` and an `allocated` flag. A table of processes records each process's requested size
in units and whether the process is allocated. The model covers the following:

- **Unit map** (module `Units`, `units.dfy`). `initializeMemory` gives every unit size 1 and
  makes it free. Helper functions mark a range allocated or mark the whole map free.
- **First-fit search** (module `Search`, `search.dfy`). This is `findFreeBlockFirstFit`
  exactly as written: a left-to-right scan that keeps a running count of consecutive free
  units and resets it at an allocated unit. When the count reaches the request at unit `i`,
  the scan returns `i` if the count overshoots and `i - 1` if it matches. With size-1 units
  and a request of `n >= 1`, the count matches at the last unit `e` of the lowest run of `n`
  free units, so the search returns `e - 1`. That is the start of the run only when `n == 2`.
  The scan is proved against an independent definition in terms of runs of free units.
- **Allocation and deallocation** (module `Allocator`, `allocator.dfy`). `allocateMemory`
  marks `[b, b + size)` and sets the process's flag. It never checks that `b + size` stays
  within the map. A write past the last unit is C undefined behaviour; the model gives it the
  explicit outcome `OutOfBounds`. `deallocateMemory` frees every unit of the map and clears
  only the named process's flag.
- **Menu dispatch** (module `Menu`, `menu.dfy`). Cases 1 and 2 of the menu `switch` check
  the 1-based process index before they dispatch. Every other choice leaves the state
  unchanged, and choice 5 ends the loop. A run of commands keeps every unit at size 1 and
  every process at its requested size.
- **Corrected search** (module `Corrected`, `corrected.dfy`). This is a clearly separate
  variant that returns the start of the lowest fitting run, as the code's comment and its
  "from unit .. to unit .." message describe. It goes with the Findings row below. The
  menu model does not use it: the menu model follows the code as written.

The C functions take the map by pointer. The model passes the map as a value and returns
the new map, so "the search does not change the map" holds by construction. Methods with
loops (`InitializeMemory`, `FindFreeBlockFirstFit`, `AllocateMemory`, `DeallocateMemory`)
follow the C loops and are specified against the pure functions the lemmas reason about.

The code returns no error values. It only prints its failures (ggg.c:63, 140, 149, 164),
and the model leaves that output out with the rest of the console I/O. A non-positive size
is searched for like any other. Allocating a process that is already allocated runs the
search again. Deallocating frees the whole map, not only the named process's units. An
out-of-range index at the menu leaves the state as it is. The search returns `e - 1`, not
the start of the run.

## Model

| member | source | states |
|---|---|---|
| `Units.InitializeMemory` | ggg.c:19-24 | Whatever the slots held before, every unit of the map ends up with size 1 and free, and the map keeps its length |
| `Search.ScanFrom` | ggg.c:37-50 | For any unit sizes and any request, the scan's result is -1 or an index of the map (`-1 <= r < numUnits`) |
| `Search.FindFreeBlockFirstFit` | ggg.c:37-50 | The loop with its early return computes the scan's result, which lies in `[-1, numUnits - 1]` |
| `Search.FreeRunBeforeIsFreeRange` | ggg.c:40-47 | The running count kept before unit `i` is at least `n` exactly when the `n` units before `i` are all free |
| `Search.ScanFromFindsLowestRunEnd` | ggg.c:39-49 | Started with the true running count at any unit, the scan returns one below the lowest end of a run of `n` free units at or after that unit, or -1 if no such run exists |
| `Search.FirstFitLowestRunEnd` | ggg.c:39-49 | On size-1 units with `n >= 1`: no run of `n` free units gives -1; otherwise result + 1 ends such a run and no such run ends at or before the result (so unit 0 ending the first run gives -1) |
| `Search.FirstFitPairStart` | ggg.c:42-43 | For a request of 2, the result is -1 exactly when no two adjacent units are free, and otherwise it is the start of the lowest free pair |
| `Search.FirstFitNonPositiveSize` | ggg.c:42-43 | For a request of at most 0, the result is -1 exactly when every unit is allocated, and otherwise it is the first free unit |
| `Allocator.AllocateMemory` | ggg.c:53-65 | A failed search leaves map and process unchanged. A found `b` within bounds allocates exactly units `[b, b + size)`, keeps every size, and sets only the process's flag. A range past the map is an out-of-bounds write |
| `Allocator.DeallocateMemory` | ggg.c:68-76 | Every unit ends up free whichever process is named, sizes are kept, and only the named process's flag is cleared |
| `Allocator.AllocatePreservesSizes` | ggg.c:53-76 | Neither operation changes the map's length, any unit's size, or the process's requested size |
| `Allocator.AllocateSizeOneLeavesMap` | ggg.c:42-59 | A request of 1 never changes the map. It fails exactly when every unit is allocated or unit 0 is free; otherwise only the process flag is set |
| `Allocator.AllocatePairMarksFreePair` | ggg.c:42-59 | A successful request of 2 stays within the map. It allocates exactly the lowest pair of adjacent free units, both of which were free, and nothing else |
| `Allocator.AllocateSkipsWindowStart` | ggg.c:42-59 | For any satisfied request of 3 or more units, the lowest free window starts `size - 2` units below the returned `b`. Allocation leaves that window's first unit free, and it writes past the map exactly when `b + size > numUnits` |
| `Allocator.AllocateOverrunExample` | ggg.c:56-57 | With three free units and a request of 3, the search returns 1 and the marking loop writes past the last unit |
| `Allocator.AllocateOverlapExample` | ggg.c:56-57 | With units free, free, free, allocated and a request of 3, unit 0 stays free and the already-allocated unit 3 is claimed again |
| `Allocator.AllocateSingleUnitFailsExample` | ggg.c:54-63 | With one free unit and a request of 1, allocation fails although all of memory is free |
| `Allocator.DeallocateIdempotent` | ggg.c:68-76 | Deallocating a second time changes nothing |
| `Menu.Setup` | ggg.c:102-122 | The initial state has `numUnits` free units of size 1, and each process has the size read for it and is not allocated |
| `Menu.Step` | ggg.c:135-165 | A choice other than 1 or 2, or an index outside `[1, numProcesses]`, changes nothing. Otherwise only `processes[index - 1]` can change, and no unit size, requested size or table length changes |
| `Menu.AllocateStep` | ggg.c:136-144 | For a valid index, choice 1 acts on that process: a failed search changes nothing; an in-bounds range marks exactly `[b, b + size)` and sets that process's flag; an overrun is an out-of-bounds write |
| `Menu.DeallocateStepClearsAll` | ggg.c:145-153 | For a valid index, choice 2 frees every unit and clears that process's flag only. Other processes keep their flags although their units are freed, and repeating the step changes nothing |
| `Menu.RunPreservesSizes` | ggg.c:124-166 | Over any sequence of commands, map and table keep their lengths, every unit its size, and every process its requested size |
| `Menu.RunFromSetupKeepsUnitSizesOne` | ggg.c:102-166 | From the initial state, "every unit has size 1" holds after any sequence of commands |
| `Corrected.FirstFitStartLowest` | ggg.c:36-50 | The corrected search returns -1 exactly when no `n` consecutive units are free, and otherwise the lowest `s` with `[s, s + n)` free |
| `Corrected.AllocateCorrectedClaimsFreeWindow` | ggg.c:52-61 | The corrected allocation rejects non-positive sizes, and fails for lack of memory exactly when no window fits. When it succeeds it stays within the map and allocates exactly the lowest free window |
| `Corrected.OffByOneExample` | ggg.c:43 | With four free units and a request of 3, the code answers 1 where the free window starts at 0 |

## Left out

- Console input and output are not modelled. This covers every `printf` and `scanf`, the
  menu prompts, and the two display functions (ggg.c:27-34, 79-86); none of them changes
  state. Inputs that are read become parameters: `numUnits`, the process sizes, and each
  command's choice and index.
- `malloc`/`free` and the exits on allocation failure (ggg.c:96-100, 108-113, 168-169) are
  C runtime plumbing. The map and the process table are sequences of the right length.
- The computation `numUnits = memorySize / unitSize` (ggg.c:95) is not modelled. It is
  undefined when `unitSize` is 0. The model takes any `numUnits >= 0`.
- Process names (`char name[20]`, read with an unbounded `%s`) are not modelled. They do
  not affect the logic.
- 32-bit `int` arithmetic is not modelled; the model uses unbounded integers. The running
  count never exceeds `numUnits`. Only `blockIndex + process->size` could overflow, and
  only for maps of more than about 2^30 units.
- Behaviour the code does not have is not part of the model of the code: freeing only the
  process's own range, recording a start index, refusing to allocate an allocated process,
  and refusing to free an unallocated one. The only corrected variant is the separately
  labelled `Corrected` module.

## Findings

| source | as written | input that shows it | evidently intended | confidence | as-written member | corrected member |
|---|---|---|---|---|---|---|
| ggg.c:43 | returns `i - 1` when the count equals the request, that is, one below the end of the lowest fitting run; `allocateMemory` then marks `[i - 1, i - 1 + size)` without a bounds check | four free units, request 3: the result is 1, not 0. Three free units, request 3: the loop writes unit index 3, past the map. One free unit, request 1: -1, "insufficient memory" | return the first unit of the run, `i - processSize + 1`, so that the marked range is the free run itself | high; not executed | `Allocator.AllocateSkipsWindowStart` | `Corrected.AllocateCorrectedClaimsFreeWindow` |
