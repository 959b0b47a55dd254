/**
 The state machine behind the menu loop: the unit map and the process table,
 set up once, then changed by menu choices 1 (allocate) and 2 (deallocate)
 on a 1-based process index that is checked against the table first. Every
 other choice only displays or exits and leaves the state as it is; choice 5
 ends the loop.
 */
module Menu {
  import opened Units
  import opened Search
  import opened Allocator

  /** The whole mutable state of the program. */
  datatype Simulation = Simulation(units: UnitMap, processes: seq<Process>)

  /** One pass of the menu loop: the choice read and, for choices 1 and 2,
      the process index read after it. */
  datatype Command = Command(choice: int, processIndex: int)

  /** The index check of cases 1 and 2. */
  predicate ValidIndex(s: Simulation, processIndex: int) {
    1 <= processIndex <= |s.processes|
  }

  /** Map initialisation followed by the process input loop: every process
      starts unallocated with the size read for it. */
  function Setup(numUnits: nat, sizes: seq<int>): (s: Simulation)
    ensures |s.units| == numUnits && UnitSizesOne(s.units) && AllFree(s.units)
    ensures |s.processes| == |sizes|
    ensures forall j :: 0 <= j < |sizes| ==> s.processes[j].size == sizes[j] && !s.processes[j].isAllocated
  {
    Simulation(Initial(numUnits), seq(|sizes|, j requires 0 <= j < |sizes| => Process(sizes[j], false)))
  }

  /** One pass of the menu `switch`. */
  function Step(s: Simulation, c: Command): (r: Effect<Simulation>)
    ensures (c.choice != 1 && c.choice != 2) || !ValidIndex(s, c.processIndex) ==> r == Defined(s)
    ensures r.Defined? ==>
              && |r.value.units| == |s.units|
              && (forall i :: 0 <= i < |s.units| ==> r.value.units[i].size == s.units[i].size)
              && |r.value.processes| == |s.processes|
              && (forall j :: 0 <= j < |s.processes| ==> r.value.processes[j].size == s.processes[j].size)
              && forall j :: 0 <= j < |s.processes| && j != c.processIndex - 1 ==>
                   r.value.processes[j] == s.processes[j]
  {
    if (c.choice == 1 || c.choice == 2) && ValidIndex(s, c.processIndex) then
      var k := c.processIndex - 1;
      AllocatePreservesSizes(s.units, s.processes[k]);
      if c.choice == 1 then
        match Allocate(s.units, s.processes[k])
        case OutOfBounds => OutOfBounds
        case Defined(pl) => Defined(Simulation(pl.units, s.processes[k := pl.process]))
      else
        var pl := Deallocate(s.units, s.processes[k]);
        Defined(Simulation(pl.units, s.processes[k := pl.process]))
    else
      Defined(s)
  }

  /** The menu loop over a sequence of commands: it stops after choice 5, at
      the end of the input, or at an out-of-bounds write. */
  function Run(s: Simulation, cmds: seq<Command>): Effect<Simulation>
    decreases |cmds|
  {
    if |cmds| == 0 then Defined(s)
    else
      match Step(s, cmds[0])
      case OutOfBounds => OutOfBounds
      case Defined(next) => if cmds[0].choice == 5 then Defined(next) else Run(next, cmds[1..])
  }

  /** Deallocating a valid process frees the whole map, clears that process's
      flag, leaves every other process record as it was (flags included,
      although their units are now free), and repeating it changes nothing. */
  lemma DeallocateStepClearsAll(s: Simulation, processIndex: int)
    requires ValidIndex(s, processIndex)
    ensures var r := Step(s, Command(2, processIndex));
      && r.Defined?
      && AllFree(r.value.units)
      && !r.value.processes[processIndex - 1].isAllocated
      && r.value.processes[processIndex - 1].size == s.processes[processIndex - 1].size
      && (forall j :: 0 <= j < |s.processes| && j != processIndex - 1 ==> r.value.processes[j] == s.processes[j])
      && Step(r.value, Command(2, processIndex)) == r
  {
    var k := processIndex - 1;
    var once := Deallocate(s.units, s.processes[k]);
    DeallocateIdempotent(s.units, s.processes[k]);
    assert once.process == s.processes[k].(isAllocated := false);
    var t := Simulation(once.units, s.processes[k := once.process]);
    assert Step(s, Command(2, processIndex)) == Defined(t);
    assert t.processes[k := once.process] == t.processes;
  }

  /** Allocating a valid process whose search fails changes nothing; when it
      succeeds within the map, exactly the units [b, b + size) become
      allocated and only that process's flag is set. */
  lemma AllocateStep(s: Simulation, processIndex: int)
    requires ValidIndex(s, processIndex)
    ensures var p := s.processes[processIndex - 1];
      var b := FirstFit(s.units, p.size);
      var r := Step(s, Command(1, processIndex));
      && (b == -1 ==> r == Defined(s))
      && (b != -1 && b + p.size > |s.units| ==> r == OutOfBounds)
      && (b != -1 && b + p.size <= |s.units| ==>
            && r.Defined?
            && r.value.processes[processIndex - 1] == p.(isAllocated := true)
            && forall i :: 0 <= i < |s.units| ==>
                 (r.value.units[i].isAllocated <==> s.units[i].isAllocated || b <= i < b + p.size))
  {
    var k := processIndex - 1;
    assert s.processes[k := s.processes[k]] == s.processes;
  }

  /** Whatever commands run, the map keeps its length and every unit its
      size, and the process table keeps its length and every requested size. */
  lemma {:induction false} RunPreservesSizes(s: Simulation, cmds: seq<Command>)
    ensures Run(s, cmds).Defined? ==>
              && |Run(s, cmds).value.units| == |s.units|
              && (forall i :: 0 <= i < |s.units| ==> Run(s, cmds).value.units[i].size == s.units[i].size)
              && |Run(s, cmds).value.processes| == |s.processes|
              && forall j :: 0 <= j < |s.processes| ==> Run(s, cmds).value.processes[j].size == s.processes[j].size
    decreases |cmds|
  {
    if |cmds| > 0 && Step(s, cmds[0]).Defined? && cmds[0].choice != 5 {
      RunPreservesSizes(Step(s, cmds[0]).value, cmds[1..]);
    }
  }

  /** From the initial state, every unit keeps size 1 throughout the run. */
  lemma RunFromSetupKeepsUnitSizesOne(numUnits: nat, sizes: seq<int>, cmds: seq<Command>)
    ensures Run(Setup(numUnits, sizes), cmds).Defined? ==>
              && |Run(Setup(numUnits, sizes), cmds).value.units| == numUnits
              && UnitSizesOne(Run(Setup(numUnits, sizes), cmds).value.units)
              && |Run(Setup(numUnits, sizes), cmds).value.processes| == |sizes|
  {
    RunPreservesSizes(Setup(numUnits, sizes), cmds);
  }
}
