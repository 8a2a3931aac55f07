/** resources.go and scoring.go: guarded placement of work on a cell, and the scores that rank cells. */
module Placement {
  import opened Decimal
  import opened Auction

  datatype Resources = Resources(memoryMB: int, diskMB: int, containers: int)

  /** The parts of a CellState that placement reads and writes. */
  datatype Cell = Cell(available: Resources, total: Resources, starting: int, lrps: seq<LRP>, tasks: seq<Task>)

  datatype Placed = PlacedLRP(lrp: LRP) | PlacedTask(task: Task)
  {
    function Resource(): (r: Auction.Resource) { if PlacedLRP? then lrp.resource else task.resource }
  }

  datatype Problem = Disk | Memory | Containers

  predicate Valid(r: Resource) { r.diskMB >= 0 && r.memoryMB >= 0 }

  predicate Int32Resource(r: Resource) { IsInt32(r.memoryMB) && IsInt32(r.diskMB) }

  predicate Int32Resources(r: Resources) { IsInt32(r.memoryMB) && IsInt32(r.diskMB) }

  /** Resources.Subtract: the megabyte fields are int32 and wrap. */
  function Subtract(a: Resources, r: Resource): (a': Resources) {
    Resources(Wrap32(a.memoryMB - r.memoryMB), Wrap32(a.diskMB - r.diskMB), a.containers - 1)
  }

  function Problems(a: Resources, r: Resource): (p: set<Problem>) {
    (if a.diskMB < r.diskMB then {Disk} else {}) +
    (if a.memoryMB < r.memoryMB then {Memory} else {}) +
    (if a.containers < 1 then {Containers} else {})
  }

  function Place(c: Cell, p: Placed): (c': Cell) {
    var c' := c.(available := Subtract(c.available, p.Resource()), starting := c.starting + 1);
    if p.PlacedLRP? then c'.(lrps := c.lrps + [p.lrp]) else c'.(tasks := c.tasks + [p.task])
  }

  class CellState {
    var available: Resources
    const total: Resources
    var starting: int
    var lrps: seq<LRP>
    var tasks: seq<Task>

    constructor (available: Resources, total: Resources, starting: int, lrps: seq<LRP>, tasks: seq<Task>)
      ensures Value() == Cell(available, total, starting, lrps, tasks)
    {
      this.available, this.total, this.starting, this.lrps, this.tasks := available, total, starting, lrps, tasks;
    }

    function Value(): (c: Cell)
      reads this
    {
      Cell(available, total, starting, lrps, tasks)
    }

    method ResourceMatch(r: Resource) returns (problems: set<Problem>)
      ensures problems == {} <==> r.diskMB <= available.diskMB && r.memoryMB <= available.memoryMB && available.containers >= 1
      ensures Disk in problems <==> available.diskMB < r.diskMB
      ensures Memory in problems <==> available.memoryMB < r.memoryMB
      ensures Containers in problems <==> available.containers < 1
      ensures problems == Problems(available, r)
    {
      problems := {};
      if available.diskMB < r.diskMB {
        problems := problems + {Disk};
      }
      if available.memoryMB < r.memoryMB {
        problems := problems + {Memory};
      }
      if available.containers < 1 {
        problems := problems + {Containers};
      }
    }

    method AddLRP(lrp: LRP)
      modifies this
      ensures Value() == Place(old(Value()), PlacedLRP(lrp))
    {
      available := Subtract(available, lrp.resource);
      starting := starting + 1;
      lrps := lrps + [lrp];
    }

    method AddTask(task: Task)
      modifies this
      ensures Value() == Place(old(Value()), PlacedTask(task))
    {
      available := Subtract(available, task.resource);
      starting := starting + 1;
      tasks := tasks + [task];
    }
  }

  // ---------------------------------------------------------------- guarded accounting

  function PlaceAll(c: Cell, ps: seq<Placed>): (c': Cell) {
    if ps == [] then c else Place(PlaceAll(c, ps[..|ps| - 1]), ps[|ps| - 1])
  }

  predicate GuardedStep(c: Cell, p: Placed) {
    Valid(p.Resource()) && Int32Resource(p.Resource()) && Problems(c.available, p.Resource()) == {}
  }

  /** Every placement follows a successful ResourceMatch of a valid resource. */
  predicate Guarded(c: Cell, ps: seq<Placed>) {
    forall i :: 0 <= i < |ps| ==> GuardedStep(PlaceAll(c, ps[..i]), ps[i])
  }

  function PlacedMemory(ps: seq<Placed>): (n: int) {
    if ps == [] then 0 else PlacedMemory(ps[..|ps| - 1]) + ps[|ps| - 1].Resource().memoryMB
  }

  function PlacedDisk(ps: seq<Placed>): (n: int) {
    if ps == [] then 0 else PlacedDisk(ps[..|ps| - 1]) + ps[|ps| - 1].Resource().diskMB
  }

  function LRPsOf(ps: seq<Placed>): (s: seq<LRP>) {
    if ps == [] then []
    else LRPsOf(ps[..|ps| - 1]) + if ps[|ps| - 1].PlacedLRP? then [ps[|ps| - 1].lrp] else []
  }

  function TasksOf(ps: seq<Placed>): (s: seq<Task>) {
    if ps == [] then []
    else TasksOf(ps[..|ps| - 1]) + if ps[|ps| - 1].PlacedTask? then [ps[|ps| - 1].task] else []
  }

  lemma GuardedStepExact(c: Cell, p: Placed)
    requires Int32Resources(c.available) && GuardedStep(c, p)
    ensures var a := Place(c, p).available;
            && a == Resources(c.available.memoryMB - p.Resource().memoryMB, c.available.diskMB - p.Resource().diskMB, c.available.containers - 1)
            && 0 <= a.memoryMB <= c.available.memoryMB && 0 <= a.diskMB <= c.available.diskMB && 0 <= a.containers
            && Int32Resources(a)
  {
    var a, r := c.available, p.Resource();
    assert Disk !in Problems(a, r) && Memory !in Problems(a, r) && Containers !in Problems(a, r);
  }

  lemma GuardedPrefix(c: Cell, ps: seq<Placed>)
    requires ps != [] && Guarded(c, ps)
    ensures Guarded(c, ps[..|ps| - 1]) && GuardedStep(PlaceAll(c, ps[..|ps| - 1]), ps[|ps| - 1])
  {
    var front := ps[..|ps| - 1];
    forall i | 0 <= i < |front| ensures GuardedStep(PlaceAll(c, front[..i]), front[i]) {
      assert front[..i] == ps[..i];
    }
  }

  lemma {:induction false} GuardedAmounts(c: Cell, ps: seq<Placed>)
    requires Int32Resources(c.available) && Guarded(c, ps)
    ensures var a := PlaceAll(c, ps).available;
            && a.memoryMB + PlacedMemory(ps) == c.available.memoryMB
            && a.diskMB + PlacedDisk(ps) == c.available.diskMB
            && a.containers + |ps| == c.available.containers
            && (ps != [] ==> a.memoryMB >= 0 && a.diskMB >= 0 && a.containers >= 0)
            && Int32Resources(a)
  {
    if ps != [] {
      var front := ps[..|ps| - 1];
      GuardedPrefix(c, ps);
      GuardedAmounts(c, front);
      GuardedStepExact(PlaceAll(c, front), ps[|ps| - 1]);
    }
  }

  lemma {:induction false} PlacedLists(c: Cell, ps: seq<Placed>)
    ensures var c' := PlaceAll(c, ps);
            && c'.starting == c.starting + |ps| && c'.total == c.total
            && c'.lrps == c.lrps + LRPsOf(ps) && c'.tasks == c.tasks + TasksOf(ps)
            && |LRPsOf(ps)| + |TasksOf(ps)| == |ps|
  {
    if ps != [] {
      PlacedLists(c, ps[..|ps| - 1]);
    }
  }

  /** Over any sequence of guarded placements: what is available plus what was placed is what there
      was, in every dimension and without wrap-around; nothing goes negative; and the cell lists
      exactly the placed work, in order, and counts each item once as starting. */
  lemma GuardedAccounting(c: Cell, ps: seq<Placed>)
    requires Int32Resources(c.available) && Guarded(c, ps)
    ensures var c' := PlaceAll(c, ps);
            && c'.available == Resources(c.available.memoryMB - PlacedMemory(ps), c.available.diskMB - PlacedDisk(ps), c.available.containers - |ps|)
            && (ps != [] ==> c'.available.memoryMB >= 0 && c'.available.diskMB >= 0 && c'.available.containers >= 0)
            && c'.starting == c.starting + |ps| && c'.total == c.total
            && c'.lrps == c.lrps + LRPsOf(ps) && c'.tasks == c.tasks + TasksOf(ps)
            && |LRPsOf(ps)| + |TasksOf(ps)| == |ps|
  {
    GuardedAmounts(c, ps);
    PlacedLists(c, ps);
  }

  /** A matched but invalid resource is another matter: the subtraction is exact if and only if it
      does not run over the top of int32. */
  lemma MatchedSubtractExactIff(a: Resources, r: Resource)
    requires Int32Resources(a) && Int32Resource(r) && Problems(a, r) == {}
    ensures Subtract(a, r) == Resources(a.memoryMB - r.memoryMB, a.diskMB - r.diskMB, a.containers - 1) <==>
            a.memoryMB - MAX_INT32 <= r.memoryMB && a.diskMB - MAX_INT32 <= r.diskMB
  {
    assert Disk !in Problems(a, r) && Memory !in Problems(a, r);
  }

  /** A negative request that matches and wraps the available memory round to its minimum. */
  lemma NegativeResourceWraps()
    ensures var a, r := Resources(MAX_INT32, 0, 1), Resource(-1, 0, 0);
            Problems(a, r) == {} && Subtract(a, r).memoryMB == MIN_INT32
  {
    assert Wrap32(MAX_INT32 + 1) == MIN_INT32;
  }

  // ---------------------------------------------------------------- scores

  function Fraction(n: int, total: int): (f: real)
    requires total > 0
  {
    n as real / total as real
  }

  predicate PositiveTotal(t: Resources) { t.memoryMB > 0 && t.diskMB > 0 && t.containers > 0 }

  /** Resources.ComputeScore, over the reals. */
  function UsedScore(r: Resources, t: Resources): (score: real)
    requires PositiveTotal(t)
  {
    var usedMemory := 1.0 - Fraction(r.memoryMB, t.memoryMB);
    var usedDisk := 1.0 - Fraction(r.diskMB, t.diskMB);
    var usedContainers := 1.0 - Fraction(r.containers, t.containers);
    (usedMemory + usedDisk + usedContainers) / 3.0
  }

  function FreeScore(r: Resources, t: Resources): (score: real)
    requires PositiveTotal(t)
  {
    var memory := Fraction(r.memoryMB, t.memoryMB);
    var disk := Fraction(r.diskMB, t.diskMB);
    var containers := Fraction(r.containers, t.containers) * 3.0;
    (memory + disk + containers) / 5.0
  }

  /** computeScore: spread work; a lower score is a better cell. */
  function WorstFit(c: Cell, r: Resource, weight: real): (score: real)
    requires PositiveTotal(c.total)
  {
    UsedScore(Subtract(c.available, r), c.total) + c.starting as real * weight
  }

  /** bestFit: pack work; the weight of starting containers is ignored. */
  function BestFit(c: Cell, r: Resource, weight: real): (score: real)
    requires PositiveTotal(c.total)
  {
    FreeScore(Subtract(c.available, r), c.total)
  }

  /** Both scores, spelled out in what is available, asked for and there in all, wherever the
      subtraction stays within int32. */
  lemma ScoreFormulas(c: Cell, r: Resource, weight: real)
    requires PositiveTotal(c.total) && IsInt32(c.available.memoryMB - r.memoryMB) && IsInt32(c.available.diskMB - r.diskMB)
    ensures var a, t := c.available, c.total;
            var memory := (a.memoryMB - r.memoryMB) as real / t.memoryMB as real;
            var disk := (a.diskMB - r.diskMB) as real / t.diskMB as real;
            var slots := (a.containers - 1) as real / t.containers as real;
            && WorstFit(c, r, weight) == 1.0 - (memory + disk + slots) / 3.0 + c.starting as real * weight
            && BestFit(c, r, weight) == (memory + disk + 3.0 * slots) / 5.0
  {
  }

  predicate WithinTotal(r: Resources, t: Resources) {
    0 <= r.memoryMB <= t.memoryMB && 0 <= r.diskMB <= t.diskMB && 0 <= r.containers <= t.containers
  }

  lemma FractionBounds(n: int, total: int)
    requires total > 0 && 0 <= n <= total
    ensures 0.0 <= Fraction(n, total) <= 1.0
  {
  }

  lemma FractionMinus(n: int, m: int, total: int)
    requires total > 0
    ensures Fraction(n - m, total) == Fraction(n, total) - Fraction(m, total)
  {
  }

  /** The resource part of a score lies between 0 and 1 exactly when its shares add up to something
      between none and all of the cell, for whatever is left over, overdrawn or not; so it does when
      what is left is within the cell, and an empty cell scores 0 and 1. */
  lemma ScoreBounds(r: Resources, t: Resources)
    requires PositiveTotal(t)
    ensures var memory, disk, slots := Fraction(r.memoryMB, t.memoryMB), Fraction(r.diskMB, t.diskMB), Fraction(r.containers, t.containers);
            && (0.0 <= UsedScore(r, t) <= 1.0 <==> 0.0 <= memory + disk + slots <= 3.0)
            && (0.0 <= FreeScore(r, t) <= 1.0 <==> 0.0 <= memory + disk + 3.0 * slots <= 5.0)
    ensures WithinTotal(r, t) ==> 0.0 <= UsedScore(r, t) <= 1.0 && 0.0 <= FreeScore(r, t) <= 1.0
    ensures r == t ==> UsedScore(r, t) == 0.0 && FreeScore(r, t) == 1.0
  {
    if WithinTotal(r, t) {
      WithinShares(r, t);
    }
    FractionWhole(t.memoryMB);
    FractionWhole(t.diskMB);
    FractionWhole(t.containers);
  }

  lemma WithinShares(r: Resources, t: Resources)
    requires PositiveTotal(t) && WithinTotal(r, t)
    ensures 0.0 <= Fraction(r.memoryMB, t.memoryMB) <= 1.0
    ensures 0.0 <= Fraction(r.diskMB, t.diskMB) <= 1.0
    ensures 0.0 <= Fraction(r.containers, t.containers) <= 1.0
  {
    FractionBounds(r.memoryMB, t.memoryMB);
    FractionBounds(r.diskMB, t.diskMB);
    FractionBounds(r.containers, t.containers);
  }

  lemma FractionWhole(total: int)
    requires total > 0
    ensures Fraction(total, total) == 1.0
  {
  }

  /** What a placement does to the resources a probe would leave. */
  lemma ProbeAfterPlacement(c: Cell, p: Placed, probe: Resource)
    requires Int32Resources(c.available) && GuardedStep(c, p) && Valid(probe) && Int32Resource(probe)
    ensures var before, after, r := Subtract(c.available, probe), Subtract(Place(c, p).available, probe), p.Resource();
            after == Resources(before.memoryMB - r.memoryMB, before.diskMB - r.diskMB, before.containers - 1)
  {
    GuardedStepExact(c, p);
  }

  /** A guarded placement moves the two scores of every later probe in opposite directions, by
      exactly the placed share of the cell. */
  lemma PlacementMovesScores(c: Cell, p: Placed, probe: Resource, weight: real)
    requires PositiveTotal(c.total) && Int32Resources(c.available) && GuardedStep(c, p) && Valid(probe) && Int32Resource(probe)
    ensures var c', t, r := Place(c, p), c.total, p.Resource();
            var memory, disk, slot := Fraction(r.memoryMB, t.memoryMB), Fraction(r.diskMB, t.diskMB), Fraction(1, t.containers);
            && memory >= 0.0 && disk >= 0.0 && slot > 0.0
            && WorstFit(c', probe, weight) == WorstFit(c, probe, weight) + (memory + disk + slot) / 3.0 + weight
            && BestFit(c', probe, weight) == BestFit(c, probe, weight) - (memory + disk + 3.0 * slot) / 5.0
  {
    ProbeAfterPlacement(c, p, probe);
    var before, t, r := Subtract(c.available, probe), c.total, p.Resource();
    FractionMinus(before.memoryMB, r.memoryMB, t.memoryMB);
    FractionMinus(before.diskMB, r.diskMB, t.diskMB);
    FractionMinus(before.containers, 1, t.containers);
    NonNegative(r.memoryMB, t.memoryMB);
    NonNegative(r.diskMB, t.diskMB);
    NonNegative(1, t.containers);
    OneMoreStarting(c.starting, weight);
  }

  lemma OneMoreStarting(n: int, weight: real)
    ensures (n + 1) as real * weight == n as real * weight + weight
  {
  }

  lemma NonNegative(n: int, total: int)
    requires total > 0 && n >= 0
    ensures Fraction(n, total) >= 0.0 && (n > 0 ==> Fraction(n, total) > 0.0)
  {
  }

  /** One guarded placement: the scores move apart by at least a third and three fifths of a slot. */
  lemma PlacementMovesApart(c: Cell, p: Placed, probe: Resource, weight: real)
    requires PositiveTotal(c.total) && Int32Resources(c.available) && GuardedStep(c, p)
    requires Valid(probe) && Int32Resource(probe) && weight >= 0.0
    ensures Fraction(1, c.total.containers) > 0.0
    ensures WorstFit(Place(c, p), probe, weight) >= WorstFit(c, probe, weight) + Fraction(1, c.total.containers) / 3.0
    ensures BestFit(Place(c, p), probe, weight) <= BestFit(c, probe, weight) - 3.0 * Fraction(1, c.total.containers) / 5.0
  {
    PlacementMovesScores(c, p, probe, weight);
  }

  /** After any number of guarded placements the worst-fit score of a probe has risen by at least a
      third of a slot for each, and the best-fit score has fallen by at least three fifths. */
  lemma {:induction false} ScoresMoveApart(c: Cell, ps: seq<Placed>, probe: Resource, weight: real)
    requires PositiveTotal(c.total) && Int32Resources(c.available) && Guarded(c, ps)
    requires Valid(probe) && Int32Resource(probe) && weight >= 0.0
    ensures PlaceAll(c, ps).total == c.total
    ensures WorstFit(PlaceAll(c, ps), probe, weight) >= WorstFit(c, probe, weight) + Times(|ps|, Fraction(1, c.total.containers) / 3.0)
    ensures BestFit(PlaceAll(c, ps), probe, weight) <= BestFit(c, probe, weight) - Times(|ps|, 3.0 * Fraction(1, c.total.containers) / 5.0)
  {
    if ps != [] {
      var front := ps[..|ps| - 1];
      GuardedPrefix(c, ps);
      GuardedAmounts(c, front);
      ScoresMoveApart(c, front, probe, weight);
      PlacementMovesApart(PlaceAll(c, front), ps[|ps| - 1], probe, weight);
      var slot, before, after := Fraction(1, c.total.containers), PlaceAll(c, front), PlaceAll(c, ps);
      Climbs(WorstFit(c, probe, weight), WorstFit(before, probe, weight), WorstFit(after, probe, weight), |front|, slot / 3.0);
      Climbs(-BestFit(c, probe, weight), -BestFit(before, probe, weight), -BestFit(after, probe, weight), |front|, 3.0 * slot / 5.0);
    }
  }

  function Times(n: nat, x: real): (r: real) { n as real * x }

  lemma Climbs(w0: real, w1: real, w2: real, n: nat, x: real)
    requires w1 >= w0 + Times(n, x) && w2 >= w1 + x
    ensures w2 >= w0 + Times(n + 1, x)
  {
    assert Times(n + 1, x) == Times(n, x) + x;
  }
}
