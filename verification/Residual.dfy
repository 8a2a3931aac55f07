/** Residual operations against the BBS: any order, any repetition, one result. */
module Residual {
  import opened Types
  import opened Operations
  import opened Batch

  /** Where the BBS files a record: it keeps one instance and one evacuating record per slot. */
  datatype Slot = Slot(processGuid: string, index: int)

  datatype TaskState = Pending | RunningOn(cellId: string) | CompletedWith(why: FailureReason) | Resolved

  datatype BBS = BBS(
    instances: map<Slot, LRPRecord>,
    evacuating: map<Slot, LRPRecord>,
    tasks: map<Guid, TaskState>)

  function SlotOf(key: LRPKey): (s: Slot) { Slot(key.processGuid, key.index) }

  predicate Active(s: TaskState) { s.Pending? || s.RunningOn? }

  /** A removal takes the record of the slot only if it is for the very instance named. */
  function Remove(m: map<Slot, LRPRecord>, s: Slot, ik: InstanceKey): (m': map<Slot, LRPRecord>) {
    if s in m && m[s].ik == ik then m - {s} else m
  }

  /** A task can be failed until it has completed. */
  function Fail(m: map<Guid, TaskState>, g: Guid, why: FailureReason): (m': map<Guid, TaskState>) {
    if g in m && Active(m[g]) then m[g := CompletedWith(why)] else m
  }

  /** The removals and failures among the Rep's calls, as the BBS carries them out. */
  function Apply(b: BBS, call: Call): (b': BBS) {
    match call
    case RemoveActualLRP(p, i, ik) => b.(instances := Remove(b.instances, Slot(p, i), ik))
    case RemoveEvacuatingActualLRP(key, ik) => b.(evacuating := Remove(b.evacuating, SlotOf(key), ik))
    case FailTask(g, why) => b.(tasks := Fail(b.tasks, g, why))
    case _ => b
  }

  function ApplyAll(b: BBS, calls: seq<Call>): (b': BBS)
    decreases |calls|
  {
    if calls == [] then b else ApplyAll(Apply(b, calls[0]), calls[1..])
  }

  /** A residual operation on a cell whose containers do not change meanwhile. */
  function Execute(b: BBS, containers: set<Guid>, op: Operation): (b': BBS) {
    if op.Subject() in containers then b else ApplyAll(b, Cleanup(op))
  }

  function ExecuteAll(b: BBS, containers: set<Guid>, ops: seq<Operation>): (b': BBS)
    decreases |ops|
  {
    if ops == [] then b else ExecuteAll(Execute(b, containers, ops[0]), containers, ops[1..])
  }

  function Calls(t: seq<Event>): (calls: seq<Call>) {
    seq(|t|, i requires 0 <= i < |t| => t[i].call)
  }

  /** `Execute` is what the calls of the operation itself amount to, whenever its look for the
      container reported the truth. */
  lemma ExecuteIsItsCalls(cfg: Config, b: BBS, containers: set<Guid>, op: Operation, t: seq<Event>)
    requires OpTrace(cfg, op, t) && !op.ContainerOp?
    requires t[0].reply.container.Some? <==> op.Subject() in containers
    ensures ApplyAll(b, Calls(t)) == Execute(b, containers, op)
  {
    var calls := Calls(t);
    assert calls[0] == GetContainer(op.Subject());
    assert ApplyAll(b, calls) == ApplyAll(b, calls[1..]);
    if op.Subject() in containers {
      assert calls[1..] == [];
    } else {
      assert calls[1..] == Cleanup(op) by {
        assert |calls[1..]| == |Cleanup(op)|;
        assert forall i :: 0 <= i < |Cleanup(op)| ==> calls[1..][i] == t[1..][i].call;
      }
    }
  }

  // ---------------------------------------------------------------- the result, described without an order

  predicate RemovesInstance(containers: set<Guid>, op: Operation, s: Slot, ik: InstanceKey) {
    && (op.ResidualInstance? || op.ResidualJoint?)
    && op.Subject() !in containers && SlotOf(op.key) == s && op.ik == ik
  }

  predicate RemovesEvacuating(containers: set<Guid>, op: Operation, s: Slot, ik: InstanceKey) {
    && (op.ResidualEvacuating? || op.ResidualJoint?)
    && op.Subject() !in containers && SlotOf(op.key) == s && op.ik == ik
  }

  ghost predicate InstanceGoes(containers: set<Guid>, ops: set<Operation>, s: Slot, ik: InstanceKey) {
    exists op :: op in ops && RemovesInstance(containers, op, s, ik)
  }

  ghost predicate EvacuatingGoes(containers: set<Guid>, ops: set<Operation>, s: Slot, ik: InstanceKey) {
    exists op :: op in ops && RemovesEvacuating(containers, op, s, ik)
  }

  predicate TaskGoes(containers: set<Guid>, ops: set<Operation>, g: Guid, s: TaskState) {
    ResidualTask(g) in ops && g !in containers && Active(s)
  }

  ghost function After(b: BBS, containers: set<Guid>, ops: set<Operation>): (b': BBS) {
    BBS(
      map s | s in b.instances && !InstanceGoes(containers, ops, s, b.instances[s].ik) :: b.instances[s],
      map s | s in b.evacuating && !EvacuatingGoes(containers, ops, s, b.evacuating[s].ik) :: b.evacuating[s],
      map g | g in b.tasks :: if TaskGoes(containers, ops, g, b.tasks[g]) then CompletedWith(MissingContainer) else b.tasks[g])
  }

  lemma AfterNothing(b: BBS, containers: set<Guid>)
    ensures After(b, containers, {}) == b
  {
  }

  /** The calls of one operation, component by component. */
  lemma CleanupEffect(b: BBS, op: Operation)
    ensures var b' := ApplyAll(b, Cleanup(op));
            && b'.instances == (if op.ResidualInstance? || op.ResidualJoint? then Remove(b.instances, SlotOf(op.key), op.ik) else b.instances)
            && b'.evacuating == (if op.ResidualEvacuating? || op.ResidualJoint? then Remove(b.evacuating, SlotOf(op.key), op.ik) else b.evacuating)
            && b'.tasks == (if op.ResidualTask? then Fail(b.tasks, op.taskGuid, MissingContainer) else b.tasks)
  {
    var calls := Cleanup(op);
    if calls != [] {
      assert ApplyAll(b, calls) == ApplyAll(Apply(b, calls[0]), calls[1..]);
      if |calls| == 1 {
        assert calls[1..] == [];
      } else {
        assert calls[1..] == [RemoveEvacuatingActualLRP(op.key, op.ik)];
        assert calls[1..][1..] == [];
      }
    }
  }

  lemma OnlyOne(containers: set<Guid>, op: Operation, s: Slot, ik: InstanceKey)
    ensures InstanceGoes(containers, {op}, s, ik) <==> RemovesInstance(containers, op, s, ik)
    ensures EvacuatingGoes(containers, {op}, s, ik) <==> RemovesEvacuating(containers, op, s, ik)
  {
    assert op in {op};
  }

  /** One operation does what its description says. */
  lemma ExecuteIsAfter(b: BBS, containers: set<Guid>, op: Operation)
    ensures Execute(b, containers, op) == After(b, containers, {op})
  {
    CleanupEffect(b, op);
    forall s, ik
      ensures InstanceGoes(containers, {op}, s, ik) <==> RemovesInstance(containers, op, s, ik)
      ensures EvacuatingGoes(containers, {op}, s, ik) <==> RemovesEvacuating(containers, op, s, ik)
    {
      OnlyOne(containers, op, s, ik);
    }
    var e, a := Execute(b, containers, op), After(b, containers, {op});
    assert e.instances == a.instances;
    assert e.evacuating == a.evacuating;
    assert e.tasks == a.tasks;
  }

  lemma AfterTwice(b: BBS, containers: set<Guid>, s: set<Operation>, t: set<Operation>)
    ensures After(After(b, containers, s), containers, t) == After(b, containers, s + t)
  {
    var x, y := After(After(b, containers, s), containers, t), After(b, containers, s + t);
    forall sl, ik
      ensures InstanceGoes(containers, s + t, sl, ik) <==> InstanceGoes(containers, s, sl, ik) || InstanceGoes(containers, t, sl, ik)
      ensures EvacuatingGoes(containers, s + t, sl, ik) <==> EvacuatingGoes(containers, s, sl, ik) || EvacuatingGoes(containers, t, sl, ik)
    {
      UnionGoes(containers, s, t, sl, ik);
    }
    assert x.instances == y.instances;
    assert x.evacuating == y.evacuating;
    assert x.tasks == y.tasks;
  }

  lemma UnionGoes(containers: set<Guid>, s: set<Operation>, t: set<Operation>, sl: Slot, ik: InstanceKey)
    ensures InstanceGoes(containers, s + t, sl, ik) <==> InstanceGoes(containers, s, sl, ik) || InstanceGoes(containers, t, sl, ik)
    ensures EvacuatingGoes(containers, s + t, sl, ik) <==> EvacuatingGoes(containers, s, sl, ik) || EvacuatingGoes(containers, t, sl, ik)
  {
    assert forall op :: op in s || op in t <==> op in s + t;
  }

  /** Executing residual operations in any order, each any number of times, yields the state
      described by their set alone. */
  lemma {:induction false} AnyOrder(b: BBS, containers: set<Guid>, ops: seq<Operation>)
    ensures ExecuteAll(b, containers, ops) == After(b, containers, Elements(ops))
    decreases |ops|
  {
    if ops == [] {
      AfterNothing(b, containers);
    } else {
      ExecuteIsAfter(b, containers, ops[0]);
      AnyOrder(Execute(b, containers, ops[0]), containers, ops[1..]);
      AfterTwice(b, containers, {ops[0]}, Elements(ops[1..]));
      assert ops == [ops[0]] + ops[1..];
      assert Elements(ops) == {ops[0]} + Elements(ops[1..]);
    }
  }

  /** Two execution orders of the same operations are indistinguishable. */
  lemma ResidualsCommute(b: BBS, containers: set<Guid>, ops: seq<Operation>, ops': seq<Operation>)
    requires Elements(ops) == Elements(ops')
    ensures ExecuteAll(b, containers, ops) == ExecuteAll(b, containers, ops')
  {
    AnyOrder(b, containers, ops);
    AnyOrder(b, containers, ops');
  }

  // ---------------------------------------------------------------- a whole batch from a quiescent state

  predicate OnCell(cell: string, r: LRPRecord) { r.ik.cellId == cell }

  /** `r` is what the BBS holds in its slot, and it is on the cell. */
  predicate Stored(cell: string, stored: map<Slot, LRPRecord>, r: LRPRecord) {
    OnCell(cell, r) && SlotOf(r.key) in stored && stored[SlotOf(r.key)] == r
  }

  predicate Filed(stored: map<Slot, LRPRecord>) {
    forall s :: s in stored ==> SlotOf(stored[s].key) == s
  }

  ghost predicate ListsInstance(groups: seq<Group>, r: LRPRecord) {
    exists i :: 0 <= i < |groups| && groups[i].instance == Some(r)
  }

  ghost predicate ListsEvacuating(groups: seq<Group>, r: LRPRecord) {
    exists i :: 0 <= i < |groups| && groups[i].evacuating == Some(r)
  }

  /** The groups list exactly the records on the cell, in any order and grouping. Two of them may
      carry the same guid. */
  ghost predicate Complete(cell: string, b: BBS, groups: seq<Group>) {
    && (forall s :: s in b.instances && OnCell(cell, b.instances[s]) ==> ListsInstance(groups, b.instances[s]))
    && (forall s :: s in b.evacuating && OnCell(cell, b.evacuating[s]) ==> ListsEvacuating(groups, b.evacuating[s]))
    && (forall i :: 0 <= i < |groups| && groups[i].instance.Some? ==> Stored(cell, b.instances, groups[i].instance.value))
    && (forall i :: 0 <= i < |groups| && groups[i].evacuating.Some? ==> Stored(cell, b.evacuating, groups[i].evacuating.value))
  }

  /** The listings of records and tasks were taken while nothing moved. */
  ghost predicate Quiescent(cell: string, b: BBS, groups: seq<Group>, tasks: seq<Guid>) {
    && Filed(b.instances) && Filed(b.evacuating)
    && Complete(cell, b, groups)
    && (forall g :: g in tasks <==> g in b.tasks && b.tasks[g] == RunningOn(cell))
  }

  /** `m` holds for every guid on the cell one of the records that carry it. */
  predicate Pictures(cell: string, m: map<Guid, LRPRecord>, stored: map<Slot, LRPRecord>) {
    && (forall s :: s in stored && OnCell(cell, stored[s]) ==> stored[s].Guid() in m)
    && (forall g :: g in m ==> m[g].Guid() == g && Stored(cell, stored, m[g]))
  }

  predicate Pictured(cell: string, b: BBS, snap: Snapshot) {
    && Filed(b.instances) && Filed(b.evacuating)
    && Pictures(cell, snap.instances, b.instances)
    && Pictures(cell, snap.evacuating, b.evacuating)
    && snap.tasks == (set g | g in b.tasks && b.tasks[g] == RunningOn(cell))
  }

  /** What the listing loops make of a quiescent state. */
  lemma ListingPictures(cell: string, b: BBS, containers: seq<Container>, groups: seq<Group>, tasks: seq<Guid>)
    requires Quiescent(cell, b, groups, tasks)
    ensures Pictured(cell, b, Listed(containers, groups, tasks))
  {
    InstancesListed(groups);
    EvacuatingsListed(groups);
    InstancesPicture(cell, b, groups);
    EvacuatingsPicture(cell, b, groups);
  }

  lemma InstancesPicture(cell: string, b: BBS, groups: seq<Group>)
    requires Complete(cell, b, groups)
    ensures Pictures(cell, Instances(groups), b.instances)
  {
    forall s | s in b.instances && OnCell(cell, b.instances[s]) ensures b.instances[s].Guid() in Instances(groups) {
      assert ListsInstance(groups, b.instances[s]);
      var i :| 0 <= i < |groups| && groups[i].instance == Some(b.instances[s]);
      InstanceFiled(groups, i);
    }
    forall g | g in Instances(groups)
      ensures Instances(groups)[g].Guid() == g && Stored(cell, b.instances, Instances(groups)[g])
    {
      var i := InstanceSource(groups, g);
    }
  }

  lemma EvacuatingsPicture(cell: string, b: BBS, groups: seq<Group>)
    requires Complete(cell, b, groups)
    ensures Pictures(cell, Evacuatings(groups), b.evacuating)
  {
    forall s | s in b.evacuating && OnCell(cell, b.evacuating[s]) ensures b.evacuating[s].Guid() in Evacuatings(groups) {
      assert ListsEvacuating(groups, b.evacuating[s]);
      var i :| 0 <= i < |groups| && groups[i].evacuating == Some(b.evacuating[s]);
      EvacuatingFiled(groups, i);
    }
    forall g | g in Evacuatings(groups)
      ensures Evacuatings(groups)[g].Guid() == g && Stored(cell, b.evacuating, Evacuatings(groups)[g])
    {
      var i := EvacuatingSource(groups, g);
    }
  }

  /** An instance record is reached when it is on the cell, has no container and is the one kept
      for its guid. */
  predicate ReachesInstance(cell: string, snap: Snapshot, r: LRPRecord) {
    && OnCell(cell, r) && r.Guid() !in snap.containers
    && r.Guid() in snap.instances && snap.instances[r.Guid()] == r
  }

  /** An evacuating record shares its guid's operation with the instance record kept for that guid,
      if there is one, and is then reached in that record's slot only. */
  predicate ReachesEvacuating(cell: string, snap: Snapshot, s: Slot, r: LRPRecord) {
    && OnCell(cell, r) && r.Guid() !in snap.containers
    && if r.Guid() in snap.instances then SlotOf(snap.instances[r.Guid()].key) == s
       else r.Guid() in snap.evacuating && snap.evacuating[r.Guid()] == r
  }

  predicate ReachesTask(cell: string, snap: Snapshot, g: Guid, state: TaskState) {
    state == RunningOn(cell) && g !in snap.containers && g !in snap.instances && g !in snap.evacuating
  }

  function Residuals(snap: Snapshot): (ops: set<Operation>) {
    set g | g in BatchOf(snap) && g !in snap.containers :: BatchOf(snap)[g]
  }

  lemma BatchHas(snap: Snapshot, g: Guid)
    requires g in Guids(snap) && g !in snap.containers
    ensures OperationFor(snap, g) in Residuals(snap)
  {
    assert g in BatchOf(snap) && BatchOf(snap)[g] == OperationFor(snap, g);
  }

  lemma OperationInBatch(snap: Snapshot, op: Operation) returns (g: Guid)
    requires op in Residuals(snap)
    ensures g in Guids(snap) && g !in snap.containers && op == OperationFor(snap, g)
  {
    g :| g in BatchOf(snap) && g !in snap.containers && op == BatchOf(snap)[g];
  }

  /** Exactly these instance records go. */
  lemma InstanceGoesIff(cell: string, b: BBS, snap: Snapshot, s: Slot)
    requires Pictured(cell, b, snap) && s in b.instances
    ensures InstanceGoes(snap.containers, Residuals(snap), s, b.instances[s].ik) <==> ReachesInstance(cell, snap, b.instances[s])
  {
    var r := b.instances[s];
    if ReachesInstance(cell, snap, r) {
      BatchHas(snap, r.Guid());
      assert RemovesInstance(snap.containers, OperationFor(snap, r.Guid()), s, r.ik);
    }
    forall op | op in Residuals(snap) && RemovesInstance(snap.containers, op, s, r.ik) ensures ReachesInstance(cell, snap, r) {
      InstanceGoesOnlyIf(cell, b, snap, s, op);
    }
  }

  lemma InstanceGoesOnlyIf(cell: string, b: BBS, snap: Snapshot, s: Slot, op: Operation)
    requires Pictured(cell, b, snap) && s in b.instances
    requires op in Residuals(snap) && RemovesInstance(snap.containers, op, s, b.instances[s].ik)
    ensures ReachesInstance(cell, snap, b.instances[s])
  {
    var g := OperationInBatch(snap, op);
    assert snap.instances[g].Guid() == g;
  }

  /** Exactly these evacuating records go. */
  lemma EvacuatingGoesIff(cell: string, b: BBS, snap: Snapshot, s: Slot)
    requires Pictured(cell, b, snap) && s in b.evacuating
    ensures EvacuatingGoes(snap.containers, Residuals(snap), s, b.evacuating[s].ik) <==> ReachesEvacuating(cell, snap, s, b.evacuating[s])
  {
    var r := b.evacuating[s];
    if ReachesEvacuating(cell, snap, s, r) {
      BatchHas(snap, r.Guid());
      assert RemovesEvacuating(snap.containers, OperationFor(snap, r.Guid()), s, r.ik);
    }
    forall op | op in Residuals(snap) && RemovesEvacuating(snap.containers, op, s, r.ik) ensures ReachesEvacuating(cell, snap, s, r) {
      EvacuatingGoesOnlyIf(cell, b, snap, s, op);
    }
  }

  lemma EvacuatingGoesOnlyIf(cell: string, b: BBS, snap: Snapshot, s: Slot, op: Operation)
    requires Pictured(cell, b, snap) && s in b.evacuating
    requires op in Residuals(snap) && RemovesEvacuating(snap.containers, op, s, b.evacuating[s].ik)
    ensures ReachesEvacuating(cell, snap, s, b.evacuating[s])
  {
    var g := OperationInBatch(snap, op);
    if g in snap.instances {
      assert snap.instances[g].Guid() == g;
    } else {
      assert snap.evacuating[g].Guid() == g;
    }
  }

  /** Exactly the tasks of this cell that have no container fail, unless an LRP record of the
      cell carries the task's guid and takes its place in the batch. */
  lemma TaskGoesIff(cell: string, b: BBS, snap: Snapshot, g: Guid)
    requires Pictured(cell, b, snap) && g in b.tasks
    ensures TaskGoes(snap.containers, Residuals(snap), g, b.tasks[g]) <==> ReachesTask(cell, snap, g, b.tasks[g])
  {
    if ReachesTask(cell, snap, g, b.tasks[g]) {
      BatchHas(snap, g);
    }
    if ResidualTask(g) in Residuals(snap) {
      var h := OperationInBatch(snap, ResidualTask(g));
    }
  }

  /** What one batch leaves of the BBS. */
  function Harmonized(cell: string, b: BBS, snap: Snapshot): (b': BBS) {
    BBS(
      map s | s in b.instances && !ReachesInstance(cell, snap, b.instances[s]) :: b.instances[s],
      map s | s in b.evacuating && !ReachesEvacuating(cell, snap, s, b.evacuating[s]) :: b.evacuating[s],
      map g | g in b.tasks :: if ReachesTask(cell, snap, g, b.tasks[g]) then CompletedWith(MissingContainer) else b.tasks[g])
  }

  /** Executing the residual operations of the batch that is made from complete listings, in any
      order: each record of the BBS stays as it was or goes, by the conditions above. */
  lemma BatchHarmonizes(cell: string, b: BBS, containers: seq<Container>, groups: seq<Group>, tasks: seq<Guid>, ops: seq<Operation>)
    requires Quiescent(cell, b, groups, tasks)
    requires Elements(ops) == Residuals(Listed(containers, groups, tasks))
    ensures var snap := Listed(containers, groups, tasks);
            ExecuteAll(b, snap.containers, ops) == Harmonized(cell, b, snap)
  {
    var snap := Listed(containers, groups, tasks);
    ListingPictures(cell, b, containers, groups, tasks);
    AnyOrder(b, snap.containers, ops);
    AfterResiduals(cell, b, snap);
  }

  lemma AfterResiduals(cell: string, b: BBS, snap: Snapshot)
    requires Pictured(cell, b, snap)
    ensures After(b, snap.containers, Residuals(snap)) == Harmonized(cell, b, snap)
  {
    forall s | s in b.instances { InstanceGoesIff(cell, b, snap, s); }
    forall s | s in b.evacuating { EvacuatingGoesIff(cell, b, snap, s); }
    forall g | g in b.tasks { TaskGoesIff(cell, b, snap, g); }
    var x, y := After(b, snap.containers, Residuals(snap)), Harmonized(cell, b, snap);
    assert x.instances == y.instances;
    assert x.evacuating == y.evacuating;
    assert x.tasks == y.tasks;
  }

  // ---------------------------------------------------------------- records that are missed

  const SHARED := InstanceKey("guid", "cell")
  const FIRST := LRPRecord(LRPKey("p", 0, "d"), SHARED)
  const SECOND := LRPRecord(LRPKey("q", 0, "d"), SHARED)

  lemma TwoSlots()
    ensures SlotOf(FIRST.key) == Slot("p", 0) && SlotOf(SECOND.key) == Slot("q", 0) && Slot("p", 0) != Slot("q", 0)
    ensures FIRST.Guid() == "guid" && SECOND.Guid() == "guid" && FIRST != SECOND
  {
    assert "p"[0] != "q"[0];
  }

  lemma InstancesOfPair(x: Group, y: Group)
    ensures Instances([x, y]) == Insert(Insert(map[], x.instance), y.instance)
    ensures Evacuatings([x, y]) == Insert(Insert(map[], x.evacuating), y.evacuating)
  {
    var groups := [x, y];
    assert groups[..1] == [x] && [x][..0] == [];
    assert Instances([x]) == Insert(map[], x.instance) && Evacuatings([x]) == Insert(map[], x.evacuating);
  }

  lemma JointMissed()
    ensures var b := BBS(map[Slot("p", 0) := FIRST], map[Slot("q", 0) := SECOND], map[]);
            var groups := [Group(Some(FIRST), None), Group(None, Some(SECOND))];
            && Quiescent("cell", b, groups, [])
            && Harmonized("cell", b, Listed([], groups, [])) == BBS(map[], map[Slot("q", 0) := SECOND], map[])
  {
    TwoSlots();
    var b := BBS(map[Slot("p", 0) := FIRST], map[Slot("q", 0) := SECOND], map[]);
    var x, y := Group(Some(FIRST), None), Group(None, Some(SECOND));
    var groups := [x, y];
    assert groups[0] == x && groups[1] == y;
    assert ListsInstance(groups, FIRST) && ListsEvacuating(groups, SECOND);
    InstancesOfPair(x, y);
    var snap := Listed([], groups, []);
    assert snap.instances["guid"] == FIRST;
    var h := Harmonized("cell", b, snap);
    assert h.instances == map[];
    assert h.evacuating == b.evacuating;
  }

  /** A joint operation that misses: one guid in an instance and an evacuating record of different
      slots. The batch removes the instance record and leaves the evacuating one, though neither
      has a container. */
  lemma JointCanMiss(ops: seq<Operation>)
    requires Elements(ops) == Residuals(Listed([], [Group(Some(FIRST), None), Group(None, Some(SECOND))], []))
    ensures var b := BBS(map[Slot("p", 0) := FIRST], map[Slot("q", 0) := SECOND], map[]);
            && Quiescent("cell", b, [Group(Some(FIRST), None), Group(None, Some(SECOND))], [])
            && ExecuteAll(b, {}, ops) == BBS(map[], map[Slot("q", 0) := SECOND], map[])
  {
    JointMissed();
    var groups := [Group(Some(FIRST), None), Group(None, Some(SECOND))];
    assert Listed([], groups, []).containers == {};
    BatchHarmonizes("cell", BBS(map[Slot("p", 0) := FIRST], map[Slot("q", 0) := SECOND], map[]), [], groups, [], ops);
  }

  lemma InstanceMissed()
    ensures var b := BBS(map[Slot("p", 0) := FIRST, Slot("q", 0) := SECOND], map[], map[]);
            var groups := [Group(Some(FIRST), None), Group(Some(SECOND), None)];
            && Quiescent("cell", b, groups, [])
            && Harmonized("cell", b, Listed([], groups, [])) == BBS(map[Slot("p", 0) := FIRST], map[], map[])
  {
    TwoSlots();
    var b := BBS(map[Slot("p", 0) := FIRST, Slot("q", 0) := SECOND], map[], map[]);
    var x, y := Group(Some(FIRST), None), Group(Some(SECOND), None);
    var groups := [x, y];
    assert groups[0] == x && groups[1] == y;
    assert ListsInstance(groups, FIRST) && ListsInstance(groups, SECOND);
    InstancesOfPair(x, y);
    var snap := Listed([], groups, []);
    assert snap.instances["guid"] == SECOND;
    var h := Harmonized("cell", b, snap);
    assert h.instances == map[Slot("p", 0) := FIRST];
  }

  /** The same guid in two instance records: the listing keeps the later one, and the batch leaves
      the earlier one in place. */
  lemma InstanceCanMiss(ops: seq<Operation>)
    requires Elements(ops) == Residuals(Listed([], [Group(Some(FIRST), None), Group(Some(SECOND), None)], []))
    ensures var b := BBS(map[Slot("p", 0) := FIRST, Slot("q", 0) := SECOND], map[], map[]);
            && Quiescent("cell", b, [Group(Some(FIRST), None), Group(Some(SECOND), None)], [])
            && ExecuteAll(b, {}, ops) == BBS(map[Slot("p", 0) := FIRST], map[], map[])
  {
    InstanceMissed();
    var groups := [Group(Some(FIRST), None), Group(Some(SECOND), None)];
    assert Listed([], groups, []).containers == {};
    BatchHarmonizes("cell", BBS(map[Slot("p", 0) := FIRST, Slot("q", 0) := SECOND], map[], map[]), [], groups, [], ops);
  }

  /** Two records of the cell under one guid that has no container. */
  predicate SameGuid(cell: string, containers: set<Guid>, q: LRPRecord, r: LRPRecord) {
    OnCell(cell, q) && OnCell(cell, r) && q.Guid() == r.Guid() && q.Guid() !in containers
  }

  predicate Agree(cell: string, containers: set<Guid>, m: map<Slot, LRPRecord>, n: map<Slot, LRPRecord>) {
    forall s, t :: s in m && t in n && SameGuid(cell, containers, m[s], n[t]) ==> s == t
  }

  /** Among the records of the cell without a container, a guid determines its slot. */
  predicate GuidsDetermineSlots(cell: string, containers: set<Guid>, b: BBS) {
    && Agree(cell, containers, b.instances, b.instances)
    && Agree(cell, containers, b.evacuating, b.evacuating)
    && Agree(cell, containers, b.instances, b.evacuating)
  }

  predicate InstancesReached(cell: string, b: BBS, snap: Snapshot) {
    forall s :: s in b.instances && OnCell(cell, b.instances[s]) && b.instances[s].Guid() !in snap.containers ==>
      ReachesInstance(cell, snap, b.instances[s])
  }

  predicate EvacuatingsReached(cell: string, b: BBS, snap: Snapshot) {
    forall s :: s in b.evacuating && OnCell(cell, b.evacuating[s]) && b.evacuating[s].Guid() !in snap.containers ==>
      ReachesEvacuating(cell, snap, s, b.evacuating[s])
  }

  /** Every record of the cell without a container is removed if and only if their guids determine
      their slots, as fresh guids do. */
  lemma NothingMissedIff(cell: string, b: BBS, snap: Snapshot)
    requires Pictured(cell, b, snap)
    ensures InstancesReached(cell, b, snap) && EvacuatingsReached(cell, b, snap) <==> GuidsDetermineSlots(cell, snap.containers, b)
  {
    if GuidsDetermineSlots(cell, snap.containers, b) {
      AllReached(cell, b, snap);
    }
    if InstancesReached(cell, b, snap) && EvacuatingsReached(cell, b, snap) {
      ReachedAgree(cell, b, snap);
    }
  }

  lemma AllReached(cell: string, b: BBS, snap: Snapshot)
    requires Pictured(cell, b, snap) && GuidsDetermineSlots(cell, snap.containers, b)
    ensures InstancesReached(cell, b, snap) && EvacuatingsReached(cell, b, snap)
  {
    forall s | s in b.instances && OnCell(cell, b.instances[s]) && b.instances[s].Guid() !in snap.containers
      ensures ReachesInstance(cell, snap, b.instances[s])
    {
      var r := snap.instances[b.instances[s].Guid()];
      assert Stored(cell, b.instances, r) && SameGuid(cell, snap.containers, b.instances[s], b.instances[SlotOf(r.key)]);
    }
    forall s | s in b.evacuating && OnCell(cell, b.evacuating[s]) && b.evacuating[s].Guid() !in snap.containers
      ensures ReachesEvacuating(cell, snap, s, b.evacuating[s])
    {
      var g := b.evacuating[s].Guid();
      if g in snap.instances {
        var r := snap.instances[g];
        assert Stored(cell, b.instances, r) && SameGuid(cell, snap.containers, b.instances[SlotOf(r.key)], b.evacuating[s]);
      } else {
        var r := snap.evacuating[g];
        assert Stored(cell, b.evacuating, r) && SameGuid(cell, snap.containers, b.evacuating[s], b.evacuating[SlotOf(r.key)]);
      }
    }
  }

  lemma ReachedAgree(cell: string, b: BBS, snap: Snapshot)
    requires Pictured(cell, b, snap) && InstancesReached(cell, b, snap) && EvacuatingsReached(cell, b, snap)
    ensures GuidsDetermineSlots(cell, snap.containers, b)
  {
    forall s, t | s in b.instances && t in b.instances && SameGuid(cell, snap.containers, b.instances[s], b.instances[t]) ensures s == t {
      assert b.instances[s] == b.instances[t];
    }
    forall s, t | s in b.evacuating && t in b.evacuating && SameGuid(cell, snap.containers, b.evacuating[s], b.evacuating[t]) ensures s == t {
      if b.evacuating[s].Guid() !in snap.instances {
        assert b.evacuating[s] == b.evacuating[t];
      }
    }
  }
}
