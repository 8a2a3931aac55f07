/** generator/generator.go: joining three fetches into one operation per guid. */
module Batch {
  import opened Types
  import opened Conversion
  import opened Operations

  datatype LRPRecord = LRPRecord(key: LRPKey, ik: InstanceKey)
  {
    function Guid(): (guid: Types.Guid) { LRPContainerGuid(key.processGuid, ik.instanceGuid) }
  }

  datatype Group = Group(instance: Option<LRPRecord>, evacuating: Option<LRPRecord>)

  /** What a fetch brings back: the entries found, which are walked even next to an error. */
  datatype Fetch<T> = Fetch(found: seq<T>, err: Option<string>)

  datatype FetchError = ListContainers(why: string) | RetrieveLRPs(why: string) | RetrieveTasks(why: string)

  /** The three listings, keyed by guid. */
  datatype Snapshot = Snapshot(
    containers: set<Guid>,
    instances: map<Guid, LRPRecord>,
    evacuating: map<Guid, LRPRecord>,
    tasks: set<Guid>)

  function Elements<T(==)>(s: seq<T>): (r: set<T>) {
    set x | x in s
  }

  /** A later record replaces an earlier one with the same guid. */
  function Insert(m: map<Guid, LRPRecord>, r: Option<LRPRecord>): (m': map<Guid, LRPRecord>) {
    if r.None? then m else m[r.value.Guid() := r.value]
  }

  function Instances(groups: seq<Group>): (m: map<Guid, LRPRecord>) {
    if groups == [] then map[]
    else Insert(Instances(groups[..|groups| - 1]), groups[|groups| - 1].instance)
  }

  function Evacuatings(groups: seq<Group>): (m: map<Guid, LRPRecord>) {
    if groups == [] then map[]
    else Insert(Evacuatings(groups[..|groups| - 1]), groups[|groups| - 1].evacuating)
  }

  function Listed(containers: seq<Container>, groups: seq<Group>, tasks: seq<Guid>): (snap: Snapshot) {
    Snapshot(set c | c in containers :: c.guid, Instances(groups), Evacuatings(groups), Elements(tasks))
  }

  function Guids(snap: Snapshot): (all: set<Guid>) {
    snap.containers + snap.instances.Keys + snap.evacuating.Keys + snap.tasks
  }

  /** A container wins over records, an instance record over an evacuating one, any record over a task. */
  function OperationFor(snap: Snapshot, g: Guid): (op: Operation) {
    if g in snap.containers then ContainerOp(g)
    else if g in snap.instances then
      var r := snap.instances[g];
      if g in snap.evacuating then ResidualJoint(r.key, r.ik) else ResidualInstance(r.key, r.ik)
    else if g in snap.evacuating then
      ResidualEvacuating(snap.evacuating[g].key, snap.evacuating[g].ik)
    else ResidualTask(g)
  }

  function BatchOf(snap: Snapshot): (batch: map<Guid, Operation>) {
    map g | g in Guids(snap) :: OperationFor(snap, g)
  }

  /** Every record in the maps sits under its own guid and was listed; every listed record's guid is there. */
  lemma {:induction false} InstancesListed(groups: seq<Group>)
    ensures forall g :: g in Instances(groups) ==>
              Instances(groups)[g].Guid() == g &&
              exists i :: 0 <= i < |groups| && groups[i].instance == Some(Instances(groups)[g])
    ensures forall i :: 0 <= i < |groups| && groups[i].instance.Some? ==> groups[i].instance.value.Guid() in Instances(groups)
  {
    forall g | g in Instances(groups)
      ensures Instances(groups)[g].Guid() == g
      ensures exists i :: 0 <= i < |groups| && groups[i].instance == Some(Instances(groups)[g])
    {
      var i := InstanceSource(groups, g);
    }
    forall i | 0 <= i < |groups| && groups[i].instance.Some? ensures groups[i].instance.value.Guid() in Instances(groups) {
      InstanceFiled(groups, i);
    }
  }

  lemma {:induction false} InstanceSource(groups: seq<Group>, g: Guid) returns (i: nat)
    requires g in Instances(groups)
    ensures i < |groups| && groups[i].instance == Some(Instances(groups)[g]) && Instances(groups)[g].Guid() == g
  {
    var n := |groups| - 1;
    if groups[n].instance.Some? && groups[n].instance.value.Guid() == g {
      i := n;
    } else {
      i := InstanceSource(groups[..n], g);
    }
  }

  lemma {:induction false} InstanceFiled(groups: seq<Group>, i: nat)
    requires i < |groups| && groups[i].instance.Some?
    ensures groups[i].instance.value.Guid() in Instances(groups)
  {
    if i < |groups| - 1 {
      InstanceFiled(groups[..|groups| - 1], i);
    }
  }

  lemma {:induction false} EvacuatingsListed(groups: seq<Group>)
    ensures forall g :: g in Evacuatings(groups) ==>
              Evacuatings(groups)[g].Guid() == g &&
              exists i :: 0 <= i < |groups| && groups[i].evacuating == Some(Evacuatings(groups)[g])
    ensures forall i :: 0 <= i < |groups| && groups[i].evacuating.Some? ==> groups[i].evacuating.value.Guid() in Evacuatings(groups)
  {
    forall g | g in Evacuatings(groups)
      ensures Evacuatings(groups)[g].Guid() == g
      ensures exists i :: 0 <= i < |groups| && groups[i].evacuating == Some(Evacuatings(groups)[g])
    {
      var i := EvacuatingSource(groups, g);
    }
    forall i | 0 <= i < |groups| && groups[i].evacuating.Some? ensures groups[i].evacuating.value.Guid() in Evacuatings(groups) {
      EvacuatingFiled(groups, i);
    }
  }

  lemma {:induction false} EvacuatingSource(groups: seq<Group>, g: Guid) returns (i: nat)
    requires g in Evacuatings(groups)
    ensures i < |groups| && groups[i].evacuating == Some(Evacuatings(groups)[g]) && Evacuatings(groups)[g].Guid() == g
  {
    var n := |groups| - 1;
    if groups[n].evacuating.Some? && groups[n].evacuating.value.Guid() == g {
      i := n;
    } else {
      i := EvacuatingSource(groups[..n], g);
    }
  }

  lemma {:induction false} EvacuatingFiled(groups: seq<Group>, i: nat)
    requires i < |groups| && groups[i].evacuating.Some?
    ensures groups[i].evacuating.value.Guid() in Evacuatings(groups)
  {
    if i < |groups| - 1 {
      EvacuatingFiled(groups[..|groups| - 1], i);
    }
  }

  /** `g` is the guid of a listed container, instance record, evacuating record or task. */
  ghost predicate WasListed(containers: seq<Container>, groups: seq<Group>, tasks: seq<Guid>, g: Guid) {
    || (exists c :: c in containers && c.guid == g)
    || (exists i :: 0 <= i < |groups| && groups[i].instance.Some? && groups[i].instance.value.Guid() == g)
    || (exists i :: 0 <= i < |groups| && groups[i].evacuating.Some? && groups[i].evacuating.value.Guid() == g)
    || g in tasks
  }

  lemma ListedGuids(containers: seq<Container>, groups: seq<Group>, tasks: seq<Guid>, g: Guid)
    ensures g in Guids(Listed(containers, groups, tasks)) <==> WasListed(containers, groups, tasks, g)
  {
    RecordGuids(groups, g);
  }

  /** The batch covers exactly the guids that were listed, files every operation under its own
      queue key, has it look up that very container, and makes it a container operation exactly
      when a container was listed. */
  lemma ExactCover(containers: seq<Container>, groups: seq<Group>, tasks: seq<Guid>, g: Guid)
    ensures var batch := BatchOf(Listed(containers, groups, tasks));
            && (g in batch <==> WasListed(containers, groups, tasks, g))
            && (g in batch ==> batch[g].Key() == g && batch[g].Subject() == g)
            && (g in batch ==> (batch[g].ContainerOp? <==> exists c :: c in containers && c.guid == g))
  {
    ListedGuids(containers, groups, tasks, g);
    InstancesListed(groups);
    EvacuatingsListed(groups);
  }

  /** Which record an operation on an absent container was made from. */
  ghost predicate FromInstance(groups: seq<Group>, op: Operation) {
    op.ResidualLRP() && exists i :: 0 <= i < |groups| && groups[i].instance == Some(LRPRecord(op.key, op.ik))
  }

  ghost predicate FromEvacuating(groups: seq<Group>, op: Operation) {
    op.ResidualLRP() && exists i :: 0 <= i < |groups| && groups[i].evacuating == Some(LRPRecord(op.key, op.ik))
  }

  /** Without a container the kind follows from which records carry the guid: both give a joint
      operation, an instance record alone an instance operation, an evacuating record alone an
      evacuating operation, none of them a task operation; and the operation carries the keys of a
      listed record, the instance record where there is one. */
  lemma KindByRecords(containers: seq<Container>, groups: seq<Group>, tasks: seq<Guid>, g: Guid)
    requires g in BatchOf(Listed(containers, groups, tasks)) && !(exists c :: c in containers && c.guid == g)
    ensures var op := BatchOf(Listed(containers, groups, tasks))[g];
            var inInstances := exists i :: 0 <= i < |groups| && groups[i].instance.Some? && groups[i].instance.value.Guid() == g;
            var inEvacuating := exists i :: 0 <= i < |groups| && groups[i].evacuating.Some? && groups[i].evacuating.value.Guid() == g;
            && (op.ResidualJoint? <==> inInstances && inEvacuating)
            && (op.ResidualInstance? <==> inInstances && !inEvacuating)
            && (op.ResidualEvacuating? <==> !inInstances && inEvacuating)
            && (op.ResidualTask? <==> !inInstances && !inEvacuating)
            && (inInstances ==> FromInstance(groups, op))
            && (op.ResidualEvacuating? ==> FromEvacuating(groups, op))
  {
    InstancesListed(groups);
    EvacuatingsListed(groups);
    var snap := Listed(containers, groups, tasks);
    RecordGuids(groups, g);
    assert BatchOf(snap)[g] == OperationFor(snap, g);
  }

  lemma RecordGuids(groups: seq<Group>, g: Guid)
    ensures g in Instances(groups) <==> exists i :: 0 <= i < |groups| && groups[i].instance.Some? && groups[i].instance.value.Guid() == g
    ensures g in Evacuatings(groups) <==> exists i :: 0 <= i < |groups| && groups[i].evacuating.Some? && groups[i].evacuating.value.Guid() == g
  {
    InstancesListed(groups);
    EvacuatingsListed(groups);
    if g in Instances(groups) {
      var i :| 0 <= i < |groups| && groups[i].instance == Some(Instances(groups)[g]);
      assert groups[i].instance.value.Guid() == g;
    }
    if g in Evacuatings(groups) {
      var i :| 0 <= i < |groups| && groups[i].evacuating == Some(Evacuatings(groups)[g]);
      assert groups[i].evacuating.value.Guid() == g;
    }
  }

  /** Waiting for the goroutines: their errors arrive in any order and the first one is kept. */
  method Await(errors: seq<Option<FetchError>>) returns (err: Option<FetchError>)
    ensures err.None? <==> forall e :: e in errors ==> e.None?
    ensures err.Some? ==> err in errors
  {
    err := None;
    var pending := errors;
    while pending != []
      invariant forall e :: e in pending ==> e in errors
      invariant (err.None? && forall e :: e in pending ==> e.None?) <==> forall e :: e in errors ==> e.None?
      invariant err.Some? ==> err in errors
      decreases |pending|
    {
      assert 0 < |pending|;
      var i: nat :| i < |pending|;
      var e := pending[i];
      assert pending == pending[..i] + [e] + pending[i + 1..];
      pending := pending[..i] + pending[i + 1..];
      if err.None? && e.Some? {
        err := e;
      }
    }
  }

  method BatchOperations(containers: Fetch<Container>, lrps: Fetch<Group>, tasks: Fetch<Guid>)
    returns (r: Result<map<Guid, Operation>, FetchError>)
    ensures r.Err? <==> containers.err.Some? || lrps.err.Some? || tasks.err.Some?
    ensures r.Err? ==>
              || (containers.err.Some? && r.error == ListContainers(containers.err.value))
              || (lrps.err.Some? && r.error == RetrieveLRPs(lrps.err.value))
              || (tasks.err.Some? && r.error == RetrieveTasks(tasks.err.value))
    ensures r.Ok? ==> r.value == BatchOf(Listed(containers.found, lrps.found, tasks.found))
  {
    var found: map<Guid, Container> := map[];
    for i := 0 to |containers.found|
      invariant found.Keys == set c | c in containers.found[..i] :: c.guid
    {
      var c := containers.found[i];
      assert containers.found[..i + 1] == containers.found[..i] + [c];
      found := found[c.guid := c];
    }
    var instances: map<Guid, LRPRecord> := map[];
    var evacuating: map<Guid, LRPRecord> := map[];
    for i := 0 to |lrps.found|
      invariant instances == Instances(lrps.found[..i])
      invariant evacuating == Evacuatings(lrps.found[..i])
    {
      var group := lrps.found[i];
      assert lrps.found[..i + 1][..i] == lrps.found[..i];
      if group.instance.Some? {
        instances := instances[group.instance.value.Guid() := group.instance.value];
      }
      if group.evacuating.Some? {
        evacuating := evacuating[group.evacuating.value.Guid() := group.evacuating.value];
      }
    }
    var taskGuids: set<Guid> := {};
    for i := 0 to |tasks.found|
      invariant taskGuids == Elements(tasks.found[..i])
    {
      assert tasks.found[..i + 1] == tasks.found[..i] + [tasks.found[i]];
      taskGuids := taskGuids + {tasks.found[i]};
    }
    assert containers.found[..|containers.found|] == containers.found;
    assert lrps.found[..|lrps.found|] == lrps.found;
    assert tasks.found[..|tasks.found|] == tasks.found;

    var errors := [
      if containers.err.Some? then Some(ListContainers(containers.err.value)) else None,
      if lrps.err.Some? then Some(RetrieveLRPs(lrps.err.value)) else None,
      if tasks.err.Some? then Some(RetrieveTasks(tasks.err.value)) else None];
    var err := Await(errors);
    assert errors[0] in errors && errors[1] in errors && errors[2] in errors;
    if err.Some? {
      return Err(err.value);
    }
    var batch := Join(found.Keys, instances, evacuating, taskGuids);
    return Ok(batch);
  }

  /** The four joining loops, over maps walked in any order. */
  method Join(containers: set<Guid>, instances: map<Guid, LRPRecord>, evacuating: map<Guid, LRPRecord>, tasks: set<Guid>)
    returns (batch: map<Guid, Operation>)
    ensures batch == BatchOf(Snapshot(containers, instances, evacuating, tasks))
  {
    var snap := Snapshot(containers, instances, evacuating, tasks);
    batch := AddContainers(snap);
    batch := AddInstances(snap, batch);
    batch := AddEvacuating(snap, batch);
    batch := AddTasks(snap, batch);
  }

  ghost predicate Right(snap: Snapshot, batch: map<Guid, Operation>) {
    forall g :: g in batch ==> batch[g] == OperationFor(snap, g)
  }

  method AddContainers(snap: Snapshot) returns (batch: map<Guid, Operation>)
    ensures batch.Keys == snap.containers && Right(snap, batch)
  {
    batch := map[];
    var todo := snap.containers;
    while todo != {}
      invariant todo <= snap.containers
      invariant batch.Keys == snap.containers - todo
      invariant Right(snap, batch)
      decreases todo
    {
      var guid :| guid in todo;
      todo := todo - {guid};
      batch := batch[guid := ContainerOp(guid)];
    }
  }

  method AddInstances(snap: Snapshot, batch0: map<Guid, Operation>) returns (batch: map<Guid, Operation>)
    requires batch0.Keys == snap.containers && Right(snap, batch0)
    ensures batch.Keys == snap.containers + snap.instances.Keys && Right(snap, batch)
  {
    batch := batch0;
    ghost var base := batch0.Keys;
    var todo := snap.instances.Keys;
    while todo != {}
      invariant todo <= snap.instances.Keys
      invariant batch.Keys == base + (snap.instances.Keys - todo)
      invariant Right(snap, batch)
      decreases todo
    {
      var guid :| guid in todo;
      todo := todo - {guid};
      if guid in batch {
        continue;
      }
      var lrp := snap.instances[guid];
      if guid in snap.evacuating {
        batch := batch[guid := ResidualJoint(lrp.key, lrp.ik)];
      } else {
        batch := batch[guid := ResidualInstance(lrp.key, lrp.ik)];
      }
    }
  }

  method AddEvacuating(snap: Snapshot, batch0: map<Guid, Operation>) returns (batch: map<Guid, Operation>)
    requires batch0.Keys == snap.containers + snap.instances.Keys && Right(snap, batch0)
    ensures batch.Keys == snap.containers + snap.instances.Keys + snap.evacuating.Keys && Right(snap, batch)
  {
    batch := batch0;
    ghost var base := batch0.Keys;
    var todo := snap.evacuating.Keys;
    while todo != {}
      invariant todo <= snap.evacuating.Keys
      invariant batch.Keys == base + (snap.evacuating.Keys - todo)
      invariant Right(snap, batch)
      decreases todo
    {
      var guid :| guid in todo;
      todo := todo - {guid};
      if guid !in batch {
        batch := batch[guid := ResidualEvacuating(snap.evacuating[guid].key, snap.evacuating[guid].ik)];
      }
    }
  }

  method AddTasks(snap: Snapshot, batch0: map<Guid, Operation>) returns (batch: map<Guid, Operation>)
    requires batch0.Keys == snap.containers + snap.instances.Keys + snap.evacuating.Keys && Right(snap, batch0)
    ensures batch.Keys == Guids(snap) && Right(snap, batch)
  {
    batch := batch0;
    ghost var base := batch0.Keys;
    var todo := snap.tasks;
    while todo != {}
      invariant todo <= snap.tasks
      invariant batch.Keys == base + (snap.tasks - todo)
      invariant Right(snap, batch)
      decreases todo
    {
      var guid :| guid in todo;
      todo := todo - {guid};
      if guid !in batch {
        batch := batch[guid := ResidualTask(guid)];
      }
    }
  }
}
