/** generator/operation.go and generator/internal/lrp_processor.go: what each queued operation does. */
module Operations {
  import opened Types
  import opened Conversion
  import opened Clients
  import Ordinary = OrdinaryLRP
  import Evacuation = EvacuationLRP
  import TaskProcessing

  datatype Operation =
    | ContainerOp(guid: Guid)
    | ResidualInstance(key: LRPKey, ik: InstanceKey)
    | ResidualEvacuating(key: LRPKey, ik: InstanceKey)
    | ResidualJoint(key: LRPKey, ik: InstanceKey)
    | ResidualTask(taskGuid: Guid)
  {
    /** The key the operation queue serialises on. */
    function Key(): (key: Guid) {
      match this
      case ContainerOp(guid) => guid
      case ResidualTask(taskGuid) => taskGuid
      case _ => ik.instanceGuid
    }

    predicate ResidualLRP() { ResidualInstance? || ResidualEvacuating? || ResidualJoint? }

    /** The container the operation looks up before doing anything else. */
    function Subject(): (guid: Guid) {
      if ResidualLRP() then LRPContainerGuid(key.processGuid, ik.instanceGuid) else Key()
    }
  }

  /** What a residual operation sends to the BBS once it has seen that its container is absent. */
  function Cleanup(op: Operation): (calls: seq<Call>) {
    match op
    case ContainerOp(_) => []
    case ResidualInstance(key, ik) => [RemoveActualLRP(key.processGuid, key.index, ik)]
    case ResidualEvacuating(key, ik) => [RemoveEvacuatingActualLRP(key, ik)]
    case ResidualJoint(key, ik) => [RemoveActualLRP(key.processGuid, key.index, ik), RemoveEvacuatingActualLRP(key, ik)]
    case ResidualTask(g) => [FailTask(g, MissingContainer)]
  }

  predicate Makes(calls: seq<Call>, t: seq<Event>) {
    |t| == |calls| && forall i :: 0 <= i < |t| ==> t[i].call == calls[i]
  }

  /** lrpProcessor.Process: one look at the evacuation flag selects the processor. */
  predicate LRPPass(cfg: Config, c: Container, t: seq<Event>) {
    && |t| >= 1 && t[0].call == AskEvacuating
    && if t[0].reply.flag then Evacuation.Pass(cfg, c, t[1..]) else Ordinary.Pass(cfg, c, t[1..])
  }

  predicate ContainerPass(cfg: Config, c: Container, t: seq<Event>) {
    var lifecycle := c.Tag(LIFECYCLE_TAG);
    if lifecycle == LRP_LIFECYCLE then LRPPass(cfg, c, t)
    else if lifecycle == TASK_LIFECYCLE then TaskProcessing.Pass(cfg, c, t)
    else t == []
  }

  /** The call sequences executing `op` may make, over every sequence of replies. */
  predicate OpTrace(cfg: Config, op: Operation, t: seq<Event>) {
    && |t| >= 1 && t[0].call == GetContainer(op.Subject())
    && match t[0].reply.container
       case None => if op.ContainerOp? then |t| == 1 else Makes(Cleanup(op), t[1..])
       case Some(c) => if op.ContainerOp? then ContainerPass(cfg, c, t[1..]) else |t| == 1
  }

  class Worker {
    const cfg: Config
    const client: Client

    constructor (cfg: Config, client: Client)
      ensures this.cfg == cfg && this.client == client
    {
      this.cfg := cfg;
      this.client := client;
    }

    method ProcessLRP(c: Container) returns (ghost t: seq<Event>)
      modifies client
      ensures client.log == old(client.log) + t
      ensures LRPPass(cfg, c, t)
    {
      var evacuating := client.Exchange(AskEvacuating);
      ghost var rest;
      if evacuating.flag {
        var p := new Evacuation.Processor(cfg, client);
        rest := p.Process(c);
      } else {
        var p := new Ordinary.Processor(cfg, client);
        rest := p.Process(c);
      }
      t := [Event(AskEvacuating, evacuating)] + rest;
      assert t[1..] == rest;
    }

    /** The switch on the lifecycle tag; an unknown lifecycle is only logged. */
    method ProcessContainer(c: Container) returns (ghost t: seq<Event>)
      modifies client
      ensures client.log == old(client.log) + t
      ensures ContainerPass(cfg, c, t)
    {
      t := [];
      var lifecycle := c.Tag(LIFECYCLE_TAG);
      if lifecycle == LRP_LIFECYCLE {
        t := ProcessLRP(c);
      } else if lifecycle == TASK_LIFECYCLE {
        var p := new TaskProcessing.Processor(cfg, client);
        t := p.Process(c);
      }
    }

    method ExecuteContainerOp(op: Operation) returns (ghost t: seq<Event>)
      requires op.ContainerOp?
      modifies client
      ensures client.log == old(client.log) + t
      ensures OpTrace(cfg, op, t)
    {
      var got := client.Exchange(GetContainer(op.Subject()));
      t := [Event(GetContainer(op.Subject()), got)];
      if got.container.Some? {
        ghost var rest := ProcessContainer(got.container.value);
        t := t + rest;
        assert t[1..] == rest;
      }
    }

    method ExecuteResidual(op: Operation) returns (ghost t: seq<Event>)
      requires !op.ContainerOp?
      modifies client
      ensures client.log == old(client.log) + t
      ensures OpTrace(cfg, op, t)
    {
      var got := client.Exchange(GetContainer(op.Subject()));
      t := [Event(GetContainer(op.Subject()), got)];
      if got.container.None? {
        ghost var rest := Send(op);
        t := t + rest;
        assert t[1..] == rest;
      }
    }

    method Execute(op: Operation) returns (ghost t: seq<Event>)
      modifies client
      ensures client.log == old(client.log) + t
      ensures OpTrace(cfg, op, t)
    {
      if op.ContainerOp? {
        t := ExecuteContainerOp(op);
      } else {
        t := ExecuteResidual(op);
      }
    }

    /** The BBS calls of a residual operation, in order. */
    method Send(op: Operation) returns (ghost t: seq<Event>)
      requires !op.ContainerOp?
      modifies client
      ensures client.log == old(client.log) + t
      ensures Makes(Cleanup(op), t)
    {
      t := [];
      if op.ResidualInstance? || op.ResidualJoint? {
        var call := RemoveActualLRP(op.key.processGuid, op.key.index, op.ik);
        var reply := client.Exchange(call);
        t := t + [Event(call, reply)];
      }
      if op.ResidualEvacuating? || op.ResidualJoint? {
        var call := RemoveEvacuatingActualLRP(op.key, op.ik);
        var reply := client.Exchange(call);
        t := t + [Event(call, reply)];
      }
      if op.ResidualTask? {
        var call := FailTask(op.taskGuid, MissingContainer);
        var reply := client.Exchange(call);
        t := t + [Event(call, reply)];
      }
    }
  }
}
