/** The cell as a whole: allocations, the executor, the BBS, the three list fetches and the
    operations of the queue, interleaved call by call.

    An operation in flight carries the complete call sequence it will turn out to make (replies
    included) and how far it has got. That sequence is any one `Operations.Worker.Execute` can
    produce, so replies stay arbitrary, except where the world fixes them: GetContainer reports
    what is there, Evacuating reports the latch, a granted delete has happened. */
module Harmonizer {
  import opened Types
  import opened Conversion
  import opened Clients
  import opened Operations
  import opened Batch
  import opened Residual
  import opened TraceSafety
  import TaskProcessing
  import Latch

  datatype InFlight = InFlight(op: Operation, t: seq<Event>, pos: nat)

  datatype Cell = Cell(
    containers: map<Guid, Container>,
    lrpGuids: set<Guid>,                     // every instance guid ever allocated here
    bbs: BBS,
    evacuating: bool,
    performs: nat,                           // Perform calls past their evacuation check
    listedContainers: Option<seq<Container>>,
    listedLRPs: Option<seq<Group>>,
    listedTasks: Option<seq<Guid>>,
    queue: set<Operation>,
    active: map<Guid, InFlight>,             // at most one operation per key
    log: seq<Event>,
    polled: Option<Result<seq<Container>, string>>,  // the evacuator's latest listing
    drained: bool)                           // the evacuator has reported completion

  datatype Action =
    | BeginPerform
    | EndPerform
    | AllocateLRP(c: Container)
    | AllocateTask(c: Container)
    | Evacuate
    | ExecutorMoves(g: Guid, c: Container)
    | ExecutorReaps(g: Guid)
    | BBSMoves(bbs: BBS)
    | ListContainers(found: seq<Container>)
    | ListLRPs(groups: seq<Group>)
    | ListTasks(tasks: seq<Guid>)
    | Enqueue
    | Push(g: Guid)
    | Discard(op: Operation)
    | Start(op: Operation, t: seq<Event>)
    | Step(key: Guid, bbs: BBS, gone: bool)
    | Finish(key: Guid)
    | PollLists(listing: Result<seq<Container>, string>)
    | Report

  // ---------------------------------------------------------------- what the environment may do

  predicate IsLRP(c: Container) { c.Tag(LIFECYCLE_TAG) == LRP_LIFECYCLE }

  lemma LifecyclesDiffer()
    ensures LRP_LIFECYCLE != TASK_LIFECYCLE
  {
    assert |LRP_LIFECYCLE| != |TASK_LIFECYCLE|;
  }

  /** Guids under which the BBS holds a record placed on this cell. */
  function GuidsOn(cell: string, b: BBS): (guids: set<Guid>) {
    (set s | s in b.instances && OnCell(cell, b.instances[s]) :: b.instances[s].ik.instanceGuid) +
    (set s | s in b.evacuating && OnCell(cell, b.evacuating[s]) :: b.evacuating[s].ik.instanceGuid)
  }

  /** A listing holds records that are stored and on this cell (possibly not all of them). */
  predicate GroupsFrom(cell: string, b: BBS, groups: seq<Group>) {
    forall i :: 0 <= i < |groups| ==>
      && (groups[i].instance.Some? ==> OnCell(cell, groups[i].instance.value) && groups[i].instance.value in b.instances.Values)
      && (groups[i].evacuating.Some? ==> OnCell(cell, groups[i].evacuating.value) && groups[i].evacuating.value in b.evacuating.Values)
  }

  /** The instance key under which a call may make the BBS file a record. */
  function Files(call: Call): (ik: Option<InstanceKey>) {
    match call
    case ClaimActualLRP(_, _, ik) => Some(ik)
    case StartActualLRP(_, ik, _) => Some(ik)
    case CrashActualLRP(_, ik, _) => Some(ik)
    case EvacuateClaimedActualLRP(_, ik) => Some(ik)
    case EvacuateRunningActualLRP(_, ik, _, _) => Some(ik)
    case EvacuateStoppedActualLRP(_, ik) => Some(ik)
    case EvacuateCrashedActualLRP(_, ik, _) => Some(ik)
    case _ => None
  }

  predicate Removes(call: Call) {
    call.RemoveActualLRP? || call.RemoveEvacuatingActualLRP? || call.FailTask?
  }

  /** What the BBS may look like after an exchange. A call that files records may rearrange the
      BBS in any way that places no other instance on this cell. */
  predicate BBSAllows(cell: string, b: BBS, e: Event, b': BBS) {
    if Removes(e.call) then b' == Apply(b, e.call) || (b' == b && !e.reply.Ok())
    else if Files(e.call).Some? then GuidsOn(cell, b') <= GuidsOn(cell, b) + {Files(e.call).value.instanceGuid}
    else b'.instances == b.instances && b'.evacuating == b.evacuating
  }

  /** Replies the state of the cell determines. */
  predicate Truthful(s: Cell, e: Event, gone: bool) {
    match e.call
    case GetContainer(g) => e.reply.container == if g in s.containers then Some(s.containers[g]) else None
    case AskEvacuating => e.reply.flag == s.evacuating
    case DeleteContainer(_) => e.reply.Ok() ==> gone
    case _ => HonestReply(e)
  }

  /** The evacuator stops polling at a listing that succeeded and is empty. It reports some time
      later, when the listing may be stale. */
  predicate PolledEmpty(s: Cell) { s.polled.Some? && Latch.AllContainersEvacuated(s.polled.value) }

  predicate Enabled(cfg: Config, s: Cell, a: Action) {
    match a
    case BeginPerform => !s.evacuating
    case EndPerform => s.performs > 0
    case AllocateLRP(c) =>
      && s.performs > 0 && c.guid !in s.containers && c.guid !in s.lrpGuids
      && IsLRP(c) && c.Tag(INSTANCE_GUID_TAG) == c.guid && c.state == Reserved
    case AllocateTask(c) =>
      && s.performs > 0 && c.guid !in s.containers && c.guid !in s.lrpGuids
      && c.Tag(LIFECYCLE_TAG) == TASK_LIFECYCLE && c.state == Reserved
    case Evacuate => true
    case ExecutorMoves(g, c) =>
      && g in s.containers && c.guid == g
      && c.Tag(LIFECYCLE_TAG) == s.containers[g].Tag(LIFECYCLE_TAG)
      && c.Tag(INSTANCE_GUID_TAG) == s.containers[g].Tag(INSTANCE_GUID_TAG)
    case ExecutorReaps(g) => g in s.containers
    case BBSMoves(b) => GuidsOn(cfg.cellID, b) <= GuidsOn(cfg.cellID, s.bbs)
    case ListContainers(found) => forall c :: c in found ==> c in s.containers.Values
    case ListLRPs(groups) => GroupsFrom(cfg.cellID, s.bbs, groups)
    case ListTasks(tasks) => forall g :: g in tasks ==> g in s.bbs.tasks
    case Enqueue => s.listedContainers.Some? && s.listedLRPs.Some? && s.listedTasks.Some?
    case Push(_) => true
    case Discard(op) => op in s.queue
    case Start(op, t) => op in s.queue && op.Key() !in s.active && OpTrace(cfg, op, t)
    case Step(k, b, gone) =>
      && k in s.active && s.active[k].pos < |s.active[k].t|
      && var e := s.active[k].t[s.active[k].pos];
         Truthful(s, e, gone) && BBSAllows(cfg.cellID, s.bbs, e, b)
    case Finish(k) => k in s.active && s.active[k].pos == |s.active[k].t|
    case PollLists(listing) =>
      && s.evacuating && !s.drained && !PolledEmpty(s)
      && (listing.Ok? ==> Elements(listing.value) == s.containers.Values)
    case Report => PolledEmpty(s) && !s.drained
  }

  function BatchFrom(s: Cell): (ops: set<Operation>)
    requires s.listedContainers.Some? && s.listedLRPs.Some? && s.listedTasks.Some?
  {
    BatchOf(Listed(s.listedContainers.value, s.listedLRPs.value, s.listedTasks.value)).Values
  }

  function AfterCall(s: Cell, e: Event, gone: bool): (containers: map<Guid, Container>) {
    if e.call.DeleteContainer? && gone then s.containers - {e.call.guid} else s.containers
  }

  function Next(cfg: Config, s: Cell, a: Action): (s': Cell)
    requires Enabled(cfg, s, a)
  {
    match a
    case BeginPerform => s.(performs := s.performs + 1)
    case EndPerform => s.(performs := s.performs - 1)
    case AllocateLRP(c) => s.(containers := s.containers[c.guid := c], lrpGuids := s.lrpGuids + {c.guid})
    case AllocateTask(c) => s.(containers := s.containers[c.guid := c])
    case Evacuate => s.(evacuating := true)
    case ExecutorMoves(g, c) => s.(containers := s.containers[g := c])
    case ExecutorReaps(g) => s.(containers := s.containers - {g})
    case BBSMoves(b) => s.(bbs := b)
    case ListContainers(found) => s.(listedContainers := Some(found))
    case ListLRPs(groups) => s.(listedLRPs := Some(groups))
    case ListTasks(tasks) => s.(listedTasks := Some(tasks))
    case Enqueue =>
      s.(queue := s.queue + BatchFrom(s), listedContainers := None, listedLRPs := None, listedTasks := None)
    case Push(g) => s.(queue := s.queue + {ContainerOp(g)})
    case Discard(op) => s.(queue := s.queue - {op})
    case Start(op, t) => s.(queue := s.queue - {op}, active := s.active[op.Key() := InFlight(op, t, 0)])
    case Step(k, b, gone) =>
      var f := s.active[k];
      var e := f.t[f.pos];
      s.(containers := AfterCall(s, e, gone), bbs := b,
         active := s.active[k := f.(pos := f.pos + 1)], log := s.log + [e])
    case Finish(k) => s.(active := s.active - {k})
    case PollLists(listing) => s.(polled := Some(listing))
    case Report => s.(drained := true)
  }

  /** Nothing under way. There may be containers and records left from before: LRP containers carry
      their own guid, and the records on this cell are of instances once allocated here. */
  predicate Init(cfg: Config, s: Cell) {
    && ContainersFit(s) && GuidsOn(cfg.cellID, s.bbs) <= s.lrpGuids
    && !s.evacuating && s.performs == 0 && s.queue == {} && s.active == map[] && s.log == []
    && s.polled.None? && !s.drained
    && s.listedContainers.None? && s.listedLRPs.None? && s.listedTasks.None?
  }

  /** `ss` are the states a run passes through, `acts` the actions between them. */
  predicate IsRun(cfg: Config, ss: seq<Cell>, acts: seq<Action>) {
    && |ss| == |acts| + 1
    && forall i :: 0 <= i < |acts| ==> Enabled(cfg, ss[i], acts[i]) && ss[i + 1] == Next(cfg, ss[i], acts[i])
  }

  // ---------------------------------------------------------------- the invariant

  /** A residual operation on an LRP is about an instance this cell once allocated. */
  predicate Known(cfg: Config, lrpGuids: set<Guid>, op: Operation) {
    op.ResidualLRP() ==> op.ik.cellId == cfg.cellID && op.ik.instanceGuid in lrpGuids
  }

  /** `t` has a granted delete of `k` among its first `n` exchanges. */
  predicate Deleted(t: seq<Event>, n: nat, k: Guid)
    requires n <= |t|
  {
    exists i :: 0 <= i < n && Deletes(t[i], k) && t[i].reply.Ok()
  }

  predicate TagsFit(lrpGuids: set<Guid>, g: Guid, c: Container) {
    c.guid == g && (IsLRP(c) ==> g in lrpGuids && c.Tag(INSTANCE_GUID_TAG) == g)
  }

  /** What the first exchange, the look for the container, still tells. */
  predicate Looked(lrpGuids: set<Guid>, present: set<Guid>, k: Guid, f: InFlight)
    requires 1 <= f.pos <= |f.t|
  {
    match f.t[0].reply.container
    case None => f.op.ResidualLRP() ==> k !in present
    case Some(c) =>
      f.op.ContainerOp? ==>
        && TagsFit(lrpGuids, k, c)
        && (IsLRP(c) && Deleted(f.t, f.pos, k) ==> k !in present)
  }

  predicate Fits(cfg: Config, lrpGuids: set<Guid>, present: set<Guid>, k: Guid, f: InFlight) {
    && f.op.Key() == k && f.pos <= |f.t|
    && Known(cfg, lrpGuids, f.op)
    && (forall i :: 0 <= i < f.pos ==> HonestReply(f.t[i]))
    && (f.pos >= 1 ==> Looked(lrpGuids, present, k, f))
  }

  predicate GroupsKnown(cfg: Config, lrpGuids: set<Guid>, groups: seq<Group>) {
    forall i :: 0 <= i < |groups| ==>
      && (groups[i].instance.Some? ==> groups[i].instance.value.ik.cellId == cfg.cellID && groups[i].instance.value.ik.instanceGuid in lrpGuids)
      && (groups[i].evacuating.Some? ==> groups[i].evacuating.value.ik.cellId == cfg.cellID && groups[i].evacuating.value.ik.instanceGuid in lrpGuids)
  }

  predicate ContainersFit(s: Cell) {
    forall g :: g in s.containers ==> TagsFit(s.lrpGuids, g, s.containers[g])
  }

  predicate ActiveFit(cfg: Config, s: Cell) {
    forall k :: k in s.active ==> Fits(cfg, s.lrpGuids, s.containers.Keys, k, s.active[k])
  }

  predicate Scripted(cfg: Config, s: Cell) {
    forall k :: k in s.active ==> OpTrace(cfg, s.active[k].op, s.active[k].t)
  }

  predicate QueueKnown(cfg: Config, s: Cell) {
    forall op :: op in s.queue ==> Known(cfg, s.lrpGuids, op)
  }

  predicate Inv(cfg: Config, s: Cell) {
    && ContainersFit(s)
    && GuidsOn(cfg.cellID, s.bbs) <= s.lrpGuids
    && (s.listedLRPs.Some? ==> GroupsKnown(cfg, s.lrpGuids, s.listedLRPs.value))
    && QueueKnown(cfg, s)
    && Scripted(cfg, s)
    && ActiveFit(cfg, s)
  }

  // ---------------------------------------------------------------- preservation

  /** Nothing an operation relies on is lost when guids are only added, and containers only added
      under guids that were never an instance's. */
  lemma FitsFrame(cfg: Config, lrps: set<Guid>, present: set<Guid>, lrps': set<Guid>, present': set<Guid>, k: Guid, f: InFlight)
    requires Fits(cfg, lrps, present, k, f)
    requires lrps <= lrps' && forall g :: g in present' && g in lrps ==> g in present
    ensures Fits(cfg, lrps', present', k, f)
  {
  }

  lemma ActiveFrame(cfg: Config, s: Cell, s': Cell)
    requires ActiveFit(cfg, s) && s'.active == s.active
    requires s.lrpGuids <= s'.lrpGuids && forall g :: g in s'.containers && g in s.lrpGuids ==> g in s.containers
    ensures ActiveFit(cfg, s')
  {
    forall k | k in s'.active ensures Fits(cfg, s'.lrpGuids, s'.containers.Keys, k, s'.active[k]) {
      FitsFrame(cfg, s.lrpGuids, s.containers.Keys, s'.lrpGuids, s'.containers.Keys, k, s.active[k]);
    }
  }

  lemma BatchKnown(cfg: Config, s: Cell)
    requires s.listedContainers.Some? && s.listedLRPs.Some? && s.listedTasks.Some?
    requires GroupsKnown(cfg, s.lrpGuids, s.listedLRPs.value)
    ensures forall op :: op in BatchFrom(s) ==> Known(cfg, s.lrpGuids, op)
  {
    var groups := s.listedLRPs.value;
    var snap := Listed(s.listedContainers.value, groups, s.listedTasks.value);
    InstancesListed(groups);
    EvacuatingsListed(groups);
    forall op | op in BatchFrom(s) ensures Known(cfg, s.lrpGuids, op) {
      var g :| g in BatchOf(snap) && BatchOf(snap)[g] == op;
      assert op == OperationFor(snap, g);
      if g in snap.containers {
      } else if g in snap.instances {
        var i :| 0 <= i < |groups| && groups[i].instance == Some(snap.instances[g]);
      } else if g in snap.evacuating {
        var i :| 0 <= i < |groups| && groups[i].evacuating == Some(snap.evacuating[g]);
      }
    }
  }

  lemma ListingKnown(cfg: Config, s: Cell, groups: seq<Group>)
    requires GuidsOn(cfg.cellID, s.bbs) <= s.lrpGuids && GroupsFrom(cfg.cellID, s.bbs, groups)
    ensures GroupsKnown(cfg, s.lrpGuids, groups)
  {
    forall i | 0 <= i < |groups| && groups[i].instance.Some?
      ensures groups[i].instance.value.ik.instanceGuid in s.lrpGuids
    {
      var slot :| slot in s.bbs.instances && s.bbs.instances[slot] == groups[i].instance.value;
      assert s.bbs.instances[slot].ik.instanceGuid in GuidsOn(cfg.cellID, s.bbs);
    }
    forall i | 0 <= i < |groups| && groups[i].evacuating.Some?
      ensures groups[i].evacuating.value.ik.instanceGuid in s.lrpGuids
    {
      var slot :| slot in s.bbs.evacuating && s.bbs.evacuating[slot] == groups[i].evacuating.value;
      assert s.bbs.evacuating[slot].ik.instanceGuid in GuidsOn(cfg.cellID, s.bbs);
    }
  }

  lemma InvInit(cfg: Config, s: Cell)
    requires Init(cfg, s)
    ensures Inv(cfg, s)
  {
  }

  lemma ScriptedNext(cfg: Config, s: Cell, a: Action)
    requires Scripted(cfg, s) && Enabled(cfg, s, a)
    ensures Scripted(cfg, Next(cfg, s, a))
  {
    var s' := Next(cfg, s, a);
    forall k | k in s'.active ensures OpTrace(cfg, s'.active[k].op, s'.active[k].t) {
      ScriptStays(cfg, s, a, k);
    }
  }

  /** Actions start scripts and drop them, but never change one. */
  lemma ScriptStays(cfg: Config, s: Cell, a: Action, k: Guid)
    requires Enabled(cfg, s, a) && k in Next(cfg, s, a).active
    ensures var f := Next(cfg, s, a).active[k];
            || (k in s.active && f.op == s.active[k].op && f.t == s.active[k].t)
            || (a.Start? && f.op == a.op && f.t == a.t)
  {
  }

  lemma ContainersNext(cfg: Config, s: Cell, a: Action)
    requires ContainersFit(s) && Enabled(cfg, s, a)
    ensures ContainersFit(Next(cfg, s, a))
    ensures s.lrpGuids <= Next(cfg, s, a).lrpGuids
    ensures forall g :: g in Next(cfg, s, a).containers && g in s.lrpGuids ==> g in s.containers
  {
  }

  lemma QueueNext(cfg: Config, s: Cell, a: Action)
    requires QueueKnown(cfg, s) && Enabled(cfg, s, a)
    requires s.listedLRPs.Some? ==> GroupsKnown(cfg, s.lrpGuids, s.listedLRPs.value)
    ensures QueueKnown(cfg, Next(cfg, s, a))
  {
    if a.Enqueue? {
      BatchKnown(cfg, s);
    }
  }

  lemma RecordsOther(cfg: Config, s: Cell, a: Action)
    requires Enabled(cfg, s, a) && !a.Step?
    requires GuidsOn(cfg.cellID, s.bbs) <= s.lrpGuids
    requires s.listedLRPs.Some? ==> GroupsKnown(cfg, s.lrpGuids, s.listedLRPs.value)
    ensures var s' := Next(cfg, s, a);
            && GuidsOn(cfg.cellID, s'.bbs) <= s'.lrpGuids
            && (s'.listedLRPs.Some? ==> GroupsKnown(cfg, s'.lrpGuids, s'.listedLRPs.value))
  {
    if a.ListLRPs? {
      ListingKnown(cfg, s, a.groups);
    }
  }

  lemma ActiveOther(cfg: Config, s: Cell, a: Action)
    requires ActiveFit(cfg, s) && ContainersFit(s) && QueueKnown(cfg, s) && Enabled(cfg, s, a) && !a.Step?
    ensures ActiveFit(cfg, Next(cfg, s, a))
  {
    var s' := Next(cfg, s, a);
    if a.Start? || a.Finish? {
      assert s'.lrpGuids == s.lrpGuids && s'.containers == s.containers;
    } else {
      ContainersNext(cfg, s, a);
      ActiveFrame(cfg, s, s');
    }
  }

  // ---------------------------------------------------------------- one call of an operation

  /** Past the look for the container and at the evacuation flag, an LRP operation makes calls
      about its own container only. */
  lemma LRPCallsAbout(cfg: Config, op: Operation, t: seq<Event>, c: Container, i: nat)
    requires OpTrace(cfg, op, t) && op.ContainerOp? && t[0].reply.container == Some(c) && IsLRP(c)
    requires 1 <= i < |t|
    ensures i == 1 ==> t[i].call == AskEvacuating
    ensures i >= 2 ==> LRPContainerOf(cfg, c).Some? && AboutOnly(LRPContainerOf(cfg, c).value, t[i])
  {
    var rest := t[1..];
    assert LRPPass(cfg, c, rest);
    if i >= 2 {
      var pass := rest[1..];
      assert pass[i - 2] == t[i];
      var x := LRPContainerOf(cfg, c).value;
      if rest[0].reply.flag {
        EvacuationDeletesIff(cfg, x, pass);
      } else {
        OrdinaryAbout(cfg, x, pass);
      }
    }
  }

  /** The keys of an LRP container carry its own guid and this cell. */
  lemma OwnInstanceKey(cfg: Config, lrpGuids: set<Guid>, k: Guid, c: Container)
    requires TagsFit(lrpGuids, k, c) && IsLRP(c) && LRPContainerOf(cfg, c).Some?
    ensures LRPContainerOf(cfg, c).value.ik == InstanceKey(k, cfg.cellID) && LRPContainerOf(cfg, c).value.c.guid == k
  {
  }

  /** A task operation files no LRP record. */
  lemma TaskCallsFileNothing(cfg: Config, c: Container, t: seq<Event>, i: nat)
    requires TaskProcessing.Pass(cfg, c, t) && i < |t|
    ensures Files(t[i].call).None? && (Removes(t[i].call) ==> t[i].call.FailTask?)
  {
    if c.state == Completed && i < |t| - 1 {
      var outcome := t[..|t| - 1];
      assert outcome[i] == t[i];
      if TaskProcessing.Fetches(c) && i >= 1 {
        assert outcome[1..][i - 1] == t[i];
      }
    }
  }

  /** Whatever record a call files is for an instance this cell allocated. */
  lemma FilesOwn(cfg: Config, lrpGuids: set<Guid>, present: set<Guid>, k: Guid, f: InFlight)
    requires Fits(cfg, lrpGuids, present, k, f) && OpTrace(cfg, f.op, f.t)
    requires f.pos < |f.t| && Files(f.t[f.pos].call).Some?
    ensures Files(f.t[f.pos].call).value.instanceGuid in lrpGuids
  {
    assert f.pos >= 1;
    var e := f.t[f.pos];
    assert f.t[1..][f.pos - 1] == e;
    if f.op.ContainerOp? {
      var c := f.t[0].reply.container.value;
      if IsLRP(c) {
        LRPCallsAbout(cfg, f.op, f.t, c, f.pos);
        OwnInstanceKey(cfg, lrpGuids, k, c);
      } else {
        TaskCallsFileNothing(cfg, c, f.t[1..], f.pos - 1);
      }
    }
  }

  lemma RemovalFilesNothing(cell: string, b: BBS, call: Call)
    requires Removes(call)
    ensures GuidsOn(cell, Apply(b, call)) <= GuidsOn(cell, b)
  {
  }

  /** The first exchange: what it reports is what is there. */
  lemma FirstLook(s: Cell, k: Guid, f: InFlight, gone: bool)
    requires ContainersFit(s) && f.t != [] && f.t[0].call == GetContainer(k)
    requires Truthful(s, f.t[0], gone)
    ensures Looked(s.lrpGuids, s.containers.Keys, k, f.(pos := 1))
  {
    assert !Deletes(f.t[0], k);
  }

  /** Later exchanges: a granted delete of the container is the only one that matters. */
  lemma LookLasts(lrpGuids: set<Guid>, present: set<Guid>, present': set<Guid>, k: Guid, f: InFlight)
    requires 1 <= f.pos < |f.t| && Looked(lrpGuids, present, k, f)
    requires present' <= present
    requires f.t[f.pos].call == DeleteContainer(k) && f.t[f.pos].reply.Ok() ==> k !in present'
    ensures Looked(lrpGuids, present', k, f.(pos := f.pos + 1))
  {
    if Deleted(f.t, f.pos + 1, k) && !Deleted(f.t, f.pos, k) {
      assert Deletes(f.t[f.pos], k) && f.t[f.pos].reply.Ok();
    }
  }

  lemma FitsStep(cfg: Config, s: Cell, k: Guid, gone: bool)
    requires ContainersFit(s) && k in s.active && s.active[k].pos < |s.active[k].t|
    requires Fits(cfg, s.lrpGuids, s.containers.Keys, k, s.active[k]) && s.active[k].t[0].call == GetContainer(k)
    requires Truthful(s, s.active[k].t[s.active[k].pos], gone)
    ensures var f := s.active[k];
            Fits(cfg, s.lrpGuids, AfterCall(s, f.t[f.pos], gone).Keys, k, f.(pos := f.pos + 1))
  {
    var f := s.active[k];
    var e := f.t[f.pos];
    if f.pos == 0 {
      FirstLook(s, k, f, gone);
    } else {
      LookLasts(s.lrpGuids, s.containers.Keys, AfterCall(s, e, gone).Keys, k, f);
    }
    assert HonestReply(e);
  }

  lemma ActiveStep(cfg: Config, s: Cell, a: Action)
    requires ActiveFit(cfg, s) && ContainersFit(s) && Enabled(cfg, s, a) && a.Step?
    requires s.active[a.key].t[0].call == GetContainer(a.key)
    ensures ActiveFit(cfg, Next(cfg, s, a))
  {
    var s' := Next(cfg, s, a);
    FitsStep(cfg, s, a.key, a.gone);
    forall j | j in s'.active ensures Fits(cfg, s'.lrpGuids, s'.containers.Keys, j, s'.active[j]) {
      if j != a.key {
        FitsFrame(cfg, s.lrpGuids, s.containers.Keys, s'.lrpGuids, s'.containers.Keys, j, s.active[j]);
      }
    }
  }

  lemma RecordsStep(cfg: Config, s: Cell, a: Action)
    requires Enabled(cfg, s, a) && a.Step? && GuidsOn(cfg.cellID, s.bbs) <= s.lrpGuids
    requires Fits(cfg, s.lrpGuids, s.containers.Keys, a.key, s.active[a.key])
    requires OpTrace(cfg, s.active[a.key].op, s.active[a.key].t)
    ensures GuidsOn(cfg.cellID, Next(cfg, s, a).bbs) <= s.lrpGuids
  {
    var f := s.active[a.key];
    var e := f.t[f.pos];
    if Removes(e.call) {
      RemovalFilesNothing(cfg.cellID, s.bbs, e.call);
    } else if Files(e.call).Some? {
      FilesOwn(cfg, s.lrpGuids, s.containers.Keys, a.key, f);
    }
  }

  lemma LooksFirst(cfg: Config, op: Operation, t: seq<Event>)
    requires OpTrace(cfg, op, t)
    ensures t != [] && t[0].call == GetContainer(op.Key())
  {
  }

  /** Every action keeps the invariant. */
  lemma InvNext(cfg: Config, s: Cell, a: Action)
    requires Inv(cfg, s) && Enabled(cfg, s, a)
    ensures Inv(cfg, Next(cfg, s, a))
  {
    ScriptedNext(cfg, s, a);
    ContainersNext(cfg, s, a);
    QueueNext(cfg, s, a);
    if a.Step? {
      LooksFirst(cfg, s.active[a.key].op, s.active[a.key].t);
      ActiveStep(cfg, s, a);
      RecordsStep(cfg, s, a);
    } else {
      ActiveOther(cfg, s, a);
      RecordsOther(cfg, s, a);
    }
  }

  /** The invariant holds in every state of every run. */
  lemma {:induction false} InvRun(cfg: Config, ss: seq<Cell>, acts: seq<Action>, i: nat)
    requires IsRun(cfg, ss, acts) && Inv(cfg, ss[0]) && i < |ss|
    ensures Inv(cfg, ss[i])
    decreases i
  {
    if i > 0 {
      InvRun(cfg, ss, acts, i - 1);
      InvNext(cfg, ss[i - 1], acts[i - 1]);
    }
  }

  lemma StepLooksFirst(cfg: Config, ss: seq<Cell>, acts: seq<Action>, i: nat)
    requires IsRun(cfg, ss, acts) && Init(cfg, ss[0]) && i < |acts| && acts[i].Step?
    ensures ss[i].active[acts[i].key].t[0].call == GetContainer(acts[i].key)
  {
    InvInit(cfg, ss[0]);
    InvRun(cfg, ss, acts, i);
    LooksFirst(cfg, ss[i].active[acts[i].key].op, ss[i].active[acts[i].key].t);
  }
}
