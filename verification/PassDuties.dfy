/** What the processors must do: for every pass and every reply, which calls are made, and exactly
    when. `TraceSafety` says what they never do. */
module PassDuties {
  import opened Types
  import opened Decimal
  import opened Conversion
  import opened Clients
  import opened Operations
  import opened TraceSafety
  import opened Harmonizer
  import Ordinary = OrdinaryLRP
  import Evacuation = EvacuationLRP
  import TaskProcessing

  ghost predicate Sends(t: seq<Event>, call: Call) {
    exists i :: 0 <= i < |t| && t[i].call == call
  }

  // ---------------------------------------------------------------- ordinary LRP passes

  /** A Running pass reports the instance as started, once, first and with its own keys and net
      info, if and only if that net info is valid; and it stops the container if and only if the BBS
      answers that the instance cannot be started. */
  lemma RunningIsReported(cfg: Config, x: LRPContainer, t: seq<Event>)
    requires Ordinary.PassOver(cfg, x, t) && x.c.state == Running
    ensures Sends(t, StartActualLRP(x.key, x.ik, x.c.netInfo)) <==> cfg.models.validNetInfo(x.c.netInfo)
    ensures forall i :: 0 <= i < |t| && t[i].call.StartActualLRP? ==> i == 0 && t[0].call == StartActualLRP(x.key, x.ik, x.c.netInfo)
    ensures Sends(t, StopContainer(x.c.guid)) <==> t != [] && t[0].reply.err == Some(ActualLRPCannotBeStarted)
    ensures forall i :: 0 <= i < |t| && t[i].call.StopContainer? ==> i == 1
  {
    if |t| == 2 {
      assert t[1].call == StopContainer(x.c.guid);
    }
  }

  predicate Unstarted(s: State) { s == Reserved || s == Initializing || s == Created }

  /** Before it runs, an instance is claimed: the first call, and the only claim. */
  lemma ClaimComesFirst(cfg: Config, x: LRPContainer, t: seq<Event>)
    requires Ordinary.PassOver(cfg, x, t) && Unstarted(x.c.state)
    ensures t != [] && t[0].call == ClaimActualLRP(x.key.processGuid, x.key.index, x.ik)
    ensures forall i :: 1 <= i < |t| ==> !t[i].call.ClaimActualLRP?
  {
  }

  /** A Reserved container is run if and only if its claim was granted and a desired LRP was fetched
      from which a run request can be built; a claim that is granted is always followed by that fetch. */
  lemma ReservedRunsIff(cfg: Config, x: LRPContainer, t: seq<Event>)
    requires Ordinary.PassOver(cfg, x, t) && x.c.state == Reserved
    ensures t != []
    ensures Sends(t, DesiredLRPByProcessGuid(x.key.processGuid)) <==> t[0].reply.Ok()
    ensures t[0].reply.Ok() ==> |t| >= 2 && t[1].call == DesiredLRPByProcessGuid(x.key.processGuid)
    ensures Sends(t, RunContainer(x.c.guid)) <==>
            t[0].reply.Ok() && t[1].reply.runnable.Some? && t[1].reply.runnable.value.buildable
  {
    if |t| >= 3 {
      assert t[2].call == RunContainer(x.c.guid);
    }
  }

  /** An Initializing or Created container is claimed and nothing more, save that it is deleted if
      and only if the claim cannot be granted. */
  lemma ClaimIsAll(cfg: Config, x: LRPContainer, t: seq<Event>)
    requires Ordinary.PassOver(cfg, x, t) && (x.c.state == Initializing || x.c.state == Created)
    ensures t != [] && |t| == if t[0].reply.err == Some(ActualLRPCannotBeClaimed) then 2 else 1
    ensures |t| == 2 ==> Deletes(t[1], x.c.guid)
  {
  }

  // ---------------------------------------------------------------- evacuation passes

  /** What an evacuation pass tells the BBS of a container in this state. */
  predicate Tells(cfg: Config, x: LRPContainer, call: Call) {
    || (Unstarted(x.c.state) && call == EvacuateClaimedActualLRP(x.key, x.ik))
    || (x.c.state == Running && call == EvacuateRunningActualLRP(x.key, x.ik, x.c.netInfo, cfg.evacuationTTL))
    || (x.c.state == Completed && x.c.runResult.stopped && call == EvacuateStoppedActualLRP(x.key, x.ik))
    || (x.c.state == Completed && !x.c.runResult.stopped && call == EvacuateCrashedActualLRP(x.key, x.ik, x.c.runResult.failureReason))
  }

  /** An evacuation pass first tells the BBS what becomes of the instance, unless it is Running with
      invalid net info or in a state no processor knows; after that it only deletes. */
  lemma EvacuationTellsIff(cfg: Config, x: LRPContainer, t: seq<Event>)
    requires Evacuation.PassOver(cfg, x, t)
    ensures t == [] <==> x.c.state == Invalid || (x.c.state == Running && !cfg.models.validNetInfo(x.c.netInfo))
    ensures t != [] ==> Tells(cfg, x, t[0].call)
    ensures forall i :: 1 <= i < |t| ==> Deletes(t[i], x.c.guid)
  {
  }

  // ---------------------------------------------------------------- task passes

  predicate Active(s: State) { Unstarted(s) || s == Running }

  /** A pass over a task that has not completed starts it, first and once. */
  lemma StartComesFirst(cfg: Config, c: Container, t: seq<Event>)
    requires TaskProcessing.Pass(cfg, c, t) && Active(c.state)
    ensures t != [] && t[0].call == StartTask(c.guid, cfg.cellID)
    ensures forall i :: 1 <= i < |t| ==> !t[i].call.StartTask?
  {
    ActiveStarts(cfg, c.guid, t);
  }

  lemma ActiveStarts(cfg: Config, g: Guid, t: seq<Event>)
    requires TaskProcessing.ActiveTrace(cfg, g, t)
    ensures t != [] && t[0].call == StartTask(g, cfg.cellID)
    ensures forall i :: 1 <= i < |t| ==> !t[i].call.StartTask?
  {
  }

  predicate PastStarting(e: Event) { e.reply.err == Some(InvalidStateTransition) || e.reply.err == Some(ResourceNotFound) }

  /** Such a pass deletes if and only if the BBS answers that the task is gone or past starting, or a
      run was refused: any other error leaves the container alone. */
  lemma TaskDeletesIff(cfg: Config, c: Container, t: seq<Event>)
    requires TaskProcessing.Pass(cfg, c, t) && Active(c.state)
    ensures t != []
    ensures (exists i :: 0 <= i < |t| && t[i].call.DeleteContainer?) <==>
            PastStarting(t[0]) || exists i :: 0 <= i < |t| && FailedRun(t[i])
    ensures (forall i :: 0 <= i < |t| ==> HonestReply(t[i])) ==>
              forall i :: 0 <= i < |t| && t[i].call.DeleteContainer? ==> Deletes(t[i], c.guid)
  {
    ActiveDeletesIff(cfg, c.guid, t);
    ActiveDeletesOwn(cfg, c.guid, t);
  }

  lemma ActiveDeletesIff(cfg: Config, g: Guid, t: seq<Event>)
    requires TaskProcessing.ActiveTrace(cfg, g, t)
    ensures (exists i :: 0 <= i < |t| && t[i].call.DeleteContainer?) <==>
            PastStarting(t[0]) || exists i :: 0 <= i < |t| && FailedRun(t[i])
  {
    if TaskProcessing.NotStartedTrace(cfg, g, t) {
      if |t| == 2 {
        assert t[1].call.DeleteContainer?;
      }
    } else if |t| == 5 {
      assert FailedRun(t[2]) && t[3].call.DeleteContainer?;
    }
  }

  lemma ActiveDeletesOwn(cfg: Config, g: Guid, t: seq<Event>)
    requires TaskProcessing.ActiveTrace(cfg, g, t)
    ensures (forall i :: 0 <= i < |t| ==> HonestReply(t[i])) ==>
              forall i :: 0 <= i < |t| && t[i].call.DeleteContainer? ==> Deletes(t[i], g)
  {
    if |t| == 5 && HonestReply(t[1]) {
      assert t[3].call == DeleteContainer(g);
    }
  }

  /** A task is fetched if and only if starting it changed it, and run if and only if moreover the
      fetched task is one a run request can be built from. */
  lemma TaskRunsIff(cfg: Config, c: Container, t: seq<Event>)
    requires TaskProcessing.Pass(cfg, c, t) && Active(c.state)
    ensures t != []
    ensures Sends(t, TaskByGuid(c.guid)) <==> t[0].reply.Ok() && t[0].reply.flag
    ensures t[0].reply.Ok() && t[0].reply.flag ==> |t| >= 2 && t[1].call == TaskByGuid(c.guid)
    ensures (exists i :: 0 <= i < |t| && t[i].call.RunContainer?) <==>
            && t[0].reply.Ok() && t[0].reply.flag
            && t[1].reply.runnable.Some? && t[1].reply.runnable.value.buildable
  {
    ActiveRunsIff(cfg, c.guid, t);
  }

  lemma ActiveRunsIff(cfg: Config, g: Guid, t: seq<Event>)
    requires TaskProcessing.ActiveTrace(cfg, g, t)
    ensures Sends(t, TaskByGuid(g)) <==> t[0].reply.Ok() && t[0].reply.flag
    ensures t[0].reply.Ok() && t[0].reply.flag ==> |t| >= 2 && t[1].call == TaskByGuid(g)
    ensures (exists i :: 0 <= i < |t| && t[i].call.RunContainer?) <==>
            && t[0].reply.Ok() && t[0].reply.flag
            && t[1].reply.runnable.Some? && t[1].reply.runnable.value.buildable
  {
    if |t| >= 3 {
      assert t[2].call.RunContainer?;
    }
  }

  /** A pass over a completed task fetches the result file if and only if the run did not fail and
      the container names one. Unless that fetch fails it then completes the task, as what the
      container reports, with the text fetched and otherwise with none. */
  lemma CompletionCarriesResult(cfg: Config, c: Container, t: seq<Event>)
    requires TaskProcessing.Pass(cfg, c, t) && c.state == Completed
    ensures t != []
    ensures var wants := !c.runResult.failed && c.Tag(RESULT_FILE_TAG) != "";
            && (t[0].call.FetchResultFile? <==> wants)
            && (wants ==> t[0].call == FetchResultFile(c.guid, c.Tag(RESULT_FILE_TAG)))
            && (wants && t[0].reply.Ok() ==>
                  && |t| >= 2
                  && t[1].call == CompleteTask(c.guid, cfg.cellID, false, c.runResult.failureReason, t[0].reply.text))
            && (!wants ==> t[0].call == CompleteTask(c.guid, cfg.cellID, c.runResult.failed, c.runResult.failureReason, ""))
  {
    var outcome := t[..|t| - 1];
    assert outcome[0] == t[0];
    if TaskProcessing.Fetches(c) && t[0].reply.Ok() {
      assert outcome[1..][0] == outcome[1] == t[1];
    }
  }

  // ---------------------------------------------------------------- whole operations

  /** A container operation that finds its container goes on by its lifecycle, and only then. */
  lemma OperationGoesOn(cfg: Config, op: Operation, t: seq<Event>, c: Container)
    requires OpTrace(cfg, op, t) && op.ContainerOp? && t[0].reply.container == Some(c)
    ensures t[0].call == GetContainer(op.guid)
    ensures c.Tag(LIFECYCLE_TAG) == LRP_LIFECYCLE ==> |t| >= 2 && t[1].call == AskEvacuating
    ensures c.Tag(LIFECYCLE_TAG) == TASK_LIFECYCLE && Active(c.state) ==> |t| >= 2 && t[1].call == StartTask(c.guid, cfg.cellID)
    ensures c.Tag(LIFECYCLE_TAG) == TASK_LIFECYCLE && c.state == Completed ==> |t| >= 3 && Deletes(t[|t| - 1], c.guid)
    ensures |t| == 1 <==> ( || (c.Tag(LIFECYCLE_TAG) != LRP_LIFECYCLE && c.Tag(LIFECYCLE_TAG) != TASK_LIFECYCLE)
                            || (c.Tag(LIFECYCLE_TAG) == TASK_LIFECYCLE && c.state == Invalid))
  {
    var rest := t[1..];
    assert |t| >= 2 ==> rest[0] == t[1];
    if c.Tag(LIFECYCLE_TAG) == TASK_LIFECYCLE {
      LifecyclesDiffer();
      TaskPassGoesOn(cfg, c, rest);
      assert rest != [] ==> rest[|rest| - 1] == t[|t| - 1];
    }
  }

  lemma TaskPassGoesOn(cfg: Config, c: Container, t: seq<Event>)
    requires TaskProcessing.Pass(cfg, c, t)
    ensures Active(c.state) ==> t != [] && t[0].call == StartTask(c.guid, cfg.cellID)
    ensures c.state == Completed ==> |t| >= 2 && Deletes(t[|t| - 1], c.guid)
    ensures t == [] <==> c.state == Invalid
  {
    if Active(c.state) {
      StartComesFirst(cfg, c, t);
    } else if c.state == Completed {
      TaskOutcomeBeforeDelete(cfg, c, t);
    }
  }

  // ---------------------------------------------------------------- over runs

  predicate Logged(s: Cell) {
    forall k :: k in s.active ==> s.active[k].pos <= |s.active[k].t| && forall j :: 0 <= j < s.active[k].pos ==> s.active[k].t[j] in s.log
  }

  lemma LoggedNext(cfg: Config, s: Cell, a: Action)
    requires Logged(s) && Enabled(cfg, s, a)
    ensures Logged(Next(cfg, s, a))
  {
    var s' := Next(cfg, s, a);
    forall k | k in s'.active
      ensures s'.active[k].pos <= |s'.active[k].t| && forall j :: 0 <= j < s'.active[k].pos ==> s'.active[k].t[j] in s'.log
    {
      LoggedAt(cfg, s, a, k);
    }
  }

  lemma LoggedAt(cfg: Config, s: Cell, a: Action, k: Guid)
    requires Enabled(cfg, s, a) && k in Next(cfg, s, a).active
    requires k in s.active ==> s.active[k].pos <= |s.active[k].t| && forall j :: 0 <= j < s.active[k].pos ==> s.active[k].t[j] in s.log
    ensures var s' := Next(cfg, s, a);
            s'.active[k].pos <= |s'.active[k].t| && forall j :: 0 <= j < s'.active[k].pos ==> s'.active[k].t[j] in s'.log
  {
    var s' := Next(cfg, s, a);
    if a.Step? {
      var e := s.active[a.key].t[s.active[a.key].pos];
      assert s'.log == s.log + [e] && s'.log[|s.log|] == e;
    }
  }

  lemma {:induction false} LoggedRun(cfg: Config, ss: seq<Cell>, acts: seq<Action>, i: nat)
    requires IsRun(cfg, ss, acts) && Init(cfg, ss[0]) && i < |ss|
    ensures Logged(ss[i])
    decreases i
  {
    if i > 0 {
      LoggedRun(cfg, ss, acts, i - 1);
      LoggedNext(cfg, ss[i - 1], acts[i - 1]);
    }
  }

  /** The call by which a Running LRP makes itself known, by the mode the operation works in. */
  function Announcement(cfg: Config, x: LRPContainer, evacuating: bool): (call: Call) {
    if evacuating then EvacuateRunningActualLRP(x.key, x.ik, x.c.netInfo, cfg.evacuationTTL)
    else StartActualLRP(x.key, x.ik, x.c.netInfo)
  }

  lemma RunningOperation(cfg: Config, op: Operation, t: seq<Event>, x: LRPContainer)
    requires OpTrace(cfg, op, t) && op.ContainerOp? && t[0].reply.container == Some(x.c) && IsLRP(x.c)
    requires LRPContainerOf(cfg, x.c) == Some(x) && x.c.state == Running && cfg.models.validNetInfo(x.c.netInfo)
    ensures |t| >= 3 && t[1].call == AskEvacuating && t[2].call == Announcement(cfg, x, t[1].reply.flag)
  {
    var rest := t[1..];
    var pass := rest[1..];
    assert LRPPass(cfg, x.c, rest) && rest[0] == t[1];
    if rest[0].reply.flag {
      EvacuationTellsIff(cfg, x, pass);
    } else {
      RunningIsReported(cfg, x, pass);
    }
    assert pass[0] == t[2];
  }

  /** In every run, no operation finishes over a Running LRP with readable keys and valid net info
      without having announced it to the BBS, as started or as evacuating by what it was told. */
  lemma NoRunningLRPPassedOver(cfg: Config, ss: seq<Cell>, acts: seq<Action>, i: nat, x: LRPContainer)
    requires IsRun(cfg, ss, acts) && Init(cfg, ss[0]) && i < |acts| && acts[i].Finish?
    requires var f := ss[i].active[acts[i].key];
             f.op.ContainerOp? && f.t != [] && f.t[0].reply.container == Some(x.c)
    requires IsLRP(x.c) && LRPContainerOf(cfg, x.c) == Some(x) && x.c.state == Running && cfg.models.validNetInfo(x.c.netInfo)
    ensures var f := ss[i].active[acts[i].key];
            |f.t| >= 3 && Sends(ss[i].log, Announcement(cfg, x, f.t[1].reply.flag))
  {
    var f := ss[i].active[acts[i].key];
    InvInit(cfg, ss[0]);
    InvRun(cfg, ss, acts, i);
    LoggedRun(cfg, ss, acts, i);
    RunningOperation(cfg, f.op, f.t, x);
    assert f.t[2] in ss[i].log;
  }

  // ---------------------------------------------------------------- keys

  /** A container has readable keys if and only if it has tags, its index tag is a decimal integer and
      both keys are valid; they are then what the tags say. */
  lemma KeysIff(cfg: Config, c: Container)
    ensures LRPContainerOf(cfg, c).Some? <==>
            && c.tags.Some? && Atoi(c.Tag(PROCESS_INDEX_TAG)).Some?
            && cfg.models.validKey(LRPKey(c.Tag(PROCESS_GUID_TAG), Wrap32(Atoi(c.Tag(PROCESS_INDEX_TAG)).value), c.Tag(DOMAIN_TAG)))
            && cfg.models.validInstanceKey(InstanceKey(c.Tag(INSTANCE_GUID_TAG), cfg.cellID))
    ensures LRPContainerOf(cfg, c).Some? ==>
            LRPContainerOf(cfg, c).value ==
            LRPContainer(LRPKey(c.Tag(PROCESS_GUID_TAG), Wrap32(Atoi(c.Tag(PROCESS_INDEX_TAG)).value), c.Tag(DOMAIN_TAG)),
                         InstanceKey(c.Tag(INSTANCE_GUID_TAG), cfg.cellID), c)
  {
    if c.tags.Some? {
      assert c.Tag(PROCESS_INDEX_TAG) == Lookup(c.tags.value, PROCESS_INDEX_TAG);
      assert c.Tag(PROCESS_GUID_TAG) == Lookup(c.tags.value, PROCESS_GUID_TAG);
      assert c.Tag(DOMAIN_TAG) == Lookup(c.tags.value, DOMAIN_TAG);
    }
  }
}
