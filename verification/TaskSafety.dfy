/** When a residual task operation fails a task that has a container after all. */
module TaskSafety {
  import opened Types
  import opened Operations
  import opened Batch
  import opened Residual
  import opened Harmonizer
  import opened HarmonizerSafety

  // ---------------------------------------------------------------- one step

  /** A residual task operation that has seen its container absent and has not failed the task yet. */
  predicate Exposed(s: Cell, k: Guid) {
    && k in s.active && s.active[k].op.ResidualTask?
    && 1 <= s.active[k].pos < |s.active[k].t| && s.active[k].t[0].reply.container.None?
  }

  /** No task about to be failed for want of a container has one. */
  predicate TasksSafe(s: Cell) {
    forall k :: k in s.active && Exposed(s, k) ==> k !in s.containers
  }

  predicate Reallocates(s: Cell, a: Action) {
    (a.AllocateTask? || a.AllocateLRP?) && Exposed(s, a.c.guid)
  }

  /** Task guids, unlike instance guids, can be allocated again. That is the one way to fail a task
      whose container exists: a step breaks the safety of tasks exactly when it allocates the
      container of a task some operation is about to fail. */
  lemma TaskSafetyBreaksIff(cfg: Config, s: Cell, a: Action)
    requires Inv(cfg, s) && TasksSafe(s) && Enabled(cfg, s, a)
    ensures TasksSafe(Next(cfg, s, a)) <==> !Reallocates(s, a)
  {
    var s' := Next(cfg, s, a);
    if Reallocates(s, a) {
      assert Exposed(s', a.c.guid);
    } else {
      if a.Step? {
        LooksFirst(cfg, s.active[a.key].op, s.active[a.key].t);
      }
      forall k | k in s'.active && Exposed(s', k) ensures k !in s'.containers {
        TaskStaysSafe(cfg, s, a, k);
      }
    }
  }

  lemma TaskStaysSafe(cfg: Config, s: Cell, a: Action, k: Guid)
    requires TasksSafe(s) && Enabled(cfg, s, a) && Exposed(Next(cfg, s, a), k) && !Reallocates(s, a)
    requires a.Step? ==> s.active[a.key].t[0].call == GetContainer(a.key)
    ensures k !in Next(cfg, s, a).containers
  {
    if a.Step? && a.key == k {
      if s.active[k].pos >= 1 {
        assert Exposed(s, k);
      }
    } else if a.Start? && a.op.Key() == k {
    } else {
      assert Exposed(s, k);
    }
  }

  // ---------------------------------------------------------------- the same, over runs

  predicate Allocates(a: Action, k: Guid) { (a.AllocateTask? || a.AllocateLRP?) && a.c.guid == k }

  /** `a` takes the container of `k` away: the executor reaps it, or a delete has its effect. */
  predicate TakesAway(s: Cell, a: Action, k: Guid) {
    || a == ExecutorReaps(k)
    || ( && a.Step? && a.gone && a.key in s.active && s.active[a.key].pos < |s.active[a.key].t|
         && s.active[a.key].t[s.active[a.key].pos].call == DeleteContainer(k))
  }

  /** All that matters to one task in a state, and in an action. */
  datatype View = View(exposed: bool, present: bool)

  datatype Move = Move(allocates: bool, takes: bool)

  predicate Moves(v: View, m: Move, v': View) {
    && (v'.present <==> m.allocates || (v.present && !m.takes))
    && (v'.exposed ==> v.exposed || !v'.present)
  }

  predicate ViewRun(vs: seq<View>, ms: seq<Move>) {
    && |vs| == |ms| + 1 && !vs[0].exposed
    && forall i :: 0 <= i < |ms| ==> Moves(vs[i], ms[i], vs[i + 1])
  }

  predicate Window(vs: seq<View>, ms: seq<Move>, i: nat, j: nat)
    requires |vs| == |ms| + 1 && i < |vs|
  {
    && j < i && ms[j].allocates
    && (forall m :: j <= m <= i ==> vs[m].exposed)
    && (forall m :: j < m < i ==> !ms[m].takes)
  }

  lemma {:induction false} FindWindow(vs: seq<View>, ms: seq<Move>, i: nat) returns (j: nat)
    requires ViewRun(vs, ms) && i < |vs| && vs[i].exposed && vs[i].present
    ensures Window(vs, ms, i, j)
    decreases i
  {
    assert Moves(vs[i - 1], ms[i - 1], vs[i]);
    j := i - 1;
    if !ms[i - 1].allocates {
      j := FindWindow(vs, ms, i - 1);
    }
  }

  lemma {:induction false} WindowPresent(vs: seq<View>, ms: seq<Move>, i: nat, j: nat)
    requires ViewRun(vs, ms) && i < |vs| && Window(vs, ms, i, j)
    ensures vs[i].present
    decreases i
  {
    assert Moves(vs[i - 1], ms[i - 1], vs[i]);
    if j < i - 1 {
      WindowPresent(vs, ms, i - 1, j);
    }
  }

  function Views(ss: seq<Cell>, k: Guid): (vs: seq<View>) {
    seq(|ss|, i requires 0 <= i < |ss| => View(Exposed(ss[i], k), k in ss[i].containers))
  }

  function MovesOf(ss: seq<Cell>, acts: seq<Action>, k: Guid): (ms: seq<Move>)
    requires |ss| == |acts| + 1
  {
    seq(|acts|, i requires 0 <= i < |acts| => Move(Allocates(acts[i], k), TakesAway(ss[i], acts[i], k)))
  }

  lemma PresentNext(cfg: Config, s: Cell, a: Action, k: Guid)
    requires Enabled(cfg, s, a)
    ensures k in Next(cfg, s, a).containers <==> Allocates(a, k) || (k in s.containers && !TakesAway(s, a, k))
  {
  }

  /** An operation becomes exposed only by its look, which then found no container. */
  lemma ExposedNext(cfg: Config, s: Cell, a: Action, k: Guid)
    requires Enabled(cfg, s, a) && Exposed(Next(cfg, s, a), k)
    requires a.Step? ==> s.active[a.key].t[0].call == GetContainer(a.key)
    ensures Exposed(s, k) || k !in Next(cfg, s, a).containers
  {
  }

  lemma ViewsRun(cfg: Config, ss: seq<Cell>, acts: seq<Action>, k: Guid)
    requires IsRun(cfg, ss, acts) && Init(cfg, ss[0])
    ensures ViewRun(Views(ss, k), MovesOf(ss, acts, k))
  {
    var vs, ms := Views(ss, k), MovesOf(ss, acts, k);
    forall i | 0 <= i < |ms| ensures Moves(vs[i], ms[i], vs[i + 1]) {
      if acts[i].Step? {
        StepLooksFirst(cfg, ss, acts, i);
      }
      ViewNext(cfg, ss[i], acts[i], k);
    }
  }

  lemma ViewNext(cfg: Config, s: Cell, a: Action, k: Guid)
    requires Enabled(cfg, s, a) && (a.Step? ==> s.active[a.key].t[0].call == GetContainer(a.key))
    ensures var s' := Next(cfg, s, a);
            Moves(View(Exposed(s, k), k in s.containers), Move(Allocates(a, k), TakesAway(s, a, k)), View(Exposed(s', k), k in s'.containers))
  {
    PresentNext(cfg, s, a, k);
    if Exposed(Next(cfg, s, a), k) {
      ExposedNext(cfg, s, a, k);
    }
  }

  /** Action `j` allocated the container of `k` inside the window between the look and the call of
      the operation exposed at `i`, and nothing has taken it away since. */
  predicate AllocatedInWindow(ss: seq<Cell>, acts: seq<Action>, i: nat, j: nat, k: Guid)
    requires |ss| == |acts| + 1 && i < |ss|
  {
    && j < i && Allocates(acts[j], k)
    && (forall m :: j <= m <= i ==> Exposed(ss[m], k))
    && (forall m :: j < m < i ==> !TakesAway(ss[m], acts[m], k))
  }

  lemma WindowIs(ss: seq<Cell>, acts: seq<Action>, i: nat, j: nat, k: Guid)
    requires |ss| == |acts| + 1 && i < |ss|
    ensures AllocatedInWindow(ss, acts, i, j, k) <==> Window(Views(ss, k), MovesOf(ss, acts, k), i, j)
  {
    var vs, ms := Views(ss, k), MovesOf(ss, acts, k);
    assert forall m :: 0 <= m < |ss| ==> vs[m].exposed == Exposed(ss[m], k);
    assert forall m :: 0 <= m < |acts| ==> ms[m].takes == TakesAway(ss[m], acts[m], k);
  }

  /** While an operation is exposed, its task has a container exactly if one was allocated in the
      window and is still there. */
  lemma ExposedPresentIff(cfg: Config, ss: seq<Cell>, acts: seq<Action>, i: nat, k: Guid)
    requires IsRun(cfg, ss, acts) && Init(cfg, ss[0]) && i < |ss| && Exposed(ss[i], k)
    ensures k in ss[i].containers <==> exists j :: AllocatedInWindow(ss, acts, i, j, k)
  {
    ViewsRun(cfg, ss, acts, k);
    PresentIff(ss, acts, i, k);
  }

  lemma PresentIff(ss: seq<Cell>, acts: seq<Action>, i: nat, k: Guid)
    requires |ss| == |acts| + 1 && ViewRun(Views(ss, k), MovesOf(ss, acts, k)) && i < |ss| && Exposed(ss[i], k)
    ensures k in ss[i].containers <==> exists j :: AllocatedInWindow(ss, acts, i, j, k)
  {
    var vs, ms := Views(ss, k), MovesOf(ss, acts, k);
    assert vs[i] == View(true, k in ss[i].containers);
    if k in ss[i].containers {
      var j := FindWindow(vs, ms, i);
      WindowIs(ss, acts, i, j, k);
    }
    forall j | AllocatedInWindow(ss, acts, i, j, k) ensures k in ss[i].containers {
      WindowIs(ss, acts, i, j, k);
      WindowPresent(vs, ms, i, j);
    }
  }

  /** `acts[i]` is a residual task operation failing its task for want of a container. */
  predicate FailsMissing(ss: seq<Cell>, acts: seq<Action>, i: nat) {
    && i < |acts| && i < |ss| && acts[i].Step? && acts[i].key in ss[i].active
    && var f := ss[i].active[acts[i].key];
       f.op.ResidualTask? && f.pos < |f.t| && f.t[f.pos].call == FailTask(acts[i].key, MissingContainer)
  }

  lemma FailingIsExposed(cfg: Config, s: Cell, k: Guid)
    requires k in s.active && OpTrace(cfg, s.active[k].op, s.active[k].t)
    requires s.active[k].op.ResidualTask? && s.active[k].pos < |s.active[k].t|
    requires s.active[k].t[s.active[k].pos].call.FailTask?
    ensures Exposed(s, k)
  {
    var f := s.active[k];
    LooksFirst(cfg, f.op, f.t);
    CleanupFollowsAbsence(cfg, f.op, f.t, f.pos);
  }

  /** In every run, and however many other tasks were failed wrongly before: a task is failed for
      want of a container it has if and only if that container was allocated between the
      operation's look and this call, and has not been taken away since. */
  lemma FailsTaskWithContainerIff(cfg: Config, ss: seq<Cell>, acts: seq<Action>, i: nat)
    requires IsRun(cfg, ss, acts) && Init(cfg, ss[0]) && FailsMissing(ss, acts, i)
    ensures acts[i].key in ss[i].containers <==> exists j :: AllocatedInWindow(ss, acts, i, j, acts[i].key)
  {
    InvInit(cfg, ss[0]);
    InvRun(cfg, ss, acts, i);
    FailingIsExposed(cfg, ss[i], acts[i].key);
    ExposedPresentIff(cfg, ss, acts, i, acts[i].key);
  }

  /** Without such an allocation the safety of tasks lasts over the whole run. */
  lemma TasksSafeRun(cfg: Config, ss: seq<Cell>, acts: seq<Action>, i: nat)
    requires IsRun(cfg, ss, acts) && Init(cfg, ss[0]) && i < |ss|
    requires forall j :: 0 <= j < i ==> !Reallocates(ss[j], acts[j])
    ensures TasksSafe(ss[i])
  {
    forall k | k in ss[i].active && Exposed(ss[i], k) ensures k !in ss[i].containers {
      ExposedPresentIff(cfg, ss, acts, i, k);
      forall j ensures !AllocatedInWindow(ss, acts, i, j, k) {
        NoWindow(ss, acts, i, j, k);
      }
    }
  }

  lemma NoWindow(ss: seq<Cell>, acts: seq<Action>, i: nat, j: nat, k: Guid)
    requires |ss| == |acts| + 1 && i < |ss|
    requires forall m :: 0 <= m < i ==> !Reallocates(ss[m], acts[m])
    ensures !AllocatedInWindow(ss, acts, i, j, k)
  {
    if j < i && Exposed(ss[j], k) {
      assert !Reallocates(ss[j], acts[j]);
    }
  }

  // ---------------------------------------------------------------- the run that does it

  function Answer(): (r: Reply) { Reply(None, false, None, None, "") }

  /** A residual task operation that finds no container and fails the task. */
  function FailScript(k: Guid): (t: seq<Event>) {
    [Event(GetContainer(k), Answer()), Event(FailTask(k, MissingContainer), Answer())]
  }

  function TaskContainer(k: Guid): (c: Container) {
    Container(k, Reserved, Some(map[LIFECYCLE_TAG := TASK_LIFECYCLE]), RunResult(false, "", false), NetInfo("", "", []), 0, 0)
  }

  /** An idle cell with a task the BBS has placed on it and no container for it. */
  predicate Ripe(cfg: Config, s: Cell, k: Guid) {
    && Init(cfg, s) && k !in s.containers && k !in s.lrpGuids
    && k in s.bbs.tasks && s.bbs.tasks[k] == RunningOn(cfg.cellID)
  }

  function ListedCell(s: Cell, k: Guid): (s': Cell) {
    s.(listedContainers := Some([]), listedLRPs := Some([]), listedTasks := Some([k]))
  }

  function QueuedCell(s: Cell, k: Guid): (s': Cell) { s.(queue := {ResidualTask(k)}) }

  function FailingCell(s: Cell, k: Guid, pos: nat): (s': Cell) {
    s.(active := map[k := InFlight(ResidualTask(k), FailScript(k), pos)], log := FailScript(k)[..if pos <= 2 then pos else 2])
  }

  lemma EnqueuesTask(cfg: Config, s: Cell, k: Guid)
    requires Ripe(cfg, s, k)
    ensures Takes(cfg, ListedCell(s, k), Enqueue, QueuedCell(s, k))
  {
    var snap := Listed([], [], [k]);
    assert snap.containers == {} && snap.tasks == {k};
    assert Guids(snap) == {k};
    var batch := BatchOf(snap);
    assert batch.Keys == {k} && batch[k] == ResidualTask(k);
    assert batch.Values == {ResidualTask(k)};
    assert BatchFrom(ListedCell(s, k)) == {ResidualTask(k)};
    assert s.queue + {ResidualTask(k)} == {ResidualTask(k)};
  }

  lemma FailScriptFits(cfg: Config, k: Guid)
    ensures OpTrace(cfg, ResidualTask(k), FailScript(k))
  {
    var t := FailScript(k);
    assert t[1..] == [t[1]];
  }

  lemma StartsTask(cfg: Config, s: Cell, k: Guid)
    requires Ripe(cfg, s, k)
    ensures Takes(cfg, QueuedCell(s, k), Start(ResidualTask(k), FailScript(k)), FailingCell(s, k, 0))
  {
    FailScriptFits(cfg, k);
    assert FailScript(k)[..0] == [];
    assert {ResidualTask(k)} - {ResidualTask(k)} == {};
  }

  lemma LooksInVain(cfg: Config, s: Cell, k: Guid)
    requires Ripe(cfg, s, k)
    ensures Takes(cfg, FailingCell(s, k, 0), Step(k, s.bbs, false), FailingCell(s, k, 1))
  {
    var t := FailScript(k);
    assert t[..0] + [t[0]] == t[..1];
  }

  lemma ListsTask(cfg: Config, s: Cell, k: Guid)
    requires Ripe(cfg, s, k)
    ensures Takes(cfg, s, Action.ListContainers([]), s.(listedContainers := Some([])))
    ensures Takes(cfg, s.(listedContainers := Some([])), ListLRPs([]), s.(listedContainers := Some([]), listedLRPs := Some([])))
    ensures Takes(cfg, s.(listedContainers := Some([]), listedLRPs := Some([])), ListTasks([k]), ListedCell(s, k))
  {
  }

  function AllocatedCell(s: Cell, k: Guid): (s': Cell) {
    FailingCell(s, k, 1).(performs := 1, containers := s.containers[k := TaskContainer(k)])
  }

  lemma AllocatesTask(cfg: Config, s: Cell, k: Guid)
    requires Ripe(cfg, s, k)
    ensures Takes(cfg, FailingCell(s, k, 1), BeginPerform, FailingCell(s, k, 1).(performs := 1))
    ensures Takes(cfg, FailingCell(s, k, 1).(performs := 1), AllocateTask(TaskContainer(k)), AllocatedCell(s, k))
  {
    assert TaskContainer(k).Tag(LIFECYCLE_TAG) == TASK_LIFECYCLE;
  }

  function FailStep(s: Cell, k: Guid): (a: Action) { Step(k, Apply(s.bbs, FailTask(k, MissingContainer)), false) }

  lemma FailsTask(cfg: Config, s: Cell, k: Guid)
    requires Ripe(cfg, s, k)
    ensures var c := AllocatedCell(s, k);
            && Enabled(cfg, c, FailStep(s, k))
            && var s' := Next(cfg, c, FailStep(s, k));
               k in s'.containers && k in s'.bbs.tasks && s'.bbs.tasks[k] == CompletedWith(MissingContainer)
  {
  }

  ghost predicate Takes(cfg: Config, s: Cell, a: Action, s': Cell) { Enabled(cfg, s, a) && Next(cfg, s, a) == s' }

  ghost predicate RunTo(cfg: Config, s: Cell, ss: seq<Cell>, acts: seq<Action>, s': Cell) {
    IsRun(cfg, ss, acts) && ss[0] == s && ss[|acts|] == s'
  }

  lemma Extend(cfg: Config, s: Cell, ss: seq<Cell>, acts: seq<Action>, s1: Cell, a: Action, s2: Cell)
    requires RunTo(cfg, s, ss, acts, s1) && Takes(cfg, s1, a, s2)
    ensures RunTo(cfg, s, ss + [s2], acts + [a], s2)
  {
    var ss', acts' := ss + [s2], acts + [a];
    forall i | 0 <= i < |acts'| ensures Takes(cfg, ss'[i], acts'[i], ss'[i + 1]) {
      if i < |acts| {
        assert Takes(cfg, ss[i], acts[i], ss[i + 1]);
      }
    }
  }

  lemma RunToQueued(cfg: Config, s: Cell, k: Guid) returns (ss: seq<Cell>, acts: seq<Action>)
    requires Ripe(cfg, s, k)
    ensures RunTo(cfg, s, ss, acts, QueuedCell(s, k)) && |acts| == 4
  {
    ListsTask(cfg, s, k);
    EnqueuesTask(cfg, s, k);
    var l1 := s.(listedContainers := Some([]));
    var l2 := l1.(listedLRPs := Some([]));
    ss, acts := [s], [];
    Extend(cfg, s, ss, acts, s, Action.ListContainers([]), l1);
    ss, acts := ss + [l1], acts + [Action.ListContainers([])];
    Extend(cfg, s, ss, acts, l1, ListLRPs([]), l2);
    ss, acts := ss + [l2], acts + [ListLRPs([])];
    Extend(cfg, s, ss, acts, l2, ListTasks([k]), ListedCell(s, k));
    ss, acts := ss + [ListedCell(s, k)], acts + [ListTasks([k])];
    Extend(cfg, s, ss, acts, ListedCell(s, k), Enqueue, QueuedCell(s, k));
    ss, acts := ss + [QueuedCell(s, k)], acts + [Enqueue];
  }

  lemma RunToAllocated(cfg: Config, s: Cell, k: Guid) returns (ss: seq<Cell>, acts: seq<Action>)
    requires Ripe(cfg, s, k)
    ensures RunTo(cfg, s, ss, acts, AllocatedCell(s, k)) && |acts| == 8
  {
    StartsTask(cfg, s, k);
    LooksInVain(cfg, s, k);
    AllocatesTask(cfg, s, k);
    ss, acts := RunToQueued(cfg, s, k);
    var q, f0, f1 := QueuedCell(s, k), FailingCell(s, k, 0), FailingCell(s, k, 1);
    var start, look := Start(ResidualTask(k), FailScript(k)), Step(k, s.bbs, false);
    Extend(cfg, s, ss, acts, q, start, f0);
    ss, acts := ss + [f0], acts + [start];
    Extend(cfg, s, ss, acts, f0, look, f1);
    ss, acts := ss + [f1], acts + [look];
    Extend(cfg, s, ss, acts, f1, BeginPerform, f1.(performs := 1));
    ss, acts := ss + [f1.(performs := 1)], acts + [BeginPerform];
    Extend(cfg, s, ss, acts, f1.(performs := 1), AllocateTask(TaskContainer(k)), AllocatedCell(s, k));
    ss, acts := ss + [AllocatedCell(s, k)], acts + [AllocateTask(TaskContainer(k))];
  }

  /** From every such cell there is a run in which the task is failed for want of a container while
      it has one: list, enqueue, look, and, before the operation goes on, a Perform allocates it. */
  lemma TaskFailedWithContainer(cfg: Config, s: Cell, k: Guid) returns (ss: seq<Cell>, acts: seq<Action>)
    requires Ripe(cfg, s, k)
    ensures IsRun(cfg, ss, acts) && ss[0] == s && |acts| == 9
    ensures FailsMissing(ss, acts, 8) && acts[8].key == k && k in ss[8].containers && k in ss[9].containers
    ensures k in ss[9].bbs.tasks && ss[9].bbs.tasks[k] == CompletedWith(MissingContainer)
  {
    FailsTask(cfg, s, k);
    ss, acts := RunToAllocated(cfg, s, k);
    var c, a := AllocatedCell(s, k), FailStep(s, k);
    Extend(cfg, s, ss, acts, c, a, Next(cfg, c, a));
    assert (ss + [Next(cfg, c, a)])[8] == c;
    ss, acts := ss + [Next(cfg, c, a)], acts + [a];
    assert acts[8] == a && ss[9] == Next(cfg, c, a);
  }
}
