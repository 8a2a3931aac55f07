/** The rep runs a container only as often as the BBS let it, over every run of the cell. */
module RunGrants {
  import opened Types
  import opened Conversion
  import opened Operations
  import opened Batch
  import opened TraceSafety
  import opened Harmonizer
  import Ordinary = OrdinaryLRP
  import Evacuation = EvacuationLRP
  import TaskProcessing

  lemma {:induction false} CountSome(p: Probe, t: seq<Event>, k: nat)
    requires k < |t| && p.Hits(t[k])
    ensures Count(p, t) >= 1
  {
    var n := |t| - 1;
    if k < n {
      CountSome(p, t[..n], k);
    }
  }

  /** The operation in flight under `k`, as the invariant describes it: a container operation that
      found its container found `c`. */
  predicate Own(cfg: Config, lrpGuids: set<Guid>, k: Guid, op: Operation, t: seq<Event>) {
    && op.Key() == k && OpTrace(cfg, op, t)
    && (op.ContainerOp? && t[0].reply.container.Some? ==> TagsFit(lrpGuids, k, t[0].reply.container.value))
  }

  predicate IsTask(c: Container) { c.Tag(LIFECYCLE_TAG) == TASK_LIFECYCLE }

  /** What lets an operation run the container it found. */
  function KindOf(t: seq<Event>): (kind: Kind)
    requires t != []
  {
    if t[0].reply.container.Some? && IsLRP(t[0].reply.container.value) then LRPClaim else TaskStart
  }

  /** An operation whose runs, if any, need grants of this kind. */
  predicate Suits(kind: Kind, op: Operation, t: seq<Event>)
    requires t != []
  {
    op.ContainerOp? && t[0].reply.container.Some? ==>
      match kind
      case Either => true
      case TaskStart => !IsLRP(t[0].reply.container.value)
      case LRPClaim => !IsTask(t[0].reply.container.value)
  }

  /** Where in its call sequence an operation runs its container, if it does. */
  function RunIndex(t: seq<Event>): (i: nat)
    requires t != []
  {
    if t[0].reply.container.Some? && IsLRP(t[0].reply.container.value) then 4 else 3
  }

  lemma CompletedTaskHits(cfg: Config, c: Container, t: seq<Event>, i: nat)
    requires TaskProcessing.CompletedTrace(cfg, c, t) && i < |t|
    ensures !t[i].call.RunContainer? && !t[i].call.StartTask? && !t[i].call.ClaimActualLRP?
  {
    if i < |t| - 1 {
      var outcome := t[..|t| - 1];
      assert outcome[i] == t[i];
      if TaskProcessing.Fetches(c) && i >= 1 {
        assert outcome[1..][i - 1] == t[i];
      }
    }
  }

  lemma TaskPassHits(cfg: Config, c: Container, t: seq<Event>, i: nat, g: Guid)
    requires TaskProcessing.Pass(cfg, c, t) && i < |t| && forall j :: 0 <= j < i ==> HonestReply(t[j])
    requires Runs(g).Hits(t[i]) || Grants(Either, g).Hits(t[i])
    ensures g == c.guid
    ensures Runs(g).Hits(t[i]) ==> i == 2 && Grants(TaskStart, g).Hits(t[0])
  {
    if c.state == Completed {
      CompletedTaskHits(cfg, c, t, i);
    } else if i == 2 {
      assert HonestReply(t[1]);
    }
  }

  lemma LRPPassHits(cfg: Config, x: LRPContainer, evacuating: bool, t: seq<Event>, i: nat, g: Guid)
    requires if evacuating then Evacuation.PassOver(cfg, x, t) else Ordinary.PassOver(cfg, x, t)
    requires i < |t| && (Runs(g).Hits(t[i]) || Grants(Either, g).Hits(t[i]))
    requires x.ik.instanceGuid == x.c.guid
    ensures g == x.c.guid
    ensures Runs(g).Hits(t[i]) ==> i == 2 && Grants(LRPClaim, g).Hits(t[0])
  {
    if evacuating {
      EvacuationDeletesIff(cfg, x, t);
    } else {
      OrdinaryAbout(cfg, x, t);
      if t[i].call.RunContainer? {
        OrdinaryRuns(cfg, x, t, i);
      }
    }
  }

  lemma OwnLRPHits(cfg: Config, lrpGuids: set<Guid>, k: Guid, c: Container, rest: seq<Event>, i: nat, g: Guid)
    requires LRPPass(cfg, c, rest) && TagsFit(lrpGuids, k, c) && IsLRP(c)
    requires i < |rest| && (Runs(g).Hits(rest[i]) || Grants(Either, g).Hits(rest[i]))
    ensures g == k
    ensures Runs(g).Hits(rest[i]) ==> i == 3 && Grants(LRPClaim, k).Hits(rest[1])
  {
    var pass := rest[1..];
    assert pass[i - 1] == rest[i] && pass[0] == rest[1];
    OwnInstanceKey(cfg, lrpGuids, k, c);
    LRPPassHits(cfg, LRPContainerOf(cfg, c).value, rest[0].reply.flag, pass, i - 1, g);
  }

  /** An operation that is not about a container neither runs one nor is granted anything. */
  lemma ResidualHits(cfg: Config, op: Operation, t: seq<Event>, i: nat, g: Guid)
    requires OpTrace(cfg, op, t) && i < |t| && (Runs(g).Hits(t[i]) || Grants(Either, g).Hits(t[i]))
    ensures i >= 1 && op.ContainerOp? && t[0].reply.container.Some?
    ensures IsLRP(t[0].reply.container.value) || IsTask(t[0].reply.container.value)
    ensures ContainerPass(cfg, t[0].reply.container.value, t[1..]) && t[1..][i - 1] == t[i]
  {
    assert i >= 1 && t[1..][i - 1] == t[i];
  }

  /** Runs and grants in an operation's calls are for its own key, and a run comes two calls after
      a grant: a claim when the container is an LRP's, a StartTask when it is a task's. */
  lemma OwnHits(cfg: Config, lrpGuids: set<Guid>, k: Guid, op: Operation, t: seq<Event>, i: nat, g: Guid)
    requires Own(cfg, lrpGuids, k, op, t) && i < |t| && forall j :: 0 <= j < i ==> HonestReply(t[j])
    requires Runs(g).Hits(t[i]) || Grants(Either, g).Hits(t[i])
    ensures g == k
    ensures Runs(g).Hits(t[i]) ==> i == RunIndex(t) && Grants(KindOf(t), k).Hits(t[i - 2])
  {
    ResidualHits(cfg, op, t, i, g);
    ContainerHits(cfg, lrpGuids, k, t[0].reply.container.value, t, i, g);
  }

  lemma ContainerHits(cfg: Config, lrpGuids: set<Guid>, k: Guid, c: Container, t: seq<Event>, i: nat, g: Guid)
    requires 1 <= i < |t| && t[0].reply.container == Some(c) && ContainerPass(cfg, c, t[1..]) && TagsFit(lrpGuids, k, c)
    requires forall j :: 0 <= j < i ==> HonestReply(t[j])
    requires Runs(g).Hits(t[i]) || Grants(Either, g).Hits(t[i])
    ensures g == k
    ensures Runs(g).Hits(t[i]) ==> i == RunIndex(t) && Grants(KindOf(t), k).Hits(t[i - 2])
  {
    var rest := t[1..];
    assert rest[i - 1] == t[i];
    if IsLRP(c) {
      OwnLRPHits(cfg, lrpGuids, k, c, rest, i - 1, g);
      assert i == 4 ==> rest[1] == t[2];
    } else {
      assert forall j :: 0 <= j < i - 1 ==> rest[j] == t[j + 1];
      TaskPassHits(cfg, c, rest, i - 1, g);
      assert rest[0] == t[1];
    }
  }

  /** `OwnHits`, said of one call. */
  predicate TidyAt(kind: Kind, k: Guid, t: seq<Event>, i: nat)
    requires i < |t|
  {
    match t[i].call
    case RunContainer(g) => g == k && i == RunIndex(t) && Grants(kind, k).Hits(t[i - 2])
    case StartTask(g, _) => t[i].reply.Ok() && t[i].reply.flag ==> g == k
    case ClaimActualLRP(_, _, ik) => t[i].reply.Ok() ==> ik.instanceGuid == k
    case _ => true
  }

  predicate Tidy(kind: Kind, k: Guid, t: seq<Event>, n: nat)
    requires n <= |t|
  {
    forall i :: 0 <= i < n ==> TidyAt(kind, k, t, i)
  }

  lemma OwnTidyAt(kind: Kind, cfg: Config, lrpGuids: set<Guid>, k: Guid, op: Operation, t: seq<Event>, i: nat)
    requires Own(cfg, lrpGuids, k, op, t) && Suits(kind, op, t) && i < |t| && forall j :: 0 <= j < i ==> HonestReply(t[j])
    ensures TidyAt(kind, k, t, i)
  {
    match t[i].call {
      case RunContainer(g) =>
        OwnHits(cfg, lrpGuids, k, op, t, i, g);
        ResidualHits(cfg, op, t, i, g);
      case StartTask(g, _) => if Grants(Either, g).Hits(t[i]) { OwnHits(cfg, lrpGuids, k, op, t, i, g); }
      case ClaimActualLRP(_, _, ik) => if t[i].reply.Ok() { OwnHits(cfg, lrpGuids, k, op, t, i, ik.instanceGuid); }
      case _ =>
    }
  }

  lemma OwnIsTidy(kind: Kind, cfg: Config, lrpGuids: set<Guid>, k: Guid, op: Operation, t: seq<Event>, n: nat)
    requires Own(cfg, lrpGuids, k, op, t) && Suits(kind, op, t) && n <= |t| && forall j :: 0 <= j < n ==> HonestReply(t[j])
    ensures Tidy(kind, k, t, n)
  {
    forall i | 0 <= i < n ensures TidyAt(kind, k, t, i) {
      OwnTidyAt(kind, cfg, lrpGuids, k, op, t, i);
    }
  }

  lemma PrefixBalanced(kind: Kind, k: Guid, t: seq<Event>, n: nat)
    requires t != [] && n <= |t| && Tidy(kind, k, t, n)
    ensures Count(Runs(k), t[..n]) <= Count(Grants(kind, k), t[..n])
  {
    var p := t[..n];
    var r := RunIndex(t);
    forall i | 0 <= i < n ensures Runs(k).Hits(p[i]) ==> i == r && Grants(kind, k).Hits(p[i - 2]) {
      assert TidyAt(kind, k, t, i);
    }
    if r < n && Runs(k).Hits(t[r]) {
      CountOne(Runs(k), p, r);
      CountSome(Grants(kind, k), p, r - 2);
    } else {
      CountNone(Runs(k), p);
    }
  }

  /** Grants not yet used by the operation in flight under `g`. */
  function Outstanding(kind: Kind, s: Cell, g: Guid): (n: int)
    requires g in s.active ==> s.active[g].pos <= |s.active[g].t|
  {
    if g !in s.active then 0
    else
      var done := s.active[g].t[..s.active[g].pos];
      Count(Grants(kind, g), done) - Count(Runs(g), done)
  }

  predicate Balanced(kind: Kind, s: Cell, g: Guid) {
    && (g in s.active ==> s.active[g].pos <= |s.active[g].t|)
    && Outstanding(kind, s, g) >= 0
    && Count(Runs(g), s.log) + Outstanding(kind, s, g) <= Count(Grants(kind, g), s.log)
  }

  lemma InFlightTidy(kind: Kind, cfg: Config, lrpGuids: set<Guid>, present: set<Guid>, k: Guid, f: InFlight)
    requires OpTrace(cfg, f.op, f.t) && Fits(cfg, lrpGuids, present, k, f) && Suits(kind, f.op, f.t)
    ensures Tidy(kind, k, f.t, f.pos)
  {
    if f.pos >= 1 {
      OwnIsTidy(kind, cfg, lrpGuids, k, f.op, f.t, f.pos);
    }
  }

  /** One call, logged: both sides of the balance move together. */
  lemma StepBalance(kind: Kind, s: Cell, s': Cell, k: Guid, g: Guid)
    requires Balanced(kind, s, g) && k in s.active && s.active[k].pos < |s.active[k].t|
    requires s'.active == s.active[k := s.active[k].(pos := s.active[k].pos + 1)]
    requires s'.log == s.log + [s.active[k].t[s.active[k].pos]]
    requires Tidy(Either, k, s.active[k].t, s.active[k].pos + 1)
    requires g == k ==> Tidy(kind, k, s.active[k].t, s.active[k].pos + 1)
    ensures Balanced(kind, s', g)
  {
    var f := s.active[k];
    var e := f.t[f.pos];
    CountSnoc(Runs(g), s.log, e);
    CountSnoc(Grants(kind, g), s.log, e);
    if g == k {
      OwnStepBalance(kind, f.t, f.pos, g);
    } else {
      assert TidyAt(Either, k, f.t, f.pos);
      OthersUntouched(kind, k, f.t, f.pos, g);
    }
  }

  lemma OwnStepBalance(kind: Kind, t: seq<Event>, n: nat, g: Guid)
    requires n < |t| && Tidy(kind, g, t, n + 1)
    ensures Count(Runs(g), t[..n + 1]) == Count(Runs(g), t[..n]) + if Runs(g).Hits(t[n]) then 1 else 0
    ensures Count(Grants(kind, g), t[..n + 1]) == Count(Grants(kind, g), t[..n]) + if Grants(kind, g).Hits(t[n]) then 1 else 0
    ensures Count(Runs(g), t[..n + 1]) <= Count(Grants(kind, g), t[..n + 1])
  {
    PrefixBalanced(kind, g, t, n + 1);
    assert t[..n + 1] == t[..n] + [t[n]];
    CountSnoc(Runs(g), t[..n], t[n]);
    CountSnoc(Grants(kind, g), t[..n], t[n]);
  }

  lemma OthersUntouched(kind: Kind, k: Guid, t: seq<Event>, i: nat, g: Guid)
    requires i < |t| && TidyAt(Either, k, t, i) && g != k
    ensures !Runs(g).Hits(t[i]) && !Grants(kind, g).Hits(t[i])
  {
  }

  /** The operation in flight under `g`, once it has looked, is one whose runs need this kind. */
  predicate SuitsAt(kind: Kind, s: Cell, g: Guid) {
    g in s.active && 1 <= s.active[g].pos <= |s.active[g].t| ==> Suits(kind, s.active[g].op, s.active[g].t)
  }

  lemma StepTidy(kind: Kind, cfg: Config, s: Cell, a: Action)
    requires Inv(cfg, s) && Enabled(cfg, s, a) && a.Step? && SuitsAt(kind, Next(cfg, s, a), a.key)
    ensures Tidy(kind, a.key, s.active[a.key].t, s.active[a.key].pos + 1)
  {
    var s' := Next(cfg, s, a);
    InvNext(cfg, s, a);
    InFlightTidy(kind, cfg, s'.lrpGuids, s'.containers.Keys, a.key, s'.active[a.key]);
  }

  lemma BalancedStep(kind: Kind, cfg: Config, s: Cell, a: Action, g: Guid)
    requires Balanced(kind, s, g) && Enabled(cfg, s, a) && a.Step?
    requires Tidy(Either, a.key, s.active[a.key].t, s.active[a.key].pos + 1)
    requires g == a.key ==> Tidy(kind, a.key, s.active[a.key].t, s.active[a.key].pos + 1)
    ensures Balanced(kind, Next(cfg, s, a), g)
  {
    StepBalance(kind, s, Next(cfg, s, a), a.key, g);
  }

  lemma BalancedOther(kind: Kind, cfg: Config, s: Cell, a: Action, g: Guid)
    requires Balanced(kind, s, g) && Enabled(cfg, s, a) && !a.Step?
    ensures Balanced(kind, Next(cfg, s, a), g)
  {
    var s' := Next(cfg, s, a);
    if a.Start? && a.op.Key() == g {
      assert a.t[..0] == [];
    }
  }

  lemma BalancedNext(kind: Kind, cfg: Config, s: Cell, a: Action, g: Guid)
    requires Inv(cfg, s) && Balanced(kind, s, g) && Enabled(cfg, s, a) && SuitsAt(kind, Next(cfg, s, a), g)
    ensures Balanced(kind, Next(cfg, s, a), g)
  {
    if a.Step? {
      StepTidy(Either, cfg, s, a);
      if g == a.key {
        StepTidy(kind, cfg, s, a);
      }
      BalancedStep(kind, cfg, s, a, g);
    } else {
      BalancedOther(kind, cfg, s, a, g);
    }
  }

  lemma BalancedOn(kind: Kind, cfg: Config, ss: seq<Cell>, acts: seq<Action>, i: nat, g: Guid)
    requires IsRun(cfg, ss, acts) && Init(cfg, ss[0]) && i < |acts|
    requires Balanced(kind, ss[i], g) && SuitsAt(kind, ss[i + 1], g)
    ensures Balanced(kind, ss[i + 1], g)
  {
    InvInit(cfg, ss[0]);
    InvRun(cfg, ss, acts, i);
    BalancedNext(kind, cfg, ss[i], acts[i], g);
  }

  /** Runs so far, plus grants the operation in flight has not used yet, are at most the grants so
      far, of any kind that suits the operations under this guid. */
  lemma {:induction false} BalancedRun(kind: Kind, cfg: Config, ss: seq<Cell>, acts: seq<Action>, i: nat, g: Guid)
    requires IsRun(cfg, ss, acts) && Init(cfg, ss[0]) && i < |ss|
    requires forall j :: 0 <= j <= i ==> SuitsAt(kind, ss[j], g)
    ensures Balanced(kind, ss[i], g)
    decreases i
  {
    if i > 0 {
      BalancedRun(kind, cfg, ss, acts, i - 1, g);
      BalancedOn(kind, cfg, ss, acts, i - 1, g);
    }
  }

  /** In every run, for every guid and however operations interleave, the container was run no more
      often than the BBS granted it, one way or the other. */
  lemma RunsNeverExceedGrants(cfg: Config, ss: seq<Cell>, acts: seq<Action>, i: nat, g: Guid)
    requires IsRun(cfg, ss, acts) && Init(cfg, ss[0]) && i < |ss|
    ensures Count(Runs(g), ss[i].log) <= Count(Grants(Either, g), ss[i].log)
  {
    BalancedRun(Either, cfg, ss, acts, i, g);
  }

  // ---------------------------------------------------------------- tasks

  lemma {:induction false} GuidsGrow(cfg: Config, ss: seq<Cell>, acts: seq<Action>, j: nat, i: nat)
    requires IsRun(cfg, ss, acts) && j <= i < |ss|
    ensures ss[j].lrpGuids <= ss[i].lrpGuids
    decreases i
  {
    if j < i {
      GuidsGrow(cfg, ss, acts, j, i - 1);
    }
  }

  lemma NoInstanceSuits(cfg: Config, s: Cell, g: Guid)
    requires Inv(cfg, s) && g !in s.lrpGuids
    ensures SuitsAt(TaskStart, s, g)
  {
    if g in s.active {
      assert Fits(cfg, s.lrpGuids, s.containers.Keys, g, s.active[g]);
    }
  }

  /** A guid that was never an instance's is run no more often than StartTask reported a change for
      it. */
  lemma TaskRunsNeverExceedStarts(cfg: Config, ss: seq<Cell>, acts: seq<Action>, i: nat, g: Guid)
    requires IsRun(cfg, ss, acts) && Init(cfg, ss[0]) && i < |ss| && g !in ss[i].lrpGuids
    ensures Count(Runs(g), ss[i].log) <= Count(Grants(TaskStart, g), ss[i].log)
  {
    InvInit(cfg, ss[0]);
    forall j | 0 <= j <= i ensures SuitsAt(TaskStart, ss[j], g) {
      GuidsGrow(cfg, ss, acts, j, i);
      InvRun(cfg, ss, acts, j);
      NoInstanceSuits(cfg, ss[j], g);
    }
    BalancedRun(TaskStart, cfg, ss, acts, i, g);
  }

  // ---------------------------------------------------------------- LRPs

  /** No task's container is or was found under `g`. */
  predicate NoTask(s: Cell, g: Guid) {
    (g in s.containers ==> !IsTask(s.containers[g])) && SuitsAt(LRPClaim, s, g)
  }

  lemma NoTaskNext(cfg: Config, s: Cell, a: Action, g: Guid)
    requires Enabled(cfg, s, a) && NoTask(s, g) && !(a.AllocateTask? && a.c.guid == g)
    requires a.Step? ==> s.active[a.key].t[0].call == GetContainer(a.key)
    ensures NoTask(Next(cfg, s, a), g)
  {
    LifecyclesDiffer();
    if a.Step? && a.key == g && s.active[g].pos == 0 {
      assert Truthful(s, s.active[g].t[0], a.gone);
    }
  }

  lemma {:induction false} NoTaskRun(cfg: Config, ss: seq<Cell>, acts: seq<Action>, i: nat, g: Guid)
    requires IsRun(cfg, ss, acts) && Init(cfg, ss[0]) && i < |ss|
    requires g in ss[0].containers ==> !IsTask(ss[0].containers[g])
    requires forall j :: 0 <= j < i && acts[j].AllocateTask? ==> acts[j].c.guid != g
    ensures NoTask(ss[i], g)
    decreases i
  {
    if i > 0 {
      NoTaskRun(cfg, ss, acts, i - 1, g);
      if acts[i - 1].Step? {
        StepLooksFirst(cfg, ss, acts, i - 1);
      }
      NoTaskNext(cfg, ss[i - 1], acts[i - 1], g);
    }
  }

  /** A guid that was never a task's is run no more often than a claim of that instance was granted. */
  lemma LRPRunsNeverExceedClaims(cfg: Config, ss: seq<Cell>, acts: seq<Action>, i: nat, g: Guid)
    requires IsRun(cfg, ss, acts) && Init(cfg, ss[0]) && i < |ss|
    requires g in ss[0].containers ==> !IsTask(ss[0].containers[g])
    requires forall j :: 0 <= j < i && acts[j].AllocateTask? ==> acts[j].c.guid != g
    ensures Count(Runs(g), ss[i].log) <= Count(Grants(LRPClaim, g), ss[i].log)
  {
    forall j | 0 <= j <= i ensures SuitsAt(LRPClaim, ss[j], g) {
      NoTaskRun(cfg, ss, acts, j, g);
    }
    BalancedRun(LRPClaim, cfg, ss, acts, i, g);
  }
}
