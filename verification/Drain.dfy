/** Evacuation empties the cell: containers never come back, and passes take them away. */
module Drain {
  import opened Types
  import opened Conversion
  import opened Clients
  import opened Operations
  import opened TraceSafety
  import opened Harmonizer
  import Latch

  /** Evacuation is on and no Perform is still past its evacuation check. */
  predicate Closed(s: Cell) { s.evacuating && s.performs == 0 }

  lemma NoGrowth(cfg: Config, s: Cell, a: Action)
    requires Closed(s) && Enabled(cfg, s, a)
    ensures Closed(Next(cfg, s, a)) && Next(cfg, s, a).containers.Keys <= s.containers.Keys
  {
  }

  /** Once closed, a cell stays closed and its set of containers only shrinks. */
  lemma {:induction false} NoGrowthRun(cfg: Config, ss: seq<Cell>, acts: seq<Action>, i: nat, j: nat)
    requires IsRun(cfg, ss, acts) && i <= j < |ss| && Closed(ss[i])
    ensures Closed(ss[j]) && ss[j].containers.Keys <= ss[i].containers.Keys
    decreases j
  {
    if i < j {
      NoGrowthRun(cfg, ss, acts, i, j - 1);
      NoGrowth(cfg, ss[j - 1], acts[j - 1]);
    }
  }

  // ---------------------------------------------------------------- passes begun under evacuation

  /** The container an operation in flight found, when it is an LRP's. */
  predicate OverLRP(f: InFlight) {
    f.op.ContainerOp? && f.t != [] && f.t[0].reply.container.Some? && IsLRP(f.t[0].reply.container.value)
  }

  predicate InEvacuationMode(f: InFlight) {
    OverLRP(f) && 2 <= f.pos <= |f.t| ==> f.t[1].reply.flag
  }

  /** `f` was past its look at the evacuation flag already in `s`. */
  predicate AskedBefore(s: Cell, k: Guid, f: InFlight) {
    k in s.active && s.active[k].pos >= 2 && s.active[k].op == f.op && s.active[k].t == f.t
  }

  lemma AsksSecond(cfg: Config, f: InFlight)
    requires OpTrace(cfg, f.op, f.t) && OverLRP(f)
    ensures |f.t| >= 2 && f.t[1].call == AskEvacuating
  {
    assert LRPPass(cfg, f.t[0].reply.container.value, f.t[1..]);
    assert f.t[1..][0] == f.t[1];
  }

  lemma EvacuatedStep(cfg: Config, s0: Cell, s: Cell, a: Action, k: Guid)
    requires s.evacuating && Enabled(cfg, s, a) && k in Next(cfg, s, a).active
    requires k in s.active ==> InEvacuationMode(s.active[k]) || AskedBefore(s0, k, s.active[k])
    requires a.Step? && OverLRP(s.active[a.key]) && s.active[a.key].pos == 1 ==> s.active[a.key].t[1].call == AskEvacuating
    ensures var f := Next(cfg, s, a).active[k]; InEvacuationMode(f) || AskedBefore(s0, k, f)
  {
    if a.Step? && a.key == k {
      var f := s.active[k];
      if f.pos == 1 && OverLRP(f) {
        assert Truthful(s, f.t[1], a.gone);
      }
    }
  }

  /** From the moment the cell evacuates, and whatever was in flight then, every LRP operation that
      asks which mode to work in is told to evacuate. */
  lemma {:induction false} EvacuatedRun(cfg: Config, ss: seq<Cell>, acts: seq<Action>, i: nat, k: Guid)
    requires IsRun(cfg, ss, acts) && i < |ss| && Inv(cfg, ss[0]) && ss[0].evacuating && k in ss[i].active
    ensures ss[i].evacuating
    ensures InEvacuationMode(ss[i].active[k]) || AskedBefore(ss[0], k, ss[i].active[k])
    decreases i
  {
    StaysEvacuating(cfg, ss, acts, i);
    if i > 0 {
      var s, a := ss[i - 1], acts[i - 1];
      if k in s.active {
        EvacuatedRun(cfg, ss, acts, i - 1, k);
      }
      StaysEvacuating(cfg, ss, acts, i - 1);
      StepAsks(cfg, ss, acts, i - 1);
      EvacuatedStep(cfg, ss[0], s, a, k);
    }
  }

  lemma StepAsks(cfg: Config, ss: seq<Cell>, acts: seq<Action>, i: nat)
    requires IsRun(cfg, ss, acts) && i < |acts| && Inv(cfg, ss[0])
    ensures acts[i].Step? && OverLRP(ss[i].active[acts[i].key]) ==>
              |ss[i].active[acts[i].key].t| >= 2 && ss[i].active[acts[i].key].t[1].call == AskEvacuating
  {
    InvRun(cfg, ss, acts, i);
    if acts[i].Step? && OverLRP(ss[i].active[acts[i].key]) {
      AsksSecond(cfg, ss[i].active[acts[i].key]);
    }
  }

  lemma {:induction false} StaysEvacuating(cfg: Config, ss: seq<Cell>, acts: seq<Action>, i: nat)
    requires IsRun(cfg, ss, acts) && i < |ss| && ss[0].evacuating
    ensures ss[i].evacuating
    decreases i
  {
    if i > 0 {
      StaysEvacuating(cfg, ss, acts, i - 1);
      EvacuatorStep(cfg, ss[i - 1], acts[i - 1]);
    }
  }

  // ---------------------------------------------------------------- what a finished pass leaves

  predicate DeletesGranted(t: seq<Event>) {
    forall i :: 0 <= i < |t| && t[i].call.DeleteContainer? ==> t[i].reply.Ok()
  }

  /** A finished evacuation pass over the validly tagged LRP container `c`. */
  predicate FinishedPass(cfg: Config, k: Guid, f: InFlight, c: Container) {
    && f.op == ContainerOp(k) && f.pos == |f.t| && OpTrace(cfg, f.op, f.t)
    && f.t[0].reply.container == Some(c) && IsLRP(c) && LRPContainerOf(cfg, c).Some?
    && InEvacuationMode(f) && DeletesGranted(f.t)
  }

  /** The BBS asked for the Running container to be kept, or it could not be asked about at all. */
  predicate Kept(cfg: Config, c: Container, t: seq<Event>) {
    c.state == Running && (!cfg.models.validNetInfo(c.netInfo) || (|t| >= 3 && t[2].reply.flag))
  }

  lemma PassDeletesUnlessKept(cfg: Config, k: Guid, f: InFlight, c: Container)
    requires FinishedPass(cfg, k, f, c) && c.guid == k
    ensures Deleted(f.t, |f.t|, k) || Kept(cfg, c, f.t) || c.state == Invalid
  {
    AsksSecond(cfg, f);
    var rest := f.t[1..];
    var pass := rest[1..];
    assert LRPPass(cfg, c, rest) && rest[0] == f.t[1];
    var x := LRPContainerOf(cfg, c).value;
    EvacuationDeletesIff(cfg, x, pass);
    if exists i :: 0 <= i < |pass| && Deletes(pass[i], x.c.guid) {
      var i :| 0 <= i < |pass| && Deletes(pass[i], x.c.guid);
      assert f.t[i + 2] == pass[i];
    } else if c.state == Running && cfg.models.validNetInfo(c.netInfo) {
      assert pass[0] == f.t[2];
    }
  }

  /** When deletes succeed, the only validly tagged LRP containers that survive an evacuation pass
      are Running ones the BBS keeps or whose net info is invalid, and ones in a state no processor
      knows. */
  lemma SurvivorsOfAPass(cfg: Config, s: Cell, k: Guid, c: Container)
    requires Inv(cfg, s) && k in s.active && FinishedPass(cfg, k, s.active[k], c)
    ensures k in s.containers ==> Kept(cfg, c, s.active[k].t) || c.state == Invalid
    ensures Drainable(c.state) ==> k !in s.containers
  {
    Survivors(cfg, s.lrpGuids, s.containers.Keys, k, s.active[k], c);
  }

  lemma Survivors(cfg: Config, lrpGuids: set<Guid>, present: set<Guid>, k: Guid, f: InFlight, c: Container)
    requires FinishedPass(cfg, k, f, c) && Looked(lrpGuids, present, k, f)
    ensures k in present ==> Kept(cfg, c, f.t) || c.state == Invalid
    ensures Drainable(c.state) ==> k !in present
  {
    PassDeletesUnlessKept(cfg, k, f, c);
  }

  // ---------------------------------------------------------------- a whole drain

  /** `a` ends an evacuation pass over a validly tagged, drainable LRP container whose deletes were
      granted. */
  predicate EndsDrain(cfg: Config, s: Cell, a: Action, k: Guid) {
    && a == Finish(k) && k in s.active
    && var f := s.active[k];
       && f.op == ContainerOp(k) && f.pos == |f.t| && |f.t| >= 2 && DeletesGranted(f.t)
       && f.t[0].reply.container.Some? && f.t[1].reply.flag
       && var c := f.t[0].reply.container.value;
          IsLRP(c) && LRPContainerOf(cfg, c).Some? && Drainable(c.state)
  }

  lemma DrainedForGood(cfg: Config, ss: seq<Cell>, acts: seq<Action>, i: nat, k: Guid)
    requires IsRun(cfg, ss, acts) && Inv(cfg, ss[0]) && Closed(ss[0])
    requires i < |acts| && EndsDrain(cfg, ss[i], acts[i], k)
    ensures k !in ss[|acts|].containers
  {
    InvRun(cfg, ss, acts, i);
    SurvivorsOfAPass(cfg, ss[i], k, ss[i].active[k].t[0].reply.container.value);
    NoGrowthRun(cfg, ss, acts, 0, i);
    NoGrowthRun(cfg, ss, acts, i, |acts|);
  }

  /** In every run of a closed cell, each guid whose pass ends a drain is gone at the end, nothing
      has been added, and so the number of containers has fallen by at least as many. */
  lemma DrainDecreases(cfg: Config, ss: seq<Cell>, acts: seq<Action>, drained: set<Guid>)
    requires IsRun(cfg, ss, acts) && Inv(cfg, ss[0]) && Closed(ss[0])
    requires drained <= ss[0].containers.Keys
    requires forall k :: k in drained ==> exists i :: 0 <= i < |acts| && EndsDrain(cfg, ss[i], acts[i], k)
    ensures ss[|acts|].containers.Keys <= ss[0].containers.Keys - drained
    ensures |ss[|acts|].containers| <= |ss[0].containers| - |drained|
  {
    NoGrowthRun(cfg, ss, acts, 0, |acts|);
    forall k | k in drained ensures k !in ss[|acts|].containers {
      var i :| 0 <= i < |acts| && EndsDrain(cfg, ss[i], acts[i], k);
      DrainedForGood(cfg, ss, acts, i, k);
    }
    var before, after := ss[0].containers.Keys, ss[|acts|].containers.Keys;
    SubsetSize(after, before - drained);
    assert |before - drained| == |before| - |drained|;
  }

  lemma {:induction false} SubsetSize<T>(a: set<T>, b: set<T>)
    requires a <= b
    ensures |a| <= |b|
  {
    if a != {} {
      var x :| x in a;
      SubsetSize(a - {x}, b - {x});
    }
  }

  // ---------------------------------------------------------------- the evacuator's report

  lemma {:induction false} LongerThanAll(guids: set<Guid>) returns (n: nat)
    ensures forall g :: g in guids ==> |g| < n
  {
    if guids == {} {
      n := 0;
    } else {
      var h :| h in guids;
      n := LongerThanAll(guids - {h});
      n := if |h| < n then n else |h| + 1;
    }
  }

  lemma FreshGuid(guids: set<Guid>) returns (g: Guid)
    ensures g !in guids
  {
    var n := LongerThanAll(guids);
    g := seq(n, i => 'x');
  }

  lemma FreshTask(s: Cell) returns (c: Container)
    ensures c.guid !in s.lrpGuids && c.Tag(LIFECYCLE_TAG) == TASK_LIFECYCLE && c.state == Reserved
  {
    var g := FreshGuid(s.lrpGuids);
    c := Container(g, Reserved, Some(map[LIFECYCLE_TAG := TASK_LIFECYCLE]), RunResult(false, "", false), NetInfo("", "", []), 0, 0);
  }

  predicate AlwaysEmptyFrom(ss: seq<Cell>) {
    forall i :: 0 <= i < |ss| ==> ss[i].containers == map[]
  }

  /** A Perform still past its check can put a container on the emptied cell. */
  lemma InFlightPerformRefills(cfg: Config, s: Cell) returns (acts: seq<Action>, ss: seq<Cell>)
    requires s.containers == map[] && s.performs > 0
    ensures IsRun(cfg, ss, acts) && ss[0] == s && !AlwaysEmptyFrom(ss)
  {
    var c := FreshTask(s);
    var a := AllocateTask(c);
    acts := [a];
    ss := [s, Next(cfg, s, a)];
    assert c.guid in ss[1].containers;
  }

  /** Emptiness, once seen under evacuation, persists over every continuation if and only if no
      Perform was still past its check. */
  lemma EmptinessPersistsIff(cfg: Config, s: Cell)
    requires s.evacuating && s.containers == map[]
    ensures s.performs == 0 <==> forall ss: seq<Cell>, acts: seq<Action> :: IsRun(cfg, ss, acts) && ss[0] == s ==> AlwaysEmptyFrom(ss)
  {
    if s.performs == 0 {
      forall ss: seq<Cell>, acts: seq<Action> | IsRun(cfg, ss, acts) && ss[0] == s ensures AlwaysEmptyFrom(ss) {
        forall i | 0 <= i < |ss| ensures ss[i].containers == map[] {
          NoGrowthRun(cfg, ss, acts, 0, i);
        }
      }
    } else {
      var acts, ss := InFlightPerformRefills(cfg, s);
    }
  }

  lemma EmptyListingIsTrue(cfg: Config, s: Cell, a: Action)
    requires Enabled(cfg, s, a) && a.PollLists? && Latch.AllContainersEvacuated(a.listing)
    ensures s.evacuating && s.containers == map[]
  {
    assert s.containers.Values == {};
    assert forall g :: g in s.containers ==> s.containers[g] in s.containers.Values;
  }

  /** The evacuator's own part of a step. */
  lemma EvacuatorStep(cfg: Config, s: Cell, a: Action)
    requires Enabled(cfg, s, a)
    ensures var s' := Next(cfg, s, a);
            && s'.evacuating == (s.evacuating || a == Evacuate)
            && s'.polled == (if a.PollLists? then Some(a.listing) else s.polled)
            && s'.drained == (s.drained || a == Report)
  {
  }

  lemma {:induction false} WhenEvacuated(cfg: Config, ss: seq<Cell>, acts: seq<Action>, i: nat) returns (e: nat)
    requires IsRun(cfg, ss, acts) && i < |ss| && !ss[0].evacuating && ss[i].evacuating
    ensures e < i && acts[e] == Evacuate
    decreases i
  {
    EvacuatorStep(cfg, ss[i - 1], acts[i - 1]);
    e := i - 1;
    if acts[i - 1] != Evacuate {
      e := WhenEvacuated(cfg, ss, acts, i - 1);
    }
  }

  lemma {:induction false} WhenPolled(cfg: Config, ss: seq<Cell>, acts: seq<Action>, i: nat) returns (j: nat)
    requires IsRun(cfg, ss, acts) && i < |ss| && ss[0].polled.None? && ss[i].polled.Some?
    ensures j < i && acts[j] == PollLists(ss[i].polled.value)
    decreases i
  {
    EvacuatorStep(cfg, ss[i - 1], acts[i - 1]);
    j := i - 1;
    if !acts[i - 1].PollLists? {
      j := WhenPolled(cfg, ss, acts, i - 1);
    }
  }

  lemma {:induction false} WhenReported(cfg: Config, ss: seq<Cell>, acts: seq<Action>, i: nat) returns (r: nat)
    requires IsRun(cfg, ss, acts) && i < |ss| && !ss[0].drained && ss[i].drained
    ensures r < i && acts[r] == Report
    decreases i
  {
    EvacuatorStep(cfg, ss[i - 1], acts[i - 1]);
    r := i - 1;
    if acts[i - 1] != Report {
      r := WhenReported(cfg, ss, acts, i - 1);
    }
  }

  /** A report was preceded by a listing that succeeded, was empty and was true when it was taken,
      and that one by the call of Evacuate. */
  lemma ReportFollowsEmptyListing(cfg: Config, ss: seq<Cell>, acts: seq<Action>, i: nat) returns (e: nat, j: nat, r: nat)
    requires IsRun(cfg, ss, acts) && Init(cfg, ss[0]) && i < |ss| && ss[i].drained
    ensures e < j < r < i && acts[e] == Evacuate && acts[j] == PollLists(Ok([])) && acts[r] == Report
    ensures ss[j].evacuating && ss[j].containers == map[]
  {
    r := WhenReported(cfg, ss, acts, i);
    j := WhenPolled(cfg, ss, acts, r);
    EmptyListingIsTrue(cfg, ss[j], acts[j]);
    e := WhenEvacuated(cfg, ss, acts, j);
  }

  /** With no Perform past its check when the listing was taken, the cell is empty at the report and
      ever after. */
  lemma ReportStaysTrue(cfg: Config, ss: seq<Cell>, acts: seq<Action>, j: nat, i: nat)
    requires IsRun(cfg, ss, acts) && j < |acts| && j <= i < |ss|
    requires acts[j] == PollLists(Ok([])) && ss[j].performs == 0
    ensures ss[i].containers == map[]
  {
    EmptyListingIsTrue(cfg, ss[j], acts[j]);
    NoGrowthRun(cfg, ss, acts, j, i);
  }

  predicate ReportsTrue(ss: seq<Cell>) {
    forall i :: 0 <= i < |ss| && ss[i].drained ==> ss[i].containers == map[]
  }

  /** A Perform past its check can fill the cell between the listing and the report. */
  lemma ReportCanBeFalse(cfg: Config, s: Cell) returns (acts: seq<Action>, ss: seq<Cell>)
    requires Enabled(cfg, s, PollLists(Ok([]))) && s.performs > 0
    ensures IsRun(cfg, ss, acts) && ss[0] == s && acts != [] && acts[0] == PollLists(Ok([])) && !ReportsTrue(ss)
  {
    var list := PollLists(Ok([]));
    EmptyListingIsTrue(cfg, s, list);
    var s1 := Next(cfg, s, list);
    var c := FreshTask(s1);
    var s2 := Next(cfg, s1, AllocateTask(c));
    var s3 := Next(cfg, s2, Report);
    acts, ss := [list, AllocateTask(c), Report], [s, s1, s2, s3];
    assert ss[3].drained && c.guid in ss[3].containers;
  }

  /** So the report can be relied on, at once and for good, if and only if no Perform was past its
      check when the listing behind it was taken. */
  lemma ReportTrueIff(cfg: Config, s: Cell)
    requires Enabled(cfg, s, PollLists(Ok([])))
    ensures s.performs == 0 <==>
            forall ss: seq<Cell>, acts: seq<Action> ::
              IsRun(cfg, ss, acts) && ss[0] == s && acts != [] && acts[0] == PollLists(Ok([])) ==> ReportsTrue(ss)
  {
    if s.performs == 0 {
      forall ss: seq<Cell>, acts: seq<Action> | IsRun(cfg, ss, acts) && ss[0] == s && acts != [] && acts[0] == PollLists(Ok([]))
        ensures ReportsTrue(ss)
      {
        forall i | 0 <= i < |ss| ensures ss[i].containers == map[] {
          ReportStaysTrue(cfg, ss, acts, 0, i);
        }
      }
    } else {
      var acts, ss := ReportCanBeFalse(cfg, s);
    }
  }

  /** The listings the evacuator got in a run, in order. */
  function Polls(acts: seq<Action>): (listings: seq<Result<seq<Container>, string>>) {
    if acts == [] then []
    else Polls(acts[..|acts| - 1]) + if acts[|acts| - 1].PollLists? then [acts[|acts| - 1].listing] else []
  }

  /** `s` is where `Latch.PollUntilEmpty` is after these listings: done exactly when one of them
      succeeded and was empty, and that is the last it took. */
  ghost predicate PollsTo(s: Cell, polls: seq<Result<seq<Container>, string>>) {
    && s.polled == (if polls == [] then None else Some(polls[|polls| - 1]))
    && (forall j :: 0 <= j < |polls| - 1 ==> !Latch.AllContainersEvacuated(polls[j]))
    && (PolledEmpty(s) <==> exists j :: 0 <= j < |polls| && Latch.AllContainersEvacuated(polls[j]))
    && (s.drained ==> PolledEmpty(s))
  }

  lemma PollStep(cfg: Config, s: Cell, a: Action, polls: seq<Result<seq<Container>, string>>)
    requires Enabled(cfg, s, a) && PollsTo(s, polls)
    ensures PollsTo(Next(cfg, s, a), polls + if a.PollLists? then [a.listing] else [])
  {
    EvacuatorStep(cfg, s, a);
    if a.PollLists? {
      var polls' := polls + [a.listing];
      assert polls'[|polls|] == a.listing;
      assert forall j :: 0 <= j < |polls| ==> polls'[j] == polls[j];
    } else {
      assert polls + [] == polls;
    }
  }

  /** In every run the evacuator does over its listings what `Latch.PollUntilEmpty` is proved to do. */
  lemma {:induction false} PollsUntilEmpty(cfg: Config, ss: seq<Cell>, acts: seq<Action>, i: nat)
    requires IsRun(cfg, ss, acts) && Init(cfg, ss[0]) && i <= |acts|
    ensures PollsTo(ss[i], Polls(acts[..i]))
    decreases i
  {
    if i > 0 {
      PollsUntilEmpty(cfg, ss, acts, i - 1);
      assert acts[..i][..i - 1] == acts[..i - 1];
      PollStep(cfg, ss[i - 1], acts[i - 1], Polls(acts[..i - 1]));
    }
  }
}
