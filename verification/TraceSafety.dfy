/** What the processors never do, whatever the BBS and the executor answer. Each statement ranges
    over every call sequence a pass can make. */
module TraceSafety {
  import opened Types
  import opened Conversion
  import opened Clients
  import opened Operations
  import Ordinary = OrdinaryLRP
  import Evacuation = EvacuationLRP
  import TaskProcessing

  /** What lets a container run: a StartTask that changed the task, or a claim of the instance. */
  datatype Kind = TaskStart | LRPClaim | Either

  /** Events worth counting. */
  datatype Probe =
    | Runs(guid: Guid)
    | Grants(kind: Kind, guid: Guid)
    | Fails
    | Completes
    | DeleteCalls
    | LRPOutcomes
  {
    predicate Hits(e: Event) {
      match this
      case Runs(g) => e.call == RunContainer(g)
      case Grants(kind, g) =>
        || (kind != LRPClaim && e.call.StartTask? && e.call.guid == g && e.reply.Ok() && e.reply.flag)
        || (kind != TaskStart && e.call.ClaimActualLRP? && e.call.ik.instanceGuid == g && e.reply.Ok())
      case Fails => e.call.FailTask?
      case Completes => e.call.CompleteTask?
      case DeleteCalls => e.call.DeleteContainer?
      case LRPOutcomes => e.call.RemoveActualLRP? || e.call.CrashActualLRP?
    }
  }

  function Count(p: Probe, t: seq<Event>): (n: nat)
    ensures n <= |t|
  {
    if t == [] then 0
    else Count(p, t[..|t| - 1]) + if p.Hits(t[|t| - 1]) then 1 else 0
  }

  lemma {:induction false} CountConcat(p: Probe, s: seq<Event>, t: seq<Event>)
    ensures Count(p, s + t) == Count(p, s) + Count(p, t)
  {
    if t == [] {
      assert s + t == s;
    } else {
      assert (s + t)[..|s + t| - 1] == s + t[..|t| - 1];
      CountConcat(p, s, t[..|t| - 1]);
    }
  }

  lemma CountSnoc(p: Probe, t: seq<Event>, e: Event)
    ensures Count(p, t + [e]) == Count(p, t) + if p.Hits(e) then 1 else 0
  {
    assert (t + [e])[..|t|] == t;
  }

  lemma {:induction false} CountNone(p: Probe, t: seq<Event>)
    requires forall i :: 0 <= i < |t| ==> !p.Hits(t[i])
    ensures Count(p, t) == 0
  {
    if t != [] {
      CountNone(p, t[..|t| - 1]);
    }
  }

  lemma {:induction false} CountOne(p: Probe, t: seq<Event>, k: nat)
    requires k < |t| && forall i :: 0 <= i < |t| ==> (p.Hits(t[i]) <==> i == k)
    ensures Count(p, t) == 1
  {
    var n := |t| - 1;
    if k == n {
      CountNone(p, t[..n]);
    } else {
      CountOne(p, t[..n], k);
    }
  }

  lemma CountSkip(p: Probe, t: seq<Event>)
    requires t != [] && !p.Hits(t[0])
    ensures Count(p, t) == Count(p, t[1..])
  {
    assert t == [t[0]] + t[1..];
    CountConcat(p, [t[0]], t[1..]);
    CountNone(p, [t[0]]);
  }

  // ---------------------------------------------------------------- ordinary LRP passes

  /** `e` names only the container and the keys of `x`. */
  predicate AboutOnly(x: LRPContainer, e: Event) {
    match e.call
    case ClaimActualLRP(p, i, ik) => p == x.key.processGuid && i == x.key.index && ik == x.ik
    case RemoveActualLRP(p, i, ik) => p == x.key.processGuid && i == x.key.index && ik == x.ik
    case StartActualLRP(key, ik, n) => key == x.key && ik == x.ik && n == x.c.netInfo
    case CrashActualLRP(key, ik, r) => key == x.key && ik == x.ik && r == x.c.runResult.failureReason
    case EvacuateClaimedActualLRP(key, ik) => key == x.key && ik == x.ik
    case EvacuateRunningActualLRP(key, ik, n, _) => key == x.key && ik == x.ik && n == x.c.netInfo
    case EvacuateStoppedActualLRP(key, ik) => key == x.key && ik == x.ik
    case EvacuateCrashedActualLRP(key, ik, r) => key == x.key && ik == x.ik && r == x.c.runResult.failureReason
    case DesiredLRPByProcessGuid(p) => p == x.key.processGuid
    case RunContainer(g) => g == x.c.guid
    case StopContainer(g) => g == x.c.guid
    case DeleteContainer(g) => g == x.c.guid
    case _ => false
  }

  /** Every call of a pass is about the container at hand, under the keys its tags stand for. */
  lemma OrdinaryAbout(cfg: Config, x: LRPContainer, t: seq<Event>)
    requires Ordinary.PassOver(cfg, x, t)
    ensures forall i :: 0 <= i < |t| ==> AboutOnly(x, t[i])
  {
  }

  predicate FailedRun(e: Event) { e.call.RunContainer? && !e.reply.Ok() }

  /** A run happens only in a Reserved pass, as its third call, right after the claim of this very
      instance was granted. */
  lemma OrdinaryRuns(cfg: Config, x: LRPContainer, t: seq<Event>, i: nat)
    requires Ordinary.PassOver(cfg, x, t)
    requires i < |t| && t[i].call.RunContainer?
    ensures x.c.state == Reserved && t[i].call.guid == x.c.guid
    ensures i == 2 && Ordinary.Claim(t[0], x) && t[0].reply.Ok()
    ensures Count(Runs(x.c.guid), t) == 1
  {
    ReservedRun(x, t, i);
  }

  lemma ReservedRun(x: LRPContainer, t: seq<Event>, i: nat)
    requires Ordinary.ReservedTrace(x, t) && i < |t| && t[i].call.RunContainer?
    ensures i == 2 && Ordinary.Claim(t[0], x) && t[0].reply.Ok() && t[i].call.guid == x.c.guid
    ensures Count(Runs(x.c.guid), t) == 1
  {
    assert i == 2;
    CountThird(Runs(x.c.guid), t);
  }

  lemma CountThird(p: Probe, t: seq<Event>)
    requires |t| >= 3 && !p.Hits(t[0]) && !p.Hits(t[1]) && p.Hits(t[2])
    requires |t| == 3 || (|t| == 5 && !p.Hits(t[3]) && !p.Hits(t[4]))
    ensures Count(p, t) == 1
  {
    CountOne(p, t, 2);
  }

  lemma CountFifth(p: Probe, t: seq<Event>)
    requires |t| == 5 && !p.Hits(t[0]) && !p.Hits(t[1]) && !p.Hits(t[2]) && !p.Hits(t[3]) && p.Hits(t[4])
    ensures Count(p, t) == 1
  {
    CountOne(p, t, 4);
  }

  lemma FailedReservedRun(x: LRPContainer, t: seq<Event>, i: nat)
    requires Ordinary.ReservedTrace(x, t) && i < |t| && FailedRun(t[i])
    ensures i + 2 < |t| && Deletes(t[i + 1], x.c.guid) && Ordinary.Removal(t[i + 2], x)
    ensures Count(LRPOutcomes, t) == 1
  {
    assert i == 2 && |t| == 5;
    CountFifth(LRPOutcomes, t);
  }

  /** A refused run is followed by the removal of the same instance, the pass's only outcome. */
  lemma OrdinaryFailedRun(cfg: Config, x: LRPContainer, t: seq<Event>, i: nat)
    requires Ordinary.PassOver(cfg, x, t)
    requires i < |t| && FailedRun(t[i])
    ensures i + 2 < |t| && Deletes(t[i + 1], x.c.guid) && Ordinary.Removal(t[i + 2], x)
    ensures Count(LRPOutcomes, t) == 1
  {
    FailedReservedRun(x, t, i);
  }

  /** A Running pass never deletes and stops the container only when the BBS says the instance
      cannot be started; outside a Completed pass, a delete answers a refused claim or a refused run. */
  lemma OrdinaryDeletes(cfg: Config, x: LRPContainer, t: seq<Event>)
    requires Ordinary.PassOver(cfg, x, t)
    ensures forall i :: 0 <= i < |t| && t[i].call.StopContainer? ==>
              && x.c.state == Running && i >= 1
              && t[i - 1].call.StartActualLRP? && t[i - 1].reply.err == Some(ActualLRPCannotBeStarted)
    ensures forall i :: 0 <= i < |t| && t[i].call.DeleteContainer? && x.c.state != Completed ==>
              && x.c.state != Running && i >= 1
              && ( || (t[i - 1].call.ClaimActualLRP? && t[i - 1].reply.err == Some(ActualLRPCannotBeClaimed))
                   || (t[i - 1].call == RunContainer(x.c.guid) && !t[i - 1].reply.Ok()))
  {
  }

  /** A Completed pass reports exactly one outcome, removal for a stopped run and crash for any
      other, and then deletes. */
  lemma OrdinaryCompletion(cfg: Config, x: LRPContainer, t: seq<Event>)
    requires Ordinary.PassOver(cfg, x, t) && x.c.state == Completed
    ensures Count(LRPOutcomes, t) == 1 && Count(DeleteCalls, t) == 1
    ensures |t| == 2 && Deletes(t[1], x.c.guid)
    ensures t[0].call.RemoveActualLRP? <==> x.c.runResult.stopped
    ensures t[0].call.CrashActualLRP? <==> !x.c.runResult.stopped
  {
    CountOne(LRPOutcomes, t, 0);
    CountOne(DeleteCalls, t, 1);
  }

  /** The converse reading of the pass: whichever state and replies, exactly these passes delete. */
  lemma OrdinaryDeletesIff(cfg: Config, x: LRPContainer, t: seq<Event>)
    requires Ordinary.PassOver(cfg, x, t)
    ensures (exists i :: 0 <= i < |t| && Deletes(t[i], x.c.guid)) <==>
            ( || x.c.state == Completed
              || (exists i :: 0 <= i < |t| && t[i].call.ClaimActualLRP? && t[i].reply.err == Some(ActualLRPCannotBeClaimed))
              || (exists i :: 0 <= i < |t| && t[i].call.RunContainer? && !t[i].reply.Ok()))
  {
    if x.c.state == Completed {
      assert Deletes(t[1], x.c.guid);
    } else if Ordinary.RefusedTrace(x, t) && |t| == 2 {
      assert Deletes(t[1], x.c.guid);
    } else if |t| == 5 {
      assert Deletes(t[3], x.c.guid);
    }
  }

  // ---------------------------------------------------------------- evacuation passes

  predicate Drainable(s: State) { s == Reserved || s == Initializing || s == Created || s == Completed }

  /** An evacuation pass over a validly tagged container asks for its deletion, exactly once and
      last, unless the container is Running and the BBS said to keep it or its net info is invalid
      (or its state is one no processor handles). */
  lemma EvacuationDeletesIff(cfg: Config, x: LRPContainer, t: seq<Event>)
    requires Evacuation.PassOver(cfg, x, t)
    ensures forall i :: 0 <= i < |t| ==> AboutOnly(x, t[i]) && !t[i].call.RunContainer?
    ensures (exists i :: 0 <= i < |t| && Deletes(t[i], x.c.guid)) <==>
            ( || Drainable(x.c.state)
              || ( && x.c.state == Running && cfg.models.validNetInfo(x.c.netInfo)
                   && t != [] && t[0].call.EvacuateRunningActualLRP? && !t[0].reply.flag))
    ensures forall i :: 0 <= i < |t| && Deletes(t[i], x.c.guid) ==> i == |t| - 1
  {
    if |t| == 2 {
      assert Deletes(t[1], x.c.guid);
    }
  }

  // ---------------------------------------------------------------- task passes

  /** The BBS returns the task it was asked for. */
  predicate HonestReply(e: Event) {
    e.call.TaskByGuid? && e.reply.runnable.Some? ==> e.reply.runnable.value.guid == e.call.guid
  }

  /** In a pass over a container that has not completed, a failed run is answered by exactly one
      FailTask, for this task and with the reason for it. */
  lemma TaskFailedRun(cfg: Config, c: Container, t: seq<Event>, i: nat)
    requires TaskProcessing.Pass(cfg, c, t) && c.state != Completed
    requires i < |t| && FailedRun(t[i])
    ensures Count(Fails, t) == 1
    ensures i + 2 < |t| && t[i + 2].call == FailTask(c.guid, FailedToRunContainer)
  {
    FailedActive(cfg, c.guid, t, i);
  }

  lemma FailedActive(cfg: Config, g: Guid, t: seq<Event>, i: nat)
    requires TaskProcessing.ActiveTrace(cfg, g, t) && i < |t| && FailedRun(t[i])
    ensures Count(Fails, t) == 1
    ensures i + 2 < |t| && t[i + 2].call == FailTask(g, FailedToRunContainer)
  {
    assert i == 2 && |t| == 5;
    CountFifth(Fails, t);
  }

  lemma UnfailedActive(cfg: Config, g: Guid, t: seq<Event>, i: nat)
    requires TaskProcessing.ActiveTrace(cfg, g, t) && i < |t| && (|t| >= 3 ==> !FailedRun(t[2]))
    ensures !t[i].call.FailTask?
  {
  }

  /** Without a failed run such a pass fails no task. */
  lemma TaskNoFailedRun(cfg: Config, c: Container, t: seq<Event>)
    requires TaskProcessing.Pass(cfg, c, t) && c.state != Completed
    requires forall i :: 0 <= i < |t| ==> !FailedRun(t[i])
    ensures Count(Fails, t) == 0
  {
    if c.state != Invalid {
      forall i | 0 <= i < |t| ensures !Fails.Hits(t[i]) {
        UnfailedActive(cfg, c.guid, t, i);
      }
    }
    CountNone(Fails, t);
  }

  /** The outcome part of a completed pass when its result file cannot be fetched: the task is
      failed and never completed. */
  lemma TaskOutcomeUnfetched(cfg: Config, c: Container, t: seq<Event>)
    requires TaskProcessing.OutcomeTrace(cfg, c, t)
    requires TaskProcessing.Fetches(c) && !t[0].reply.Ok()
    ensures Count(Completes, t) == 0 && Count(Fails, t) == 1 && Count(DeleteCalls, t) == 0
    ensures t[1].call == FailTask(c.guid, FailedToFetchResult)
  {
    CountNone(Completes, t);
    CountNone(DeleteCalls, t);
    CountOne(Fails, t, 1);
  }

  lemma CompleteTraceCounts(cfg: Config, c: Container, result: string, t: seq<Event>)
    requires TaskProcessing.CompleteTrace(cfg, c, result, t)
    ensures Count(Completes, t) == 1 && Count(DeleteCalls, t) == 0
    ensures Count(Fails, t) == if t[0].reply.err == Some(InvalidStateTransition) then 1 else 0
  {
    CountOne(Completes, t, 0);
    CountNone(DeleteCalls, t);
    if |t| == 2 {
      CountOne(Fails, t, 1);
    } else {
      CountNone(Fails, t);
    }
  }

  /** Otherwise the task is completed exactly once, and failed once more exactly when the
      completion was an invalid transition. */
  lemma TaskOutcomeFetched(cfg: Config, c: Container, t: seq<Event>)
    requires TaskProcessing.OutcomeTrace(cfg, c, t)
    requires !TaskProcessing.Fetches(c) || t[0].reply.Ok()
    ensures Count(Completes, t) == 1 && Count(DeleteCalls, t) == 0
    ensures var k := if TaskProcessing.Fetches(c) then 1 else 0;
            && k < |t| && t[k].call.CompleteTask?
            && Count(Fails, t) == (if t[k].reply.err == Some(InvalidStateTransition) then 1 else 0)
            && (Count(Fails, t) == 1 ==> k + 1 < |t| && t[k + 1].call == FailTask(c.guid, InvalidTransition))
  {
    if TaskProcessing.Fetches(c) {
      CompleteTraceCounts(cfg, c, t[0].reply.text, t[1..]);
      CountSkip(Completes, t);
      CountSkip(DeleteCalls, t);
      CountSkip(Fails, t);
    } else {
      CompleteTraceCounts(cfg, c, "", t);
    }
  }

  lemma CountBeforeDelete(t: seq<Event>, g: Guid)
    requires t != [] && Deletes(t[|t| - 1], g)
    ensures Count(Completes, t) == Count(Completes, t[..|t| - 1])
    ensures Count(Fails, t) == Count(Fails, t[..|t| - 1])
    ensures Count(DeleteCalls, t) == Count(DeleteCalls, t[..|t| - 1]) + 1
  {
  }

  /** A pass over a completed task container ends in its one delete. Before it come either one
      failure for the fetch and no completion, or one completion followed by one failure exactly
      when the completion was an invalid transition. */
  lemma TaskOutcomeBeforeDelete(cfg: Config, c: Container, t: seq<Event>)
    requires TaskProcessing.Pass(cfg, c, t) && c.state == Completed
    ensures |t| >= 2 && Deletes(t[|t| - 1], c.guid) && Count(DeleteCalls, t) == 1
    ensures Count(Completes, t) == if TaskProcessing.Fetches(c) && !t[0].reply.Ok() then 0 else 1
    ensures Count(Completes, t) == 0 ==>
              Count(Fails, t) == 1 && t[1].call == FailTask(c.guid, FailedToFetchResult)
    ensures Count(Completes, t) == 1 ==>
              var k := if TaskProcessing.Fetches(c) then 1 else 0;
              && t[k].call.CompleteTask?
              && Count(Fails, t) == (if t[k].reply.err == Some(InvalidStateTransition) then 1 else 0)
              && (Count(Fails, t) == 1 ==> t[k + 1].call == FailTask(c.guid, InvalidTransition))
  {
    CountBeforeDelete(t, c.guid);
    var outcome := t[..|t| - 1];
    if TaskProcessing.Fetches(c) && !outcome[0].reply.Ok() {
      TaskOutcomeUnfetched(cfg, c, outcome);
    } else {
      TaskOutcomeFetched(cfg, c, outcome);
    }
  }

  /** A non-empty result is sent only for a run that did not fail and whose container names a
      result file, and it is the text fetched for that file. */
  lemma TaskResult(cfg: Config, c: Container, t: seq<Event>, i: nat)
    requires TaskProcessing.Pass(cfg, c, t) && i < |t| && t[i].call.CompleteTask?
    ensures c.state == Completed && t[i].call.failed == c.runResult.failed
    ensures t[i].call.result != "" ==>
              && !c.runResult.failed && c.Tag(RESULT_FILE_TAG) != ""
              && i >= 1 && t[i - 1].call == FetchResultFile(c.guid, c.Tag(RESULT_FILE_TAG))
              && t[i - 1].reply.Ok() && t[i].call.result == t[i - 1].reply.text
  {
    if c.state == Completed {
      var n := |t| - 1;
      var k := if TaskProcessing.Fetches(c) then 1 else 0;
      if !(TaskProcessing.Fetches(c) && !t[0].reply.Ok()) {
        assert t[..n][k..][0] == t[k];
        if |t[..n][k..]| == 2 {
          assert t[..n][k..][1] == t[k + 1];
        }
        assert i == k;
      }
    }
  }
}
