/** maintain/maintain.go: keeping the cell's presence alive. */
module Maintainer {

  /** What the maintainer waits for: the replies of its own calls, its timers, the heartbeater
      process and the outside signal. `failed` is whether an exit carries an error. */
  datatype Input =
    | PingOk | PingFailed
    | ResourcesOk | ResourcesFailed
    | Tick
    | Signal
    | BecameReady
    | Exited(failed: bool)

  /** The point the maintainer is blocked at. */
  datatype Phase =
    | Pinging     // waitForExecutor: ping
    | Creating    // createHeartbeater: total resources
    | Sleeping    // waitForExecutor: between pings
    | Starting    // heartbeat: heartbeater launched, not ready
    | Beating     // heartbeat: its loop
    | Checking    // heartbeat: ping on a tick
    | Stopping    // heartbeat: killed after a failed ping
    | Killed      // heartbeat: killed after a signal
    | Returned(failed: bool)

  /** What happened, in order. */
  datatype Mark = Pinged | Launched | SawReady | ClosedReady | SawExit

  /** `offered` is whether the `ready` variable still holds the channel. */
  datatype State = State(phase: Phase, offered: bool, marks: seq<Mark>)

  const START := State(Pinging, true, [])

  /** heartbeat returned: `ready` is cleared, and an error starts over. */
  function HeartbeatReturned(marks: seq<Mark>, failed: bool): (s: State) {
    State(if failed then Pinging else Returned(false), false, marks)
  }

  /** An input the current point is not waiting for is left alone. */
  function Step(s: State, input: Input): (s': State) {
    match (s.phase, input)
    case (Pinging, PingOk) => s.(phase := Creating, marks := s.marks + [Pinged])
    case (Pinging, PingFailed) => s.(phase := Sleeping)
    case (Creating, ResourcesOk) => s.(phase := Starting, marks := s.marks + [Launched])
    case (Creating, ResourcesFailed) => s.(phase := Returned(true))
    case (Sleeping, Signal) => s.(phase := Returned(true))
    case (Sleeping, Tick) => s.(phase := Pinging)
    case (Starting, BecameReady) =>
      s.(phase := Beating, marks := s.marks + if s.offered then [SawReady, ClosedReady] else [SawReady])
    case (Starting, Exited(failed)) => HeartbeatReturned(s.marks + [SawExit], failed)
    case (Starting, Signal) => s.(phase := Killed)
    case (Beating, Exited(failed)) => HeartbeatReturned(s.marks + [SawExit], failed)
    case (Beating, Signal) => s.(phase := Killed)
    case (Beating, Tick) => s.(phase := Checking)
    case (Checking, PingOk) => s.(phase := Beating)
    case (Checking, PingFailed) => s.(phase := Stopping)
    case (Stopping, Exited(_)) => HeartbeatReturned(s.marks + [SawExit], true)
    case (Stopping, Signal) => HeartbeatReturned(s.marks, false)
    case (Killed, Exited(_)) => HeartbeatReturned(s.marks + [SawExit], false)
    case _ => s
  }

  function Steps(s: State, inputs: seq<Input>): (s': State) {
    if inputs == [] then s else Step(Steps(s, inputs[..|inputs| - 1]), inputs[|inputs| - 1])
  }

  // ---------------------------------------------------------------- the nested loops of Run

  predicate Waiting(p: Phase) { p == Pinging || p == Creating || p == Sleeping }

  lemma StepsSnoc(inputs: seq<Input>, i: nat)
    requires i < |inputs|
    ensures Steps(START, inputs[..i + 1]) == Step(Steps(START, inputs[..i]), inputs[i])
  {
    assert inputs[..i + 1][..i] == inputs[..i];
  }

  /** Run over a finite stretch of inputs, ending early if it returns. */
  method Run(inputs: seq<Input>) returns (s: State)
    ensures s == Steps(START, inputs)
  {
    s := START;
    var i := 0;
    while i < |inputs| && !s.phase.Returned?
      invariant i <= |inputs| && s == Steps(START, inputs[..i])
      invariant s.phase == Pinging || s.phase.Returned? || i == |inputs|
    {
      s, i := WaitForExecutor(inputs, i, s);
      if i < |inputs| && s.phase == Starting {
        s, i := Heartbeat(inputs, i, s);
      }
    }
    if s.phase.Returned? {
      ReturnedForGood(inputs, i);
    } else {
      assert inputs[..i] == inputs;
    }
  }

  method WaitForExecutor(inputs: seq<Input>, i0: nat, s0: State) returns (s: State, i: nat)
    requires i0 < |inputs| && s0 == Steps(START, inputs[..i0]) && s0.phase == Pinging
    ensures i0 < i <= |inputs| && s == Steps(START, inputs[..i])
    ensures s.phase == Starting || s.phase.Returned? || i == |inputs|
  {
    s, i := s0, i0;
    while i < |inputs|
      invariant i0 <= i <= |inputs| && s == Steps(START, inputs[..i]) && Waiting(s.phase)
      decreases |inputs| - i
    {
      StepsSnoc(inputs, i);
      var input := inputs[i];
      i := i + 1;
      if s.phase == Pinging {
        if input == PingOk {
          s := s.(phase := Creating, marks := s.marks + [Pinged]);
        } else if input == PingFailed {
          s := s.(phase := Sleeping);
        }
      } else if s.phase == Creating {
        if input == ResourcesOk {
          s := s.(phase := Starting, marks := s.marks + [Launched]);
          return;
        } else if input == ResourcesFailed {
          s := s.(phase := Returned(true));
          return;
        }
      } else {
        if input == Signal {
          s := s.(phase := Returned(true));
          return;
        } else if input == Tick {
          s := s.(phase := Pinging);
        }
      }
    }
  }

  method Heartbeat(inputs: seq<Input>, i0: nat, s0: State) returns (s: State, i: nat)
    requires i0 < |inputs| && s0 == Steps(START, inputs[..i0]) && s0.phase == Starting
    ensures i0 < i <= |inputs| && s == Steps(START, inputs[..i])
    ensures s.phase == Pinging || s.phase.Returned? || i == |inputs|
  {
    s, i := s0, i0;
    while i < |inputs|
      invariant i0 <= i <= |inputs| && s == Steps(START, inputs[..i])
      invariant !Waiting(s.phase) && !s.phase.Returned?
      decreases |inputs| - i
    {
      StepsSnoc(inputs, i);
      var input := inputs[i];
      i := i + 1;
      if s.phase == Starting {
        if input == BecameReady {
          var ready := [SawReady];
          if s.offered {
            ready := ready + [ClosedReady];
          }
          s := s.(phase := Beating, marks := s.marks + ready);
        } else if input.Exited? {
          s := HeartbeatReturned(s.marks + [SawExit], input.failed);
          return;
        } else if input == Signal {
          s := s.(phase := Killed);
        }
      } else if s.phase == Beating {
        if input.Exited? {
          s := HeartbeatReturned(s.marks + [SawExit], input.failed);
          return;
        } else if input == Signal {
          s := s.(phase := Killed);
        } else if input == Tick {
          s := s.(phase := Checking);
        }
      } else if s.phase == Checking {
        if input == PingOk {
          s := s.(phase := Beating);
        } else if input == PingFailed {
          s := s.(phase := Stopping);
        }
      } else if s.phase == Stopping {
        if input.Exited? {
          s := HeartbeatReturned(s.marks + [SawExit], true);
          return;
        } else if input == Signal {
          s := HeartbeatReturned(s.marks, false);
          return;
        }
      } else if input.Exited? {
        s := HeartbeatReturned(s.marks + [SawExit], false);
        return;
      }
    }
  }

  lemma {:induction false} ReturnedForGood(inputs: seq<Input>, i: nat)
    requires i <= |inputs| && Steps(START, inputs[..i]).phase.Returned?
    ensures Steps(START, inputs) == Steps(START, inputs[..i])
    decreases |inputs|
  {
    if i == |inputs| {
      assert inputs[..i] == inputs;
    } else {
      var front := inputs[..|inputs| - 1];
      assert front[..i] == inputs[..i];
      ReturnedForGood(front, i);
    }
  }

  // ---------------------------------------------------------------- what every run keeps

  function Count(m: Mark, s: seq<Mark>): (n: nat) {
    if s == [] then 0 else Count(m, s[..|s| - 1]) + if s[|s| - 1] == m then 1 else 0
  }

  lemma CountSnoc(m: Mark, s: seq<Mark>, x: Mark)
    ensures Count(m, s + [x]) == Count(m, s) + if x == m then 1 else 0
  {
    assert (s + [x])[..|s|] == s;
  }

  /** Heartbeaters launched and not yet seen to exit. */
  function Alive(s: seq<Mark>): (n: int) { Count(Launched, s) - Count(SawExit, s) }

  /** What the mark at `i` says about the ones before it (and, for readiness, right after it). */
  predicate Orderly(s: seq<Mark>, i: nat)
    requires i < |s|
  {
    match s[i]
    case Launched => i > 0 && s[i - 1] == Pinged && Alive(s[..i]) == 0
    case SawExit => Alive(s[..i]) == 1
    case ClosedReady => i > 0 && s[i - 1] == SawReady && Count(Launched, s[..i]) == 1 && Count(ClosedReady, s[..i]) == 0
    case SawReady => Count(Launched, s[..i]) == 1 ==> i + 1 < |s| && s[i + 1] == ClosedReady
    case Pinged => true
  }

  ghost predicate AllOrderly(s: seq<Mark>) { forall i :: 0 <= i < |s| ==> Orderly(s, i) }

  /** The invariant, in terms of how many heartbeaters were launched and seen to exit and how often
      `ready` was closed. */
  predicate InvOf(phase: Phase, offered: bool, launched: nat, exits: nat, closes: nat) {
    && exits <= launched <= exits + 1
    && (Waiting(phase) ==> launched == exits)
    && (!Waiting(phase) && !phase.Returned? ==> launched == exits + 1)
    && (Waiting(phase) ==> (offered <==> launched == 0))
    && (phase == Starting ==> (offered <==> launched == 1))
    && (offered ==> exits == 0)
    && (offered && (Waiting(phase) || phase == Starting) ==> closes == 0)
  }

  predicate Inv(s: State) {
    && InvOf(s.phase, s.offered, Count(Launched, s.marks), Count(SawExit, s.marks), Count(ClosedReady, s.marks))
    && (s.phase == Creating ==> s.marks != [] && s.marks[|s.marks| - 1] == Pinged)
  }

  lemma InvPinging(s: State, input: Input)
    requires Inv(s) && (s.phase == Pinging || s.phase == Sleeping)
    ensures Inv(Step(s, input))
  {
    Counts(s.marks, Pinged);
  }

  lemma InvCreating(s: State, input: Input)
    requires Inv(s) && s.phase == Creating
    ensures Inv(Step(s, input))
  {
    Counts(s.marks, Launched);
  }

  lemma InvReady(s: State)
    requires Inv(s) && s.phase == Starting
    ensures Inv(Step(s, BecameReady))
  {
    var m := s.marks;
    Counts(m, SawReady);
    if s.offered {
      assert m + [SawReady, ClosedReady] == m + [SawReady] + [ClosedReady];
      Counts(m + [SawReady], ClosedReady);
    }
  }

  lemma InvHeartbeat(s: State, input: Input)
    requires Inv(s) && !Waiting(s.phase) && (s.phase == Starting ==> input != BecameReady)
    ensures Inv(Step(s, input))
  {
    if input.Exited? {
      Counts(s.marks, SawExit);
    }
  }

  lemma InvStep(s: State, input: Input)
    requires Inv(s)
    ensures Inv(Step(s, input))
  {
    if s.phase == Creating {
      InvCreating(s, input);
    } else if Waiting(s.phase) {
      InvPinging(s, input);
    } else if s.phase == Starting && input == BecameReady {
      InvReady(s);
    } else {
      InvHeartbeat(s, input);
    }
  }

  lemma Counts(m: seq<Mark>, x: Mark)
    ensures Count(Launched, m + [x]) == Count(Launched, m) + if x == Launched then 1 else 0
    ensures Count(SawExit, m + [x]) == Count(SawExit, m) + if x == SawExit then 1 else 0
    ensures Count(ClosedReady, m + [x]) == Count(ClosedReady, m) + if x == ClosedReady then 1 else 0
  {
    CountSnoc(Launched, m, x);
    CountSnoc(SawExit, m, x);
    CountSnoc(ClosedReady, m, x);
  }

  /** Marks already made stay orderly when more follow, unless a readiness is left dangling. */
  lemma OrderlyExtends(s: seq<Mark>, more: seq<Mark>)
    requires AllOrderly(s)
    ensures forall i :: 0 <= i < |s| ==> Orderly(s + more, i)
  {
    forall i | 0 <= i < |s| ensures Orderly(s + more, i) {
      assert Orderly(s, i);
      assert (s + more)[..i] == s[..i];
    }
  }

  lemma OrderlyStep(s: State, input: Input)
    requires Inv(s) && AllOrderly(s.marks)
    ensures AllOrderly(Step(s, input).marks)
  {
    var m, m' := s.marks, Step(s, input).marks;
    var n := |m|;
    assert m' == m + m'[n..];
    OrderlyExtends(m, m'[n..]);
    if n < |m'| {
      assert m'[..n] == m;
      if s.phase == Starting && input == BecameReady {
        if s.offered {
          assert m'[..n + 1] == m + [SawReady];
          CountSnoc(Launched, m, SawReady);
          CountSnoc(ClosedReady, m, SawReady);
          assert Orderly(m', n) && Orderly(m', n + 1);
        } else {
          assert Orderly(m', n);
        }
      } else {
        assert Orderly(m', n);
      }
    }
  }

  lemma {:induction false} RunKeeps(inputs: seq<Input>)
    ensures Inv(Steps(START, inputs)) && AllOrderly(Steps(START, inputs).marks)
  {
    if inputs != [] {
      var front := inputs[..|inputs| - 1];
      RunKeeps(front);
      InvStep(Steps(START, front), inputs[|inputs| - 1]);
      OrderlyStep(Steps(START, front), inputs[|inputs| - 1]);
    }
  }

  /** In every run: at most one heartbeater is alive, and each is launched right after a ping that
      succeeded, when every earlier one has been seen to exit. */
  lemma OneHeartbeater(inputs: seq<Input>, i: nat)
    requires i < |Steps(START, inputs).marks|
    ensures var marks := Steps(START, inputs).marks;
            && 0 <= Alive(marks) <= 1
            && (marks[i] == Launched ==> i > 0 && marks[i - 1] == Pinged && Alive(marks[..i]) == 0)
  {
    RunKeeps(inputs);
    assert Orderly(Steps(START, inputs).marks, i);
  }

  /** The maintainer returns with a heartbeater possibly alive only when it was signalled while
      waiting for one it had killed. */
  lemma ReturnLeavesHeartbeater(inputs: seq<Input>, input: Input)
    requires var s := Steps(START, inputs); !s.phase.Returned? && Step(s, input).phase.Returned?
    ensures var s := Steps(START, inputs);
            Alive(Step(s, input).marks) == (if s.phase == Stopping && input == Signal then 1 else 0)
  {
    RunKeeps(inputs);
    var m := Steps(START, inputs).marks;
    CountSnoc(Launched, m, SawExit);
    CountSnoc(SawExit, m, SawExit);
  }

  lemma {:induction false} CountPositive(m: Mark, s: seq<Mark>)
    ensures Count(m, s) > 0 <==> m in s
  {
    if s != [] {
      CountPositive(m, s[..|s| - 1]);
      assert s == s[..|s| - 1] + [s[|s| - 1]];
    }
  }

  /** `ready` is closed at most once, right after a heartbeater became ready, and exactly when the
      first heartbeater does: the variable is cleared when the first heartbeat ends, so a first
      heartbeater that exits early means the maintainer never reports ready. */
  lemma ReadyIffFirstIsReady(inputs: seq<Input>)
    ensures var marks := Steps(START, inputs).marks;
            && (forall i, j :: 0 <= i < j < |marks| && marks[i] == ClosedReady ==> marks[j] != ClosedReady)
            && (ClosedReady in marks <==> exists i :: 0 <= i < |marks| && marks[i] == SawReady && Count(Launched, marks[..i]) == 1)
  {
    RunKeeps(inputs);
    var marks := Steps(START, inputs).marks;
    forall i, j | 0 <= i < j < |marks| && marks[i] == ClosedReady ensures marks[j] != ClosedReady {
      assert marks[..j][i] == ClosedReady;
      CountPositive(ClosedReady, marks[..j]);
      assert Orderly(marks, j);
    }
    if ClosedReady in marks {
      var k :| 0 <= k < |marks| && marks[k] == ClosedReady;
      assert Orderly(marks, k);
      assert marks[..k] == marks[..k - 1] + [SawReady];
      CountSnoc(Launched, marks[..k - 1], SawReady);
    }
    forall i | 0 <= i < |marks| && marks[i] == SawReady && Count(Launched, marks[..i]) == 1 ensures ClosedReady in marks {
      assert Orderly(marks, i);
    }
  }

  /** The run that shows it: the first heartbeater fails before it is ready, the second becomes
      ready and keeps beating, and `ready` stays open. */
  lemma SecondReadyIsNotReported()
    ensures var s := Steps(START, [PingOk, ResourcesOk, Exited(true), PingOk, ResourcesOk, BecameReady]);
            s.phase == Beating && SawReady in s.marks && ClosedReady !in s.marks
  {
    var a := Step(START, PingOk);
    var b := Step(a, ResourcesOk);
    var c := Step(b, Exited(true));
    var d := Step(c, PingOk);
    var e := Step(d, ResourcesOk);
    var f := Step(e, BecameReady);
    var inputs := [PingOk, ResourcesOk, Exited(true), PingOk, ResourcesOk, BecameReady];
    assert inputs[..5][..4] == inputs[..4] && inputs[..4][..3] == inputs[..3] && inputs[..3][..2] == inputs[..2];
    assert inputs[..2][..1] == inputs[..1] && inputs[..1][..0] == [];
    assert Steps(START, inputs[..1]) == a;
    assert Steps(START, inputs[..2]) == b;
    assert Steps(START, inputs[..3]) == c;
    assert Steps(START, inputs[..4]) == d;
    assert Steps(START, inputs[..5]) == e;
  }
}
