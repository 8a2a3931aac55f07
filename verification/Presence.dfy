/** What each input does to the maintainer, over every run: when the presence is given up, taken up
    again, or kept. */
module Presence {
  import opened Maintainer

  function At(inputs: seq<Input>): (s: State) { Steps(START, inputs) }

  lemma {:induction false} StepsConcat(s: State, a: seq<Input>, b: seq<Input>)
    ensures Steps(s, a + b) == Steps(Steps(s, a), b)
    decreases |b|
  {
    if b == [] {
      assert a + b == a;
    } else {
      var n := |b| - 1;
      assert (a + b)[..|a + b| - 1] == a + b[..n];
      StepsConcat(s, a, b[..n]);
    }
  }

  lemma AtOne(inputs: seq<Input>, x: Input)
    ensures At(inputs + [x]) == Step(At(inputs), x)
  {
    assert (inputs + [x])[..|inputs|] == inputs;
  }

  lemma AtTwo(inputs: seq<Input>, x: Input, y: Input)
    ensures At(inputs + [x, y]) == Step(Step(At(inputs), x), y)
  {
    assert inputs + [x, y] == inputs + [x] + [y];
    AtOne(inputs + [x], y);
    AtOne(inputs, x);
  }

  // ---------------------------------------------------------------- what is waited for

  predicate Awaits(p: Phase, x: Input) {
    match p
    case Pinging => x == PingOk || x == PingFailed
    case Creating => x == ResourcesOk || x == ResourcesFailed
    case Sleeping => x == Tick || x == Signal
    case Starting => x == BecameReady || x.Exited? || x == Signal
    case Beating => x == Tick || x.Exited? || x == Signal
    case Checking => x == PingOk || x == PingFailed
    case Stopping => x.Exited? || x == Signal
    case Killed => x.Exited?
    case Returned(_) => false
  }

  /** An input has an effect if and only if it is waited for. */
  lemma AwaitsIff(inputs: seq<Input>, x: Input)
    ensures At(inputs + [x]) != At(inputs) <==> Awaits(At(inputs).phase, x)
  {
    AtOne(inputs, x);
  }

  lemma {:induction false} StaysPut(inputs: seq<Input>, noise: seq<Input>)
    requires forall i :: 0 <= i < |noise| ==> !Awaits(At(inputs).phase, noise[i])
    ensures At(inputs + noise) == At(inputs)
    decreases |noise|
  {
    if noise == [] {
      assert inputs + noise == inputs;
    } else {
      var n := |noise| - 1;
      StaysPut(inputs, noise[..n]);
      assert inputs + noise == inputs + noise[..n] + [noise[n]];
      AwaitsIff(inputs + noise[..n], noise[n]);
    }
  }

  // ---------------------------------------------------------------- waiting for the executor

  /** `n` failed pings, each followed by a wait. */
  function Retries(n: nat): (inputs: seq<Input>) {
    if n == 0 then [] else Retries(n - 1) + [PingFailed, Tick]
  }

  /** However often the ping fails, the maintainer waits and pings again, as if it had just begun. */
  lemma {:induction false} PingsAgain(inputs: seq<Input>, n: nat)
    requires At(inputs).phase == Pinging
    ensures At(inputs + Retries(n)) == At(inputs)
  {
    if n == 0 {
      assert inputs + [] == inputs;
    } else {
      PingsAgain(inputs, n - 1);
      assert inputs + Retries(n) == inputs + Retries(n - 1) + [PingFailed, Tick];
      AtTwo(inputs + Retries(n - 1), PingFailed, Tick);
    }
  }

  /** The first ping that succeeds leads to a heartbeater, or to an error if the executor cannot say
      what it has; a signal while waiting is an error too. */
  lemma AfterPings(inputs: seq<Input>, n: nat)
    requires At(inputs).phase == Pinging
    ensures var s, before := At(inputs), inputs + Retries(n);
            && At(before + [PingOk, ResourcesOk]) == State(Starting, s.offered, s.marks + [Pinged] + [Launched])
            && At(before + [PingOk, ResourcesFailed]).phase == Returned(true)
            && At(before + [PingFailed, Signal]).phase == Returned(true)
  {
    PingsAgain(inputs, n);
    AtTwo(inputs + Retries(n), PingOk, ResourcesOk);
    AtTwo(inputs + Retries(n), PingOk, ResourcesFailed);
    AtTwo(inputs + Retries(n), PingFailed, Signal);
  }

  // ---------------------------------------------------------------- a heartbeater's life

  /** Becoming ready, which closes `ready` if it is still on offer. */
  lemma BecomesReady(inputs: seq<Input>)
    requires At(inputs).phase == Starting
    ensures var s := At(inputs);
            At(inputs + [BecameReady]) == State(Beating, s.offered, s.marks + if s.offered then [SawReady, ClosedReady] else [SawReady])
  {
    AtOne(inputs, BecameReady);
  }

  /** A ping that succeeds on a tick leaves the run where it was. */
  lemma GoodPingKeeps(inputs: seq<Input>)
    requires At(inputs).phase == Beating
    ensures At(inputs + [Tick, PingOk]) == At(inputs)
  {
    AtTwo(inputs, Tick, PingOk);
  }

  predicate Quiet(inputs: seq<Input>) {
    forall i :: 0 <= i < |inputs| ==> !inputs[i].Exited? && inputs[i] != Signal
  }

  lemma ExitCounted(inputs: seq<Input>, marks: seq<Mark>)
    requires marks == At(inputs).marks + [SawExit] && Alive(At(inputs).marks) == 1
    ensures Alive(marks) == 0
  {
    CountSnoc(Launched, At(inputs).marks, SawExit);
    CountSnoc(SawExit, At(inputs).marks, SawExit);
  }

  lemma OneAlive(inputs: seq<Input>)
    requires !Waiting(At(inputs).phase) && !At(inputs).phase.Returned?
    ensures Alive(At(inputs).marks) == 1
  {
    RunKeeps(inputs);
  }

  /** A ping that fails on a tick ends the presence: whatever comes in between, the heartbeater's exit,
      with an error or without, is waited for and leads back to pinging with none alive, and only a
      signal ends the wait early. */
  lemma FailedPingGivesUp(inputs: seq<Input>, quiet: seq<Input>, failed: bool)
    requires At(inputs).phase == Beating && Quiet(quiet)
    ensures var stopping := inputs + [Tick, PingFailed] + quiet;
            && At(stopping).phase == Stopping && At(stopping).marks == At(inputs).marks
            && At(stopping + [Exited(failed)]) == State(Pinging, false, At(inputs).marks + [SawExit])
            && Alive(At(stopping + [Exited(failed)]).marks) == 0
            && At(stopping + [Signal]) == State(Returned(false), false, At(inputs).marks)
  {
    AtTwo(inputs, Tick, PingFailed);
    StaysPut(inputs + [Tick, PingFailed], quiet);
    var stopping := inputs + [Tick, PingFailed] + quiet;
    AtOne(stopping, Exited(failed));
    AtOne(stopping, Signal);
    OneAlive(inputs);
    ExitCounted(inputs, At(stopping + [Exited(failed)]).marks);
  }

  /** A signal while a heartbeater is starting or beating kills it, and the maintainer returns, without
      an error, only once its exit is seen. */
  lemma SignalWaitsForExit(inputs: seq<Input>, noise: seq<Input>, failed: bool)
    requires At(inputs).phase == Starting || At(inputs).phase == Beating
    requires forall i :: 0 <= i < |noise| ==> !noise[i].Exited?
    ensures var killed := inputs + [Signal] + noise;
            && !At(killed).phase.Returned? && At(killed).marks == At(inputs).marks
            && At(killed + [Exited(failed)]) == State(Returned(false), false, At(inputs).marks + [SawExit])
            && Alive(At(killed + [Exited(failed)]).marks) == 0
  {
    AtOne(inputs, Signal);
    StaysPut(inputs + [Signal], noise);
    var killed := inputs + [Signal] + noise;
    AtOne(killed, Exited(failed));
    OneAlive(inputs);
    ExitCounted(inputs, At(killed + [Exited(failed)]).marks);
  }

  /** A heartbeater that exits by itself ends the run if it exits without an error, and otherwise sends
      the maintainer back to pinging. */
  lemma ExitByItself(inputs: seq<Input>, failed: bool)
    requires At(inputs).phase == Starting || At(inputs).phase == Beating
    ensures var s := At(inputs + [Exited(failed)]);
            && s == State(if failed then Pinging else Returned(false), false, At(inputs).marks + [SawExit])
            && Alive(s.marks) == 0
  {
    AtOne(inputs, Exited(failed));
    OneAlive(inputs);
    ExitCounted(inputs, At(inputs + [Exited(failed)]).marks);
  }

  // ---------------------------------------------------------------- a dead executor has no presence

  lemma ExitsGrow(s: State, x: Input)
    ensures Count(SawExit, Step(s, x).marks) >= Count(SawExit, s.marks)
  {
    var m := s.marks;
    Counts(m, Pinged);
    Counts(m, Launched);
    Counts(m, SawExit);
    Counts(m, SawReady);
    if s.phase == Starting && x == BecameReady && s.offered {
      assert m + [SawReady, ClosedReady] == m + [SawReady] + [ClosedReady];
      Counts(m + [SawReady], ClosedReady);
    }
  }

  lemma {:induction false} GivenUpRun(inputs: seq<Input>, rest: seq<Input>)
    requires At(inputs).phase == Stopping
    ensures var n, s := Count(SawExit, At(inputs).marks), At(inputs + rest);
            Count(SawExit, s.marks) >= n && (s == At(inputs) || s.phase.Returned? || Count(SawExit, s.marks) > n)
    decreases |rest|
  {
    if rest == [] {
      assert inputs + rest == inputs;
    } else {
      var k := |rest| - 1;
      GivenUpRun(inputs, rest[..k]);
      assert inputs + rest == inputs + rest[..k] + [rest[k]];
      AtOne(inputs + rest[..k], rest[k]);
      var s := At(inputs + rest[..k]);
      ExitsGrow(s, rest[k]);
      CountSnoc(SawExit, s.marks, SawExit);
    }
  }

  /** After a ping that failed on a tick, whatever comes next: wherever the maintainer has a heartbeater
      it has not given up on, that is a new one, launched after the old one was seen to exit. */
  lemma PresenceAfterFailedPing(inputs: seq<Input>, rest: seq<Input>)
    requires At(inputs).phase == Beating
    ensures var s, s' := At(inputs), At(inputs + [Tick, PingFailed] + rest);
            s'.phase == Starting || s'.phase == Beating || s'.phase == Checking ==>
              Count(SawExit, s'.marks) > Count(SawExit, s.marks) && Count(Launched, s'.marks) > Count(Launched, s.marks)
  {
    AtTwo(inputs, Tick, PingFailed);
    GivenUpRun(inputs + [Tick, PingFailed], rest);
    RunKeeps(inputs);
    RunKeeps(inputs + [Tick, PingFailed] + rest);
  }
}
