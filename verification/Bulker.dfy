/** harmonizer/bulker.go: when the bulker synchronises, and what it pushes. */
module Bulker {
  import opened Types
  import opened Operations
  import opened Batch

  datatype Interval = PollInterval | EvacuationInterval

  /** What the select in Run can pick up. */
  datatype Input = TimerFired | Notified | Signalled

  /** `resets` are the intervals the timer was reset to, one per sync. */
  datatype State = State(interval: Interval, listening: bool, syncs: nat, resets: seq<Interval>, stopped: bool)

  const START := State(PollInterval, true, 0, [], false)

  /** One turn of the loop. A notification is not picked up again once the channel was set to nil. */
  function Turn(s: State, input: Input): (s': State) {
    if s.stopped then s
    else
      match input
      case TimerFired => s.(syncs := s.syncs + 1, resets := s.resets + [s.interval])
      case Notified =>
        if !s.listening then s
        else State(EvacuationInterval, false, s.syncs + 1, s.resets + [EvacuationInterval], false)
      case Signalled => s.(stopped := true)
  }

  function Turns(inputs: seq<Input>): (s: State) {
    if inputs == [] then START else Turn(Turns(inputs[..|inputs| - 1]), inputs[|inputs| - 1])
  }

  method Run(inputs: seq<Input>) returns (s: State)
    ensures s == Turns(inputs)
  {
    var interval, listening, syncs, resets := PollInterval, true, 0, [];
    for i := 0 to |inputs|
      invariant Turns(inputs[..i]) == State(interval, listening, syncs, resets, false)
    {
      assert inputs[..i + 1][..i] == inputs[..i];
      match inputs[i] {
        case TimerFired =>
        case Notified =>
          if !listening {
            continue;
          }
          listening := false;
          interval := EvacuationInterval;
        case Signalled =>
          s := State(interval, listening, syncs, resets, true);
          StoppedForGood(inputs, i + 1);
          return;
      }
      syncs := syncs + 1;
      resets := resets + [interval];
    }
    assert inputs[..|inputs|] == inputs;
    s := State(interval, listening, syncs, resets, false);
  }

  lemma {:induction false} StoppedForGood(inputs: seq<Input>, i: nat)
    requires i <= |inputs| && Turns(inputs[..i]).stopped
    ensures Turns(inputs) == Turns(inputs[..i])
    decreases |inputs|
  {
    if i == |inputs| {
      assert inputs[..i] == inputs;
    } else {
      var front := inputs[..|inputs| - 1];
      assert front[..i] == inputs[..i];
      StoppedForGood(front, i);
    }
  }

  // ---------------------------------------------------------------- the run, from its inputs alone

  function Fires(inputs: seq<Input>): (n: nat) {
    if inputs == [] then 0
    else Fires(inputs[..|inputs| - 1]) + if inputs[|inputs| - 1] == TimerFired then 1 else 0
  }

  /** `n` intervals of one kind. */
  function Repeat(x: Interval, n: nat): (s: seq<Interval>) { seq(n, i => x) }

  lemma {:induction false} BeforeNotification(inputs: seq<Input>)
    requires Signalled !in inputs && Notified !in inputs
    ensures Turns(inputs) == State(PollInterval, true, Fires(inputs), Repeat(PollInterval, Fires(inputs)), false)
  {
    if inputs != [] {
      BeforeNotification(inputs[..|inputs| - 1]);
    }
  }

  /** Until it is signalled the bulker synchronises once per timer fire and once more for the first
      notification, however many follow; every reset uses the poll interval up to that
      notification and the evacuation interval from it on. */
  lemma {:induction false} AfterNotification(before: seq<Input>, rest: seq<Input>)
    requires Signalled !in before && Notified !in before && Signalled !in rest
    ensures var p, q := Fires(before), 1 + Fires(rest);
            Turns(before + [Notified] + rest) ==
            State(EvacuationInterval, false, p + q, Repeat(PollInterval, p) + Repeat(EvacuationInterval, q), false)
  {
    var inputs := before + [Notified] + rest;
    if rest == [] {
      assert inputs[..|inputs| - 1] == before;
      BeforeNotification(before);
      assert [EvacuationInterval] == Repeat(EvacuationInterval, 1);
    } else {
      var n := |rest| - 1;
      assert inputs[..|inputs| - 1] == before + [Notified] + rest[..n];
      AfterNotification(before, rest[..n]);
      assert Repeat(EvacuationInterval, 1 + Fires(rest[..n])) + [EvacuationInterval] == Repeat(EvacuationInterval, 2 + Fires(rest[..n]));
    }
  }

  /** A signal ends the run: nothing after it has any effect. */
  lemma SignalEnds(before: seq<Input>, rest: seq<Input>)
    ensures Turns(before + [Signalled] + rest) == Turns(before).(stopped := true)
  {
    var inputs := before + [Signalled] + rest;
    var upTo := inputs[..|before| + 1];
    assert upTo == before + [Signalled] && upTo[..|before|] == before;
    StoppedForGood(inputs, |before| + 1);
  }

  // ---------------------------------------------------------------- one sync

  /** sync: a failed batch pushes nothing; a batch is pushed whole, each operation once, in any
      order. */
  method Sync(batch: Result<map<Guid, Operation>, FetchError>, queue: seq<Operation>)
    returns (queue': seq<Operation>, ghost order: seq<Guid>)
    ensures batch.Err? ==> queue' == queue
    ensures batch.Ok? ==>
              && (forall g :: g in order <==> g in batch.value)
              && (forall i, j :: 0 <= i < j < |order| ==> order[i] != order[j])
              && |queue'| == |queue| + |order| && queue'[..|queue|] == queue
              && (forall i :: 0 <= i < |order| ==> queue'[|queue| + i] == batch.value[order[i]])
  {
    queue', order := queue, [];
    if batch.Err? {
      return;
    }
    var todo := batch.value.Keys;
    while todo != {}
      invariant todo <= batch.value.Keys
      invariant forall g :: g in order <==> g in batch.value && g !in todo
      invariant forall i, j :: 0 <= i < j < |order| ==> order[i] != order[j]
      invariant |queue'| == |queue| + |order| && queue'[..|queue|] == queue
      invariant forall i :: 0 <= i < |order| ==> queue'[|queue| + i] == batch.value[order[i]]
      decreases todo
    {
      var g :| g in todo;
      todo := todo - {g};
      queue' := queue' + [batch.value[g]];
      order := order + [g];
    }
  }
}
