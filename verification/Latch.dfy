/** evacuation/evacuation_context/evacuation_context.go and evacuation/evacuation.go: the one-way
    evacuation latch, and the poll that declares an evacuation complete. */
module Latch {
  import opened Types

  // ---------------------------------------------------------------- any number of threads

  /** Where a thread is in Evacuate. */
  datatype PC = Outside | Entered | SawOpen | Leaving

  /** `closes` counts calls of close on the channel; a second one would panic. */
  datatype Shared = Shared(holder: Option<nat>, closed: bool, closes: nat, pcs: map<nat, PC>)
  {
    function At(t: nat): (pc: PC) { if t in pcs then pcs[t] else Outside }
  }

  datatype Action = Lock(t: nat) | Check(t: nat) | Close(t: nat) | Unlock(t: nat)

  predicate Enabled(s: Shared, a: Action) {
    match a
    case Lock(t) => s.At(t) == Outside && s.holder.None?
    case Check(t) => s.At(t) == Entered
    case Close(t) => s.At(t) == SawOpen
    case Unlock(t) => s.At(t) == Leaving
  }

  function Next(s: Shared, a: Action): (s': Shared)
    requires Enabled(s, a)
  {
    match a
    case Lock(t) => s.(holder := Some(t), pcs := s.pcs[t := Entered])
    case Check(t) => s.(pcs := s.pcs[t := if s.closed then Leaving else SawOpen])
    case Close(t) => s.(closed := true, closes := s.closes + 1, pcs := s.pcs[t := Leaving])
    case Unlock(t) => s.(holder := None, pcs := s.pcs[t := Outside])
  }

  const OPEN := Shared(None, false, 0, map[])

  predicate IsRun(ss: seq<Shared>, acts: seq<Action>) {
    && |ss| == |acts| + 1
    && forall i :: 0 <= i < |acts| ==> Enabled(ss[i], acts[i]) && ss[i + 1] == Next(ss[i], acts[i])
  }

  ghost predicate Inv(s: Shared) {
    && s.closes == (if s.closed then 1 else 0)
    && (forall t: nat :: s.At(t) != Outside <==> s.holder == Some(t))
    && (forall t: nat :: s.At(t) == SawOpen ==> !s.closed)
    && (forall t: nat :: s.At(t) == Leaving ==> s.closed)
  }

  lemma InvNext(s: Shared, a: Action)
    requires Inv(s) && Enabled(s, a)
    ensures Inv(Next(s, a)) && (s.closed ==> Next(s, a).closed)
  {
    var s' := Next(s, a);
    forall t: nat
      ensures s'.At(t) != Outside <==> s'.holder == Some(t)
      ensures s'.At(t) == SawOpen ==> !s'.closed
      ensures s'.At(t) == Leaving ==> s'.closed
    {
      assert s'.At(t) == if t == a.t then s'.pcs[t] else s.At(t);
    }
  }

  lemma {:induction false} InvRun(ss: seq<Shared>, acts: seq<Action>, i: nat)
    requires IsRun(ss, acts) && ss[0] == OPEN && i < |ss|
    ensures Inv(ss[i])
    decreases i
  {
    if i > 0 {
      InvRun(ss, acts, i - 1);
      InvNext(ss[i - 1], acts[i - 1]);
    }
  }

  /** However Evacuate calls interleave: the channel is closed at most once, a close never finds it
      closed already, and at most one thread is inside. */
  lemma ClosedAtMostOnce(ss: seq<Shared>, acts: seq<Action>, i: nat)
    requires IsRun(ss, acts) && ss[0] == OPEN && i < |ss|
    ensures ss[i].closes <= 1 && (ss[i].closed <==> ss[i].closes == 1)
    ensures i < |acts| && acts[i].Close? ==> !ss[i].closed
    ensures forall t: nat, u: nat :: ss[i].At(t) != Outside && ss[i].At(u) != Outside ==> t == u
  {
    InvRun(ss, acts, i);
  }

  /** The latch is one-way: once evacuating, always evacuating. */
  lemma {:induction false} OneWay(ss: seq<Shared>, acts: seq<Action>, i: nat, j: nat)
    requires IsRun(ss, acts) && ss[0] == OPEN && i <= j < |ss| && ss[i].closed
    ensures ss[j].closed
    decreases j
  {
    if i < j {
      OneWay(ss, acts, i, j - 1);
      InvRun(ss, acts, j - 1);
      InvNext(ss[j - 1], acts[j - 1]);
    }
  }

  /** When any call of Evacuate returns, the cell is evacuating. */
  lemma ReturnMeansEvacuating(ss: seq<Shared>, acts: seq<Action>, i: nat)
    requires IsRun(ss, acts) && ss[0] == OPEN && i < |acts| && acts[i].Unlock?
    ensures ss[i + 1].closed
  {
    InvRun(ss, acts, i);
  }

  // ---------------------------------------------------------------- one thread, as an object

  class EvacuationContext {
    var closed: bool
    var closes: nat

    constructor ()
      ensures !Evacuating() && closes == 0
    {
      closed, closes := false, 0;
    }

    function Evacuating(): (b: bool)
      reads this
    {
      closed
    }

    method Evacuate()
      modifies this
      ensures Evacuating()
      ensures closes == old(closes) + if old(Evacuating()) then 0 else 1
    {
      if !closed {
        closed := true;
        closes := closes + 1;
      }
    }
  }

  /** A thread that finds the lock free and is left alone takes the shared state where one call of
      Evacuate takes the object. */
  lemma CallAlone(s: Shared, t: nat) returns (ss: seq<Shared>, acts: seq<Action>)
    requires Inv(s) && s.holder.None?
    ensures IsRun(ss, acts) && ss[0] == s
    ensures forall i :: 0 <= i < |acts| ==> acts[i].t == t
    ensures var s' := ss[|acts|];
            s'.holder.None? && s'.At(t) == Outside && s'.closed && s'.closes == s.closes + if s.closed then 0 else 1
  {
    assert s.At(t) == Outside;
    var s1 := Next(s, Lock(t));
    var s2 := Next(s1, Check(t));
    if s.closed {
      acts, ss := [Lock(t), Check(t), Unlock(t)], [s, s1, s2, Next(s2, Unlock(t))];
    } else {
      var s3 := Next(s2, Close(t));
      acts, ss := [Lock(t), Check(t), Close(t), Unlock(t)], [s, s1, s2, s3, Next(s3, Unlock(t))];
    }
  }

  // ---------------------------------------------------------------- the evacuator

  /** allContainersEvacuated: a failed listing is not an empty one. */
  predicate AllContainersEvacuated(listing: Result<seq<Container>, string>) {
    listing.Ok? && listing.value == []
  }

  /** evacuate, over the listings its polls will get: done at the first that succeeds and is empty,
      and not before. */
  method PollUntilEmpty(listings: seq<Result<seq<Container>, string>>) returns (done: bool, polls: nat)
    ensures polls <= |listings|
    ensures done <==> exists i :: 0 <= i < |listings| && AllContainersEvacuated(listings[i])
    ensures done ==> polls > 0 && AllContainersEvacuated(listings[polls - 1])
    ensures forall i :: 0 <= i < (if done then polls - 1 else polls) ==> !AllContainersEvacuated(listings[i])
    ensures !done ==> polls == |listings|
  {
    done, polls := false, 0;
    while polls < |listings|
      invariant polls <= |listings|
      invariant forall i :: 0 <= i < polls ==> !AllContainersEvacuated(listings[i])
    {
      polls := polls + 1;
      if AllContainersEvacuated(listings[polls - 1]) {
        return true, polls;
      }
    }
  }
}
