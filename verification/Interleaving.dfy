/** The queue runs operations of different keys at the same time, so their BBS calls interleave. The
    calls of residual operations do not mind. */
module Interleaving {
  import opened Types
  import opened Operations
  import opened Batch
  import opened Residual

  /** `merged` is the calls of `parts`, each part in its own order, mixed in any way. */
  ghost predicate Merges(parts: seq<seq<Call>>, merged: seq<Call>)
    decreases |merged|
  {
    if merged == [] then forall i :: 0 <= i < |parts| ==> parts[i] == []
    else exists i :: Takes(parts, i, merged[0]) && Merges(Rest(parts, i), merged[1..])
  }

  predicate Takes(parts: seq<seq<Call>>, i: int, call: Call) {
    0 <= i < |parts| && parts[i] != [] && parts[i][0] == call
  }

  function Rest(parts: seq<seq<Call>>, i: int): (rest: seq<seq<Call>>) {
    if 0 <= i < |parts| && parts[i] != [] then parts[i := parts[i][1..]] else parts
  }

  ghost predicate Within(parts: seq<seq<Call>>, call: Call) {
    exists i :: 0 <= i < |parts| && call in parts[i]
  }

  lemma RestWithin(parts: seq<seq<Call>>, i: int, head: Call, call: Call)
    requires Takes(parts, i, head)
    ensures Within(parts, call) <==> call == head || Within(Rest(parts, i), call)
  {
    var rest := Rest(parts, i);
    assert parts[i] == [head] + rest[i];
    if Within(parts, call) {
      var j :| 0 <= j < |parts| && call in parts[j];
      assert call == head || call in rest[j];
    }
    if Within(rest, call) {
      var j :| 0 <= j < |rest| && call in rest[j];
      assert call in parts[j];
    }
  }

  lemma {:induction false} MergedCalls(parts: seq<seq<Call>>, merged: seq<Call>, call: Call)
    requires Merges(parts, merged)
    ensures call in merged <==> Within(parts, call)
    decreases |merged|
  {
    if merged != [] {
      var i :| Takes(parts, i, merged[0]) && Merges(Rest(parts, i), merged[1..]);
      MergedCalls(Rest(parts, i), merged[1..], call);
      RestWithin(parts, i, merged[0], call);
      assert merged == [merged[0]] + merged[1..];
    }
  }

  // ---------------------------------------------------------------- calls, described without an order

  /** The calls residual operations make. */
  predicate Cleans(call: Call) {
    call.RemoveActualLRP? || call.RemoveEvacuatingActualLRP? || (call.FailTask? && call.why == MissingContainer)
  }

  predicate TakesEvacuating(call: Call, s: Slot, ik: InstanceKey) {
    call.RemoveEvacuatingActualLRP? && SlotOf(call.key) == s && call.ik == ik
  }

  ghost predicate EvacuatingTaken(calls: set<Call>, s: Slot, ik: InstanceKey) {
    exists call :: call in calls && TakesEvacuating(call, s, ik)
  }

  ghost function AfterCalls(b: BBS, calls: set<Call>): (b': BBS) {
    BBS(
      map s | s in b.instances && RemoveActualLRP(s.processGuid, s.index, b.instances[s].ik) !in calls :: b.instances[s],
      map s | s in b.evacuating && !EvacuatingTaken(calls, s, b.evacuating[s].ik) :: b.evacuating[s],
      map g | g in b.tasks ::
        if FailTask(g, MissingContainer) in calls && Active(b.tasks[g]) then CompletedWith(MissingContainer) else b.tasks[g])
  }

  lemma ApplyIsAfterCalls(b: BBS, call: Call)
    requires Cleans(call)
    ensures Apply(b, call) == AfterCalls(b, {call})
  {
    forall s, ik ensures EvacuatingTaken({call}, s, ik) <==> TakesEvacuating(call, s, ik) {
      assert call in {call};
    }
    var x, y := Apply(b, call), AfterCalls(b, {call});
    assert x.instances == y.instances;
    assert x.evacuating == y.evacuating;
    assert x.tasks == y.tasks;
  }

  lemma AfterCallsTwice(b: BBS, c: set<Call>, d: set<Call>)
    ensures AfterCalls(AfterCalls(b, c), d) == AfterCalls(b, c + d)
  {
    forall s, ik ensures EvacuatingTaken(c + d, s, ik) <==> EvacuatingTaken(c, s, ik) || EvacuatingTaken(d, s, ik) {
      assert forall call :: call in c || call in d <==> call in c + d;
    }
    var x, y := AfterCalls(AfterCalls(b, c), d), AfterCalls(b, c + d);
    assert x.instances == y.instances;
    assert x.evacuating == y.evacuating;
    assert x.tasks == y.tasks;
  }

  lemma AfterNoCalls(b: BBS)
    ensures AfterCalls(b, {}) == b
  {
    var a := AfterCalls(b, {});
    assert a.instances == b.instances && a.evacuating == b.evacuating && a.tasks == b.tasks;
  }

  /** A sequence of such calls amounts to their set. */
  lemma {:induction false} ApplyAllIsAfterCalls(b: BBS, calls: seq<Call>)
    requires forall call :: call in calls ==> Cleans(call)
    ensures ApplyAll(b, calls) == AfterCalls(b, Elements(calls))
    decreases |calls|
  {
    if calls == [] {
      AfterNoCalls(b);
    } else {
      ApplyIsAfterCalls(b, calls[0]);
      ApplyAllIsAfterCalls(Apply(b, calls[0]), calls[1..]);
      AfterCallsTwice(b, {calls[0]}, Elements(calls[1..]));
      assert calls == [calls[0]] + calls[1..];
      assert Elements(calls) == {calls[0]} + Elements(calls[1..]);
    }
  }

  // ---------------------------------------------------------------- operations, call by call

  /** What each operation sends, given which containers it finds. */
  function Sends(containers: set<Guid>, op: Operation): (calls: seq<Call>) {
    if op.Subject() in containers then [] else Cleanup(op)
  }

  function AllSends(containers: set<Guid>, ops: seq<Operation>): (parts: seq<seq<Call>>) {
    seq(|ops|, i requires 0 <= i < |ops| => Sends(containers, ops[i]))
  }

  ghost predicate Sent(containers: set<Guid>, ops: set<Operation>, call: Call) {
    exists op :: op in ops && call in Sends(containers, op)
  }

  lemma SentWithin(containers: set<Guid>, ops: seq<Operation>, call: Call)
    ensures Within(AllSends(containers, ops), call) <==> Sent(containers, Elements(ops), call)
  {
    var parts := AllSends(containers, ops);
    if Within(parts, call) {
      var i :| 0 <= i < |parts| && call in parts[i];
      assert ops[i] in Elements(ops) && call in Sends(containers, ops[i]);
    }
    if Sent(containers, Elements(ops), call) {
      var op :| op in Elements(ops) && call in Sends(containers, op);
      var i :| 0 <= i < |ops| && ops[i] == op;
      assert call in parts[i];
    }
  }

  lemma InstanceSent(containers: set<Guid>, ops: set<Operation>, s: Slot, ik: InstanceKey)
    ensures Sent(containers, ops, RemoveActualLRP(s.processGuid, s.index, ik)) <==> InstanceGoes(containers, ops, s, ik)
  {
    var call := RemoveActualLRP(s.processGuid, s.index, ik);
    forall op ensures call in Sends(containers, op) <==> RemovesInstance(containers, op, s, ik) {
      if RemovesInstance(containers, op, s, ik) {
        assert Cleanup(op)[0] == call;
      }
    }
  }

  lemma EvacuatingSent(containers: set<Guid>, ops: set<Operation>, calls: set<Call>, s: Slot, ik: InstanceKey)
    requires forall call :: call in calls <==> Sent(containers, ops, call)
    ensures EvacuatingTaken(calls, s, ik) <==> EvacuatingGoes(containers, ops, s, ik)
  {
    if EvacuatingTaken(calls, s, ik) {
      var call :| call in calls && TakesEvacuating(call, s, ik);
      assert Sent(containers, ops, call);
      var op :| op in ops && call in Sends(containers, op);
      assert RemovesEvacuating(containers, op, s, ik);
    }
    if EvacuatingGoes(containers, ops, s, ik) {
      var op :| op in ops && RemovesEvacuating(containers, op, s, ik);
      var call := RemoveEvacuatingActualLRP(op.key, op.ik);
      assert Cleanup(op)[|Cleanup(op)| - 1] == call;
      assert call in Sends(containers, op);
      assert Sent(containers, ops, call) && TakesEvacuating(call, s, ik);
    }
  }

  lemma TaskSent(containers: set<Guid>, ops: set<Operation>, g: Guid)
    ensures Sent(containers, ops, FailTask(g, MissingContainer)) <==> ResidualTask(g) in ops && g !in containers
  {
    var call := FailTask(g, MissingContainer);
    if ResidualTask(g) in ops && g !in containers {
      assert Cleanup(ResidualTask(g))[0] == call;
      assert call in Sends(containers, ResidualTask(g));
    }
  }

  /** Whatever set of calls the operations send is what their set of operations does. */
  lemma CallsAreAfter(b: BBS, containers: set<Guid>, ops: set<Operation>, calls: set<Call>)
    requires forall call :: call in calls <==> Sent(containers, ops, call)
    ensures AfterCalls(b, calls) == After(b, containers, ops)
  {
    forall s: Slot, ik ensures RemoveActualLRP(s.processGuid, s.index, ik) in calls <==> InstanceGoes(containers, ops, s, ik) {
      InstanceSent(containers, ops, s, ik);
    }
    forall s, ik ensures EvacuatingTaken(calls, s, ik) <==> EvacuatingGoes(containers, ops, s, ik) {
      EvacuatingSent(containers, ops, calls, s, ik);
    }
    forall g ensures FailTask(g, MissingContainer) in calls <==> ResidualTask(g) in ops && g !in containers {
      TaskSent(containers, ops, g);
    }
    var x, y := AfterCalls(b, calls), After(b, containers, ops);
    assert x.instances == y.instances;
    assert x.evacuating == y.evacuating;
    assert x.tasks == y.tasks;
  }

  lemma SendsClean(containers: set<Guid>, op: Operation, call: Call)
    requires call in Sends(containers, op)
    ensures Cleans(call)
  {
  }

  /** However the calls of residual operations interleave, joint removals included, and however
      often an operation is repeated, the BBS ends in the state given by the set of operations, the
      same as if each had run alone in some order. */
  lemma AnyInterleaving(b: BBS, containers: set<Guid>, ops: seq<Operation>, merged: seq<Call>)
    requires Merges(AllSends(containers, ops), merged)
    ensures ApplyAll(b, merged) == After(b, containers, Elements(ops))
    ensures ApplyAll(b, merged) == ExecuteAll(b, containers, ops)
  {
    forall call ensures call in merged <==> Sent(containers, Elements(ops), call) {
      MergedCalls(AllSends(containers, ops), merged, call);
      SentWithin(containers, ops, call);
    }
    forall call | call in merged ensures Cleans(call) {
      var op :| op in Elements(ops) && call in Sends(containers, op);
      SendsClean(containers, op, call);
    }
    ApplyAllIsAfterCalls(b, merged);
    CallsAreAfter(b, containers, Elements(ops), Elements(merged));
    AnyOrder(b, containers, ops);
  }

  /** So one batch from complete listings harmonizes the BBS however its operations' calls
      interleave. */
  lemma BatchHarmonizesInterleaved(cell: string, b: BBS, containers: seq<Container>, groups: seq<Group>, tasks: seq<Guid>,
                                   ops: seq<Operation>, merged: seq<Call>)
    requires Quiescent(cell, b, groups, tasks)
    requires Elements(ops) == Residuals(Listed(containers, groups, tasks))
    requires Merges(AllSends(Listed(containers, groups, tasks).containers, ops), merged)
    ensures ApplyAll(b, merged) == Harmonized(cell, b, Listed(containers, groups, tasks))
  {
    AnyInterleaving(b, Listed(containers, groups, tasks).containers, ops, merged);
    BatchHarmonizes(cell, b, containers, groups, tasks, ops);
  }
}
