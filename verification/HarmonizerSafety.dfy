/** Safety of the harmonizer over every run of the cell. */
module HarmonizerSafety {
  import opened Types
  import opened Operations
  import opened Batch
  import opened Residual
  import opened Harmonizer

  // ---------------------------------------------------------------- stale snapshots do no harm

  /** An operation that gets as far as a cleanup call has seen its container absent. */
  lemma CleanupFollowsAbsence(cfg: Config, op: Operation, t: seq<Event>, i: nat)
    requires OpTrace(cfg, op, t) && !op.ContainerOp? && 1 <= i < |t|
    ensures t[0].reply.container.None?
    ensures i - 1 < |Cleanup(op)| && t[i].call == Cleanup(op)[i - 1]
  {
    assert t[1..][i - 1] == t[i];
  }

  /** A call that takes a record out of the BBS takes one with the instance key it names. */
  lemma RemovedRecord(b: BBS, call: Call, s: Slot)
    requires call.RemoveActualLRP? || call.RemoveEvacuatingActualLRP?
    ensures s in b.instances && s !in Apply(b, call).instances ==> b.instances[s].ik == call.ik
    ensures s in b.evacuating && s !in Apply(b, call).evacuating ==> b.evacuating[s].ik == call.ik
  {
  }

  /** However old the snapshot a residual LRP operation came from, and whatever happened between
      its look and its removals: when it removes, the container is still absent, and each record
      that goes is that container's, on this cell. */
  lemma StaleSnapshotsAreSafe(cfg: Config, ss: seq<Cell>, acts: seq<Action>, i: nat)
    requires IsRun(cfg, ss, acts) && Init(cfg, ss[0]) && i < |acts| && acts[i].Step?
    requires var f := ss[i].active[acts[i].key]; f.op.ResidualLRP() && f.pos >= 1
    ensures acts[i].key !in ss[i].containers
    ensures forall s :: s in ss[i].bbs.instances && s !in ss[i + 1].bbs.instances ==>
              ss[i].bbs.instances[s].ik == InstanceKey(acts[i].key, cfg.cellID)
    ensures forall s :: s in ss[i].bbs.evacuating && s !in ss[i + 1].bbs.evacuating ==>
              ss[i].bbs.evacuating[s].ik == InstanceKey(acts[i].key, cfg.cellID)
  {
    InvInit(cfg, ss[0]);
    InvRun(cfg, ss, acts, i);
    ResidualCall(cfg, ss[i], acts[i].key);
    RemovalStep(cfg, ss[i], acts[i]);
  }

  lemma ResidualCall(cfg: Config, s: Cell, k: Guid)
    requires k in s.active && Fits(cfg, s.lrpGuids, s.containers.Keys, k, s.active[k])
    requires OpTrace(cfg, s.active[k].op, s.active[k].t) && s.active[k].op.ResidualLRP()
    requires 1 <= s.active[k].pos < |s.active[k].t|
    ensures k !in s.containers
    ensures var call := s.active[k].t[s.active[k].pos].call;
            (call.RemoveActualLRP? || call.RemoveEvacuatingActualLRP?) && call.ik == InstanceKey(k, cfg.cellID)
  {
    var f := s.active[k];
    CleanupFollowsAbsence(cfg, f.op, f.t, f.pos);
  }

  lemma RemovalStep(cfg: Config, s: Cell, a: Action)
    requires Enabled(cfg, s, a) && a.Step? && a.key !in s.containers
    requires var call := s.active[a.key].t[s.active[a.key].pos].call;
             (call.RemoveActualLRP? || call.RemoveEvacuatingActualLRP?) && call.ik == InstanceKey(a.key, cfg.cellID)
    ensures var s' := Next(cfg, s, a);
            && (forall sl :: sl in s.bbs.instances && sl !in s'.bbs.instances ==> s.bbs.instances[sl].ik == InstanceKey(a.key, cfg.cellID))
            && (forall sl :: sl in s.bbs.evacuating && sl !in s'.bbs.evacuating ==> s.bbs.evacuating[sl].ik == InstanceKey(a.key, cfg.cellID))
  {
    var f := s.active[a.key];
    forall sl { RemovedRecord(s.bbs, f.t[f.pos].call, sl); }
  }
}
