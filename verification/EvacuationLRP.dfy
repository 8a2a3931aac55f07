/** generator/internal/evacuation_lrp_processor.go */
module EvacuationLRP {
  import opened Types
  import opened Conversion
  import opened Clients

  /** Not running yet: the claim is handed back and the container deleted, whatever the BBS replies. */
  predicate ClaimedTrace(x: LRPContainer, t: seq<Event>) {
    && |t| == 2
    && t[0].call == EvacuateClaimedActualLRP(x.key, x.ik)
    && Deletes(t[1], x.c.guid)
  }

  /** Running: the container is deleted exactly when the BBS does not ask to keep it. */
  predicate RunningTrace(cfg: Config, x: LRPContainer, t: seq<Event>) {
    if !cfg.models.validNetInfo(x.c.netInfo) then t == []
    else
      && |t| >= 1
      && t[0].call == EvacuateRunningActualLRP(x.key, x.ik, x.c.netInfo, cfg.evacuationTTL)
      && if t[0].reply.flag then |t| == 1 else |t| == 2 && Deletes(t[1], x.c.guid)
  }

  predicate CompletedTrace(x: LRPContainer, t: seq<Event>) {
    && |t| == 2 && Deletes(t[1], x.c.guid)
    && t[0].call ==
       if x.c.runResult.stopped then EvacuateStoppedActualLRP(x.key, x.ik)
       else EvacuateCrashedActualLRP(x.key, x.ik, x.c.runResult.failureReason)
  }

  /** The call sequences one pass over `x` may make, over every sequence of replies. */
  predicate PassOver(cfg: Config, x: LRPContainer, t: seq<Event>) {
    match x.c.state
    case Reserved => ClaimedTrace(x, t)
    case Initializing => ClaimedTrace(x, t)
    case Created => ClaimedTrace(x, t)
    case Running => RunningTrace(cfg, x, t)
    case Completed => CompletedTrace(x, t)
    case Invalid => t == []
  }

  /** A container whose tags do not yield both keys is left alone. */
  predicate Pass(cfg: Config, c: Container, t: seq<Event>) {
    match LRPContainerOf(cfg, c)
    case None => t == []
    case Some(x) => PassOver(cfg, x, t)
  }

  class Processor {
    const cfg: Config
    const client: Client

    constructor (cfg: Config, client: Client)
      ensures this.cfg == cfg && this.client == client
    {
      this.cfg := cfg;
      this.client := client;
    }

    method Process(c: Container) returns (ghost t: seq<Event>)
      modifies client
      ensures client.log == old(client.log) + t
      ensures Pass(cfg, c, t)
    {
      t := [];
      var key := ActualLRPKeyFromTags(cfg.models, c.tags);
      if key.Err? {
        return;
      }
      var ik := ActualLRPInstanceKeyFromContainer(cfg, c);
      if ik.Err? {
        return;
      }
      var x := LRPContainer(key.value, ik.value, c);
      match c.state {
        case Reserved => t := EvacuateClaimed(x);
        case Initializing => t := EvacuateClaimed(x);
        case Created => t := EvacuateClaimed(x);
        case Running => t := ProcessRunning(x);
        case Completed => t := ProcessCompleted(x);
        case Invalid =>
      }
    }

    method EvacuateClaimed(x: LRPContainer) returns (ghost t: seq<Event>)
      modifies client
      ensures client.log == old(client.log) + t
      ensures ClaimedTrace(x, t)
    {
      var reply := client.Exchange(EvacuateClaimedActualLRP(x.key, x.ik));
      ghost var d := client.Delete(x.c.guid);
      t := [Event(EvacuateClaimedActualLRP(x.key, x.ik), reply)] + d;
    }

    method ProcessRunning(x: LRPContainer) returns (ghost t: seq<Event>)
      modifies client
      ensures client.log == old(client.log) + t
      ensures RunningTrace(cfg, x, t)
    {
      t := [];
      if !cfg.models.validNetInfo(x.c.netInfo) {
        return;
      }
      var call := EvacuateRunningActualLRP(x.key, x.ik, x.c.netInfo, cfg.evacuationTTL);
      var reply := client.Exchange(call);
      t := [Event(call, reply)];
      if !reply.flag {
        ghost var d := client.Delete(x.c.guid);
        t := t + d;
      }
    }

    method ProcessCompleted(x: LRPContainer) returns (ghost t: seq<Event>)
      modifies client
      ensures client.log == old(client.log) + t
      ensures CompletedTrace(x, t)
    {
      var outcome :=
        if x.c.runResult.stopped then EvacuateStoppedActualLRP(x.key, x.ik)
        else EvacuateCrashedActualLRP(x.key, x.ik, x.c.runResult.failureReason);
      var reply := client.Exchange(outcome);
      ghost var d := client.Delete(x.c.guid);
      t := [Event(outcome, reply)] + d;
    }
  }
}
