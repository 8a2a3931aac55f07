/** generator/internal/ordinary_lrp_processor.go */
module OrdinaryLRP {
  import opened Types
  import opened Conversion
  import opened Clients

  predicate Claim(e: Event, x: LRPContainer) {
    e.call == ClaimActualLRP(x.key.processGuid, x.key.index, x.ik)
  }

  predicate Removal(e: Event, x: LRPContainer) {
    e.call == RemoveActualLRP(x.key.processGuid, x.key.index, x.ik)
  }

  /** A claim that was not granted: the container is deleted only if the BBS says the record
      cannot be claimed. */
  predicate RefusedTrace(x: LRPContainer, t: seq<Event>) {
    && |t| >= 1 && Claim(t[0], x) && t[0].reply.err.Some?
    && if t[0].reply.err.value == ActualLRPCannotBeClaimed
       then |t| == 2 && Deletes(t[1], x.c.guid)
       else |t| == 1
  }

  predicate ReservedTrace(x: LRPContainer, t: seq<Event>) {
    || RefusedTrace(x, t)
    || ( && |t| >= 2 && Claim(t[0], x) && t[0].reply.Ok()
         && t[1].call == DesiredLRPByProcessGuid(x.key.processGuid)
         && match t[1].reply.runnable
            case None => |t| == 2
            case Some(desired) =>
              if !desired.buildable then |t| == 2
              else
                && |t| >= 3 && t[2].call == RunContainer(x.c.guid)
                && if t[2].reply.Ok() then |t| == 3
                   else |t| == 5 && Deletes(t[3], x.c.guid) && Removal(t[4], x))
  }

  predicate ClaimTrace(x: LRPContainer, t: seq<Event>) {
    RefusedTrace(x, t) || (|t| == 1 && Claim(t[0], x) && t[0].reply.Ok())
  }

  predicate RunningTrace(models: Models, x: LRPContainer, t: seq<Event>) {
    if !models.validNetInfo(x.c.netInfo) then t == []
    else
      && |t| >= 1 && t[0].call == StartActualLRP(x.key, x.ik, x.c.netInfo)
      && if t[0].reply.err == Some(ActualLRPCannotBeStarted)
         then |t| == 2 && t[1].call == StopContainer(x.c.guid)
         else |t| == 1
  }

  predicate CompletedTrace(x: LRPContainer, t: seq<Event>) {
    && |t| == 2 && Deletes(t[1], x.c.guid)
    && if x.c.runResult.stopped then Removal(t[0], x)
       else t[0].call == CrashActualLRP(x.key, x.ik, x.c.runResult.failureReason)
  }

  /** The call sequences one pass over `x` may make, over every sequence of replies. */
  predicate PassOver(cfg: Config, x: LRPContainer, t: seq<Event>) {
    match x.c.state
    case Reserved => ReservedTrace(x, t)
    case Initializing => ClaimTrace(x, t)
    case Created => ClaimTrace(x, t)
    case Running => RunningTrace(cfg.models, x, t)
    case Completed => CompletedTrace(x, t)
    case Invalid => t == []
  }

  /** A container whose tags do not yield both keys is left alone. */
  predicate Pass(cfg: Config, c: Container, t: seq<Event>) {
    match LRPContainerOf(cfg, c)
    case None => t == []
    case Some(x) => PassOver(cfg, x, t)
  }

  class Processor {
    const cfg: Config
    const client: Client

    constructor (cfg: Config, client: Client)
      ensures this.cfg == cfg && this.client == client
    {
      this.cfg := cfg;
      this.client := client;
    }

    method Process(c: Container) returns (ghost t: seq<Event>)
      modifies client
      ensures client.log == old(client.log) + t
      ensures Pass(cfg, c, t)
    {
      t := [];
      var key := ActualLRPKeyFromTags(cfg.models, c.tags);
      if key.Err? {
        return;
      }
      var ik := ActualLRPInstanceKeyFromContainer(cfg, c);
      if ik.Err? {
        return;
      }
      var x := LRPContainer(key.value, ik.value, c);
      match c.state {
        case Reserved => t := ProcessReserved(x);
        case Initializing => var _, s := ClaimContainer(x); t := s;
        case Created => var _, s := ClaimContainer(x); t := s;
        case Running => t := ProcessRunning(x);
        case Completed => t := ProcessCompleted(x);
        case Invalid =>
      }
    }

    method ClaimContainer(x: LRPContainer) returns (ok: bool, ghost t: seq<Event>)
      modifies client
      ensures client.log == old(client.log) + t
      ensures ok ==> |t| == 1 && Claim(t[0], x) && t[0].reply.Ok()
      ensures !ok ==> RefusedTrace(x, t)
    {
      var call := ClaimActualLRP(x.key.processGuid, x.key.index, x.ik);
      var reply := client.Exchange(call);
      t := [Event(call, reply)];
      if reply.err.Some? {
        if reply.err.value == ActualLRPCannotBeClaimed {
          ghost var d := client.Delete(x.c.guid);
          t := t + d;
        }
        return false, t;
      }
      return true, t;
    }

    method ProcessReserved(x: LRPContainer) returns (ghost t: seq<Event>)
      modifies client
      ensures client.log == old(client.log) + t
      ensures ReservedTrace(x, t)
    {
      var ok, claim := ClaimContainer(x);
      t := claim;
      if !ok {
        return;
      }
      var desired := client.Exchange(DesiredLRPByProcessGuid(x.key.processGuid));
      t := t + [Event(DesiredLRPByProcessGuid(x.key.processGuid), desired)];
      if desired.runnable.None? || !desired.runnable.value.buildable {
        return;
      }
      var ran, run := client.Run(x.c.guid);
      t := t + run;
      if !ran {
        var removal := RemoveActualLRP(x.key.processGuid, x.key.index, x.ik);
        var reply := client.Exchange(removal);
        t := t + [Event(removal, reply)];
      }
    }

    method ProcessRunning(x: LRPContainer) returns (ghost t: seq<Event>)
      modifies client
      ensures client.log == old(client.log) + t
      ensures RunningTrace(cfg.models, x, t)
    {
      t := [];
      if !cfg.models.validNetInfo(x.c.netInfo) {
        return;
      }
      var start := StartActualLRP(x.key, x.ik, x.c.netInfo);
      var reply := client.Exchange(start);
      t := [Event(start, reply)];
      if reply.err == Some(ActualLRPCannotBeStarted) {
        var stopped := client.Exchange(StopContainer(x.c.guid));
        t := t + [Event(StopContainer(x.c.guid), stopped)];
      }
    }

    method ProcessCompleted(x: LRPContainer) returns (ghost t: seq<Event>)
      modifies client
      ensures client.log == old(client.log) + t
      ensures CompletedTrace(x, t)
    {
      var outcome :=
        if x.c.runResult.stopped then RemoveActualLRP(x.key.processGuid, x.key.index, x.ik)
        else CrashActualLRP(x.key, x.ik, x.c.runResult.failureReason);
      var reply := client.Exchange(outcome);
      ghost var d := client.Delete(x.c.guid);
      t := [Event(outcome, reply)] + d;
    }
  }
}
