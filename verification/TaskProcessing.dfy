/** generator/internal/task_processor.go */
module TaskProcessing {
  import opened Types
  import opened Clients

  /** StartTask was refused or changed nothing: the container is deleted only if the BBS says the
      task is gone or past starting. */
  predicate NotStartedTrace(cfg: Config, g: Guid, t: seq<Event>) {
    && |t| >= 1 && t[0].call == StartTask(g, cfg.cellID)
    && match t[0].reply.err
       case None => !t[0].reply.flag && |t| == 1
       case Some(e) =>
         if e == InvalidStateTransition || e == ResourceNotFound
         then |t| == 2 && Deletes(t[1], g)
         else |t| == 1
  }

  /** A pass over a container that has not completed. The run request carries the guid of the
      task the BBS returned. */
  predicate ActiveTrace(cfg: Config, g: Guid, t: seq<Event>) {
    || NotStartedTrace(cfg, g, t)
    || ( && |t| >= 2 && t[0].call == StartTask(g, cfg.cellID) && t[0].reply.Ok() && t[0].reply.flag
         && t[1].call == TaskByGuid(g)
         && match t[1].reply.runnable
            case None => |t| == 2
            case Some(task) =>
              if !task.buildable then |t| == 2
              else
                && |t| >= 3 && t[2].call == RunContainer(task.guid)
                && if t[2].reply.Ok() then |t| == 3
                   else |t| == 5 && Deletes(t[3], task.guid) && t[4].call == FailTask(g, FailedToRunContainer))
  }

  predicate Fetches(c: Container) {
    !c.runResult.failed && c.Tag(RESULT_FILE_TAG) != ""
  }

  /** Everything completeTask does once it has its result. */
  predicate CompleteTrace(cfg: Config, c: Container, result: string, t: seq<Event>) {
    && |t| >= 1
    && t[0].call == CompleteTask(c.guid, cfg.cellID, c.runResult.failed, c.runResult.failureReason, result)
    && if t[0].reply.err == Some(InvalidStateTransition)
       then |t| == 2 && t[1].call == FailTask(c.guid, InvalidTransition)
       else |t| == 1
  }

  /** completeTask */
  predicate OutcomeTrace(cfg: Config, c: Container, t: seq<Event>) {
    if !Fetches(c) then CompleteTrace(cfg, c, "", t)
    else
      && |t| >= 1 && t[0].call == FetchResultFile(c.guid, c.Tag(RESULT_FILE_TAG))
      && if t[0].reply.Ok() then CompleteTrace(cfg, c, t[0].reply.text, t[1..])
         else |t| == 2 && t[1].call == FailTask(c.guid, FailedToFetchResult)
  }

  predicate CompletedTrace(cfg: Config, c: Container, t: seq<Event>) {
    && |t| >= 1 && Deletes(t[|t| - 1], c.guid)
    && OutcomeTrace(cfg, c, t[..|t| - 1])
  }

  predicate Pass(cfg: Config, c: Container, t: seq<Event>) {
    match c.state
    case Invalid => t == []
    case Completed => CompletedTrace(cfg, c, t)
    case _ => ActiveTrace(cfg, c.guid, t)
  }

  class Processor {
    const cfg: Config
    const client: Client

    constructor (cfg: Config, client: Client)
      ensures this.cfg == cfg && this.client == client
    {
      this.cfg := cfg;
      this.client := client;
    }

    method Process(c: Container) returns (ghost t: seq<Event>)
      modifies client
      ensures client.log == old(client.log) + t
      ensures Pass(cfg, c, t)
    {
      match c.state {
        case Reserved => t := ProcessActive(c.guid);
        case Initializing => t := ProcessActive(c.guid);
        case Created => t := ProcessActive(c.guid);
        case Running => t := ProcessActive(c.guid);
        case Completed =>
          var outcome := Complete(c);
          ghost var d := client.Delete(c.guid);
          t := outcome + d;
          assert t[..|t| - 1] == outcome;
        case Invalid => t := [];
      }
    }

    method Start(g: Guid) returns (changed: bool, ghost t: seq<Event>)
      modifies client
      ensures client.log == old(client.log) + t
      ensures changed ==> |t| == 1 && t[0].call == StartTask(g, cfg.cellID) && t[0].reply.Ok() && t[0].reply.flag
      ensures !changed ==> NotStartedTrace(cfg, g, t)
    {
      var reply := client.Exchange(StartTask(g, cfg.cellID));
      t := [Event(StartTask(g, cfg.cellID), reply)];
      if reply.err.Some? {
        if reply.err.value == InvalidStateTransition || reply.err.value == ResourceNotFound {
          ghost var d := client.Delete(g);
          t := t + d;
        }
        return false, t;
      }
      return reply.flag, t;
    }

    method ProcessActive(g: Guid) returns (ghost t: seq<Event>)
      modifies client
      ensures client.log == old(client.log) + t
      ensures ActiveTrace(cfg, g, t)
    {
      var ok, start := Start(g);
      t := start;
      if !ok {
        return;
      }
      var task := client.Exchange(TaskByGuid(g));
      t := t + [Event(TaskByGuid(g), task)];
      if task.runnable.None? || !task.runnable.value.buildable {
        return;
      }
      var ran, run := client.Run(task.runnable.value.guid);
      t := t + run;
      if !ran {
        var reply := client.Exchange(FailTask(g, FailedToRunContainer));
        t := t + [Event(FailTask(g, FailedToRunContainer), reply)];
      }
    }

    method Complete(c: Container) returns (ghost t: seq<Event>)
      modifies client
      ensures client.log == old(client.log) + t
      ensures OutcomeTrace(cfg, c, t)
    {
      var result := "";
      t := [];
      var file := c.Tag(RESULT_FILE_TAG);
      if !c.runResult.failed && file != "" {
        var fetched := client.Exchange(FetchResultFile(c.guid, file));
        t := [Event(FetchResultFile(c.guid, file), fetched)];
        if !fetched.Ok() {
          var reply := client.Exchange(FailTask(c.guid, FailedToFetchResult));
          t := t + [Event(FailTask(c.guid, FailedToFetchResult), reply)];
          return;
        }
        result := fetched.text;
      }
      var complete := CompleteTask(c.guid, cfg.cellID, c.runResult.failed, c.runResult.failureReason, result);
      var reply := client.Exchange(complete);
      ghost var tail := [Event(complete, reply)];
      if reply.err == Some(InvalidStateTransition) {
        var failed := client.Exchange(FailTask(c.guid, InvalidTransition));
        tail := tail + [Event(FailTask(c.guid, InvalidTransition), failed)];
      }
      ghost var head := t;
      t := head + tail;
      assert t[|head|..] == tail;
    }
  }
}
