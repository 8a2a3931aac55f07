/** The BBS and executor clients. Replies are arbitrary; every exchange is logged. */
module Clients {
  import opened Types

  /** A single successful or failed delete of `guid`. */
  predicate Deletes(e: Event, guid: Guid) { e.call == DeleteContainer(guid) }

  class Client {
    var log: seq<Event>

    constructor ()
      ensures log == []
    {
      log := [];
    }

    method Exchange(call: Call) returns (reply: Reply)
      modifies this
      ensures log == old(log) + [Event(call, reply)]
    {
      reply := *;
      log := log + [Event(call, reply)];
    }

    /** containerDelegate.DeleteContainer */
    method Delete(guid: Guid) returns (ghost t: seq<Event>)
      modifies this
      ensures log == old(log) + t
      ensures |t| == 1 && Deletes(t[0], guid)
    {
      var reply := Exchange(DeleteContainer(guid));
      t := [Event(DeleteContainer(guid), reply)];
    }

    /** containerDelegate.RunContainer: a run the executor refuses is followed by a delete. */
    method Run(guid: Guid) returns (ok: bool, ghost t: seq<Event>)
      modifies this
      ensures log == old(log) + t
      ensures |t| >= 1 && t[0].call == RunContainer(guid) && ok == t[0].reply.Ok()
      ensures ok ==> |t| == 1
      ensures !ok ==> |t| == 2 && Deletes(t[1], guid)
    {
      var reply := Exchange(RunContainer(guid));
      t := [Event(RunContainer(guid), reply)];
      ok := reply.Ok();
      if !ok {
        ghost var d := Delete(guid);
        t := t + d;
      }
    }
  }
}
