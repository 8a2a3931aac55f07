/** auctioncellrep/auction_cell_rep.go: Perform splits work into what was refused and what the
    executor took on. */
module Auction {
  import opened Types
  import opened Decimal
  import opened Conversion
  import opened RootFS

  datatype Resource = Resource(memoryMB: int, diskMB: int, maxPids: int)

  datatype PlacementConstraint = PlacementConstraint(placementTags: seq<string>, volumeDrivers: seq<string>, rootFs: string)

  datatype LRP = LRP(key: LRPKey, placement: PlacementConstraint, resource: Resource)

  datatype Task = Task(guid: Guid, domain: string, placement: PlacementConstraint, resource: Resource)

  datatype Work = Work(lrps: seq<LRP>, tasks: seq<Task>)

  datatype Request = Request(guid: Guid, resource: Resource, rootFSPath: string, tags: map<string, string>)

  /** The fixed part of an AuctionCellRep. */
  datatype Rep = Rep(stacks: StackPathMap, parse: Parser)

  /** AllocateContainers: an error, under which nothing was allocated, or the refused requests. */
  datatype Allocation = AllocationError | Refused(failures: seq<Request>)

  // ---------------------------------------------------------------- translating work

  /** One work item with the request it translates to, if it does. */
  datatype Entry<T> = Entry(item: T, request: Option<Request>)

  function LRPTags(lrp: LRP, instanceGuid: Guid): (tags: map<string, string>) {
    map[DOMAIN_TAG := lrp.key.domain,
        PROCESS_GUID_TAG := lrp.key.processGuid,
        PROCESS_INDEX_TAG := Itoa(lrp.key.index),
        LIFECYCLE_TAG := LRP_LIFECYCLE,
        INSTANCE_GUID_TAG := instanceGuid]
  }

  function TaskTags(task: Task): (tags: map<string, string>) {
    map[LIFECYCLE_TAG := TASK_LIFECYCLE, DOMAIN_TAG := task.domain]
  }

  /** `generated` is what the guid generator returned for this item. */
  function LRPEntry(rep: Rep, lrp: LRP, generated: Option<Guid>): (e: Entry<LRP>) {
    if generated.None? then Entry(lrp, None)
    else
      match PathForRootFS(rep.parse, rep.stacks, lrp.placement.rootFs)
      case Err(_) => Entry(lrp, None)
      case Ok(path) =>
        Entry(lrp, Some(Request(LRPContainerGuid(lrp.key.processGuid, generated.value), lrp.resource, path, LRPTags(lrp, generated.value))))
  }

  function TaskEntry(rep: Rep, task: Task): (e: Entry<Task>) {
    match PathForRootFS(rep.parse, rep.stacks, task.placement.rootFs)
    case Err(_) => Entry(task, None)
    case Ok(path) => Entry(task, Some(Request(task.guid, task.resource, path, TaskTags(task))))
  }

  function LRPPlan(rep: Rep, lrps: seq<LRP>, generated: seq<Option<Guid>>): (plan: seq<Entry<LRP>>)
    requires |generated| == |lrps|
  {
    seq(|lrps|, i requires 0 <= i < |lrps| => LRPEntry(rep, lrps[i], generated[i]))
  }

  function TaskPlan(rep: Rep, tasks: seq<Task>): (plan: seq<Entry<Task>>) {
    seq(|tasks|, i requires 0 <= i < |tasks| => TaskEntry(rep, tasks[i]))
  }

  function Items<T>(plan: seq<Entry<T>>): (items: seq<T>) {
    seq(|plan|, i requires 0 <= i < |plan| => plan[i].item)
  }

  function Requests<T>(plan: seq<Entry<T>>): (requests: seq<Request>) {
    if plan == [] then []
    else
      var last := plan[|plan| - 1];
      Requests(plan[..|plan| - 1]) + if last.request.Some? then [last.request.value] else []
  }

  /** The items behind `Requests`, in step with them. */
  function Translated<T>(plan: seq<Entry<T>>): (items: seq<T>)
    ensures |items| == |Requests(plan)|
  {
    if plan == [] then []
    else
      var last := plan[|plan| - 1];
      Translated(plan[..|plan| - 1]) + if last.request.Some? then [last.item] else []
  }

  function Untranslated<T>(plan: seq<Entry<T>>): (items: seq<T>) {
    if plan == [] then []
    else
      var last := plan[|plan| - 1];
      Untranslated(plan[..|plan| - 1]) + if last.request.None? then [last.item] else []
  }

  /** lrpMap: the latest translated item per request guid. */
  function ByRequest<T>(plan: seq<Entry<T>>): (m: map<Guid, T>) {
    if plan == [] then map[]
    else
      var last := plan[|plan| - 1];
      var m := ByRequest(plan[..|plan| - 1]);
      if last.request.Some? then m[last.request.value.guid := last.item] else m
  }

  /** taskMap: the latest task per guid, translated or not. */
  function ByTaskGuid(tasks: seq<Task>): (m: map<Guid, Task>) {
    if tasks == [] then map[]
    else ByTaskGuid(tasks[..|tasks| - 1])[tasks[|tasks| - 1].guid := tasks[|tasks| - 1]]
  }

  method LRPsToAllocationRequests(rep: Rep, lrps: seq<LRP>, generated: seq<Option<Guid>>)
    returns (requests: seq<Request>, lrpMap: map<Guid, LRP>, untranslated: seq<LRP>)
    requires |generated| == |lrps|
    ensures var plan := LRPPlan(rep, lrps, generated);
            requests == Requests(plan) && lrpMap == ByRequest(plan) && untranslated == Untranslated(plan)
  {
    requests, lrpMap, untranslated := [], map[], [];
    ghost var plan := LRPPlan(rep, lrps, generated);
    for i := 0 to |lrps|
      invariant requests == Requests(plan[..i])
      invariant lrpMap == ByRequest(plan[..i])
      invariant untranslated == Untranslated(plan[..i])
    {
      var lrp := lrps[i];
      assert plan[..i + 1][..i] == plan[..i] && plan[i] == LRPEntry(rep, lrp, generated[i]);
      if generated[i].None? {
        untranslated := untranslated + [lrp];
        continue;
      }
      var tags := LRPTags(lrp, generated[i].value);
      var path := PathForRootFS(rep.parse, rep.stacks, lrp.placement.rootFs);
      if path.Err? {
        untranslated := untranslated + [lrp];
        continue;
      }
      var containerGuid := LRPContainerGuid(lrp.key.processGuid, generated[i].value);
      lrpMap := lrpMap[containerGuid := lrp];
      requests := requests + [Request(containerGuid, lrp.resource, path.value, tags)];
    }
    assert plan[..|lrps|] == plan;
  }

  method TasksToAllocationRequests(rep: Rep, tasks: seq<Task>)
    returns (requests: seq<Request>, taskMap: map<Guid, Task>, untranslated: seq<Task>)
    ensures var plan := TaskPlan(rep, tasks);
            requests == Requests(plan) && taskMap == ByTaskGuid(tasks) && untranslated == Untranslated(plan)
  {
    requests, taskMap, untranslated := [], map[], [];
    ghost var plan := TaskPlan(rep, tasks);
    for i := 0 to |tasks|
      invariant requests == Requests(plan[..i])
      invariant taskMap == ByTaskGuid(tasks[..i])
      invariant untranslated == Untranslated(plan[..i])
    {
      var task := tasks[i];
      assert plan[..i + 1][..i] == plan[..i] && tasks[..i + 1][..i] == tasks[..i];
      taskMap := taskMap[task.guid := task];
      var path := PathForRootFS(rep.parse, rep.stacks, task.placement.rootFs);
      if path.Err? {
        untranslated := untranslated + [task];
        continue;
      }
      requests := requests + [Request(task.guid, task.resource, path.value, TaskTags(task))];
    }
    assert plan[..|tasks|] == plan && tasks[..|tasks|] == tasks;
  }

  // ---------------------------------------------------------------- performing work

  /** The items of the refused requests, looked up by guid. */
  function Recovered<T>(m: map<Guid, T>, failures: seq<Request>): (items: seq<T>) {
    if failures == [] then []
    else
      var g := failures[|failures| - 1].guid;
      Recovered(m, failures[..|failures| - 1]) + if g in m then [m[g]] else []
  }

  /** What Perform hands back for one kind of work. */
  function FailedItems<T>(plan: seq<Entry<T>>, m: map<Guid, T>, reply: Allocation): (failed: seq<T>) {
    if reply.AllocationError? then Items(plan) else Untranslated(plan) + Recovered(m, reply.failures)
  }

  method Recover<T>(m: map<Guid, T>, failures: seq<Request>, failed0: seq<T>) returns (failed: seq<T>)
    ensures failed == failed0 + Recovered(m, failures)
  {
    failed := failed0;
    for i := 0 to |failures|
      invariant failed == failed0 + Recovered(m, failures[..i])
    {
      assert failures[..i + 1][..i] == failures[..i];
      if failures[i].guid in m {
        failed := failed + [m[failures[i].guid]];
      }
    }
    assert failures[..|failures|] == failures;
  }

  /** Everything Perform hands back. The executor is asked only about a kind of work there is some of. */
  function Performed(rep: Rep, evacuating: bool, work: Work, generated: seq<Option<Guid>>, lrpReply: Allocation, taskReply: Allocation): (failed: Work)
    requires |generated| == |work.lrps|
  {
    if evacuating then work
    else
      var plan := LRPPlan(rep, work.lrps, generated);
      Work(
        if work.lrps == [] then [] else FailedItems(plan, ByRequest(plan), lrpReply),
        if work.tasks == [] then [] else FailedItems(TaskPlan(rep, work.tasks), ByTaskGuid(work.tasks), taskReply))
  }

  /** `evacuating` is the flag at the check; `lrpReply` and `taskReply` are what the executor
      answers, if it is asked. */
  method Perform(rep: Rep, evacuating: bool, work: Work, generated: seq<Option<Guid>>, lrpReply: Allocation, taskReply: Allocation)
    returns (failed: Work)
    requires |generated| == |work.lrps|
    ensures failed == Performed(rep, evacuating, work, generated, lrpReply, taskReply)
  {
    failed := Work([], []);
    if evacuating {
      return work;
    }
    if |work.lrps| > 0 {
      var requests, lrpMap, untranslated := LRPsToAllocationRequests(rep, work.lrps, generated);
      var lrps: seq<LRP> := [];
      if |untranslated| > 0 {
        lrps := untranslated;
      }
      if lrpReply.AllocationError? {
        lrps := work.lrps;
        assert work.lrps == Items(LRPPlan(rep, work.lrps, generated));
      } else {
        lrps := Recover(lrpMap, lrpReply.failures, lrps);
      }
      failed := failed.(lrps := lrps);
    }
    if |work.tasks| > 0 {
      var requests, taskMap, untranslated := TasksToAllocationRequests(rep, work.tasks);
      var tasks: seq<Task> := [];
      if |untranslated| > 0 {
        tasks := untranslated;
      }
      if taskReply.AllocationError? {
        tasks := work.tasks;
        assert work.tasks == Items(TaskPlan(rep, work.tasks));
      } else {
        tasks := Recover(taskMap, taskReply.failures, tasks);
      }
      failed := failed.(tasks := tasks);
    }
  }
}
