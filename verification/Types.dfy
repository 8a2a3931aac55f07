/** Values shared by the whole model: containers as the executor reports them, the keys under
    which the BBS files its records, and the calls the Rep makes to both. */
module Types {

  datatype Option<+T> = None | Some(value: T)

  datatype Result<+T, +E> = Ok(value: T) | Err(error: E)

  type Guid = string

  /** Which desired instance a record is about: process, index and domain. */
  datatype LRPKey = LRPKey(processGuid: string, index: int, domain: string)

  /** Which container on which cell a record is about. */
  datatype InstanceKey = InstanceKey(instanceGuid: Guid, cellId: string)

  /** `Invalid` stands for every state string the processors have no case for. */
  datatype State = Invalid | Reserved | Initializing | Created | Running | Completed

  datatype RunResult = RunResult(failed: bool, failureReason: string, stopped: bool)

  datatype NetInfo = NetInfo(externalIP: string, internalIP: string, ports: seq<(int, int)>)

  /** `tags` is None for Go's nil map. */
  datatype Container = Container(
    guid: Guid,
    state: State,
    tags: Option<map<string, string>>,
    runResult: RunResult,
    netInfo: NetInfo,
    memoryMB: int,
    diskMB: int)
  {
    /** Reading a tag: a missing key, or a nil map, reads as the empty string. */
    function Tag(name: string): (value: string) {
      if tags.Some? && name in tags.value then tags.value[name] else ""
    }
  }

  const LIFECYCLE_TAG := "lifecycle"
  const RESULT_FILE_TAG := "result-file"
  const DOMAIN_TAG := "domain"
  const TASK_LIFECYCLE := "task"
  const LRP_LIFECYCLE := "lrp"
  const PROCESS_GUID_TAG := "process-guid"
  const INSTANCE_GUID_TAG := "instance-guid"
  const PROCESS_INDEX_TAG := "process-index"

  /** The validations the bbs models package performs; their bodies are not in this repository,
      so every statement holds for whatever they accept. */
  datatype Models = Models(
    validKey: LRPKey -> bool,
    validInstanceKey: InstanceKey -> bool,
    validNetInfo: NetInfo -> bool)

  datatype Config = Config(cellID: string, evacuationTTL: nat, models: Models)

  datatype BbsError =
    | ActualLRPCannotBeClaimed
    | ActualLRPCannotBeStarted
    | InvalidStateTransition
    | ResourceNotFound
    | OtherError

  /** A desired LRP or a task as the BBS returns it, reduced to the guid its run request will
      carry and whether building that run request succeeds. */
  datatype Runnable = Runnable(guid: Guid, buildable: bool)

  /** The reasons the Rep gives when it fails a task. */
  datatype FailureReason = MissingContainer | FailedToRunContainer | InvalidTransition | FailedToFetchResult

  datatype Call =
    | ClaimActualLRP(processGuid: string, index: int, ik: InstanceKey)
    | StartActualLRP(key: LRPKey, ik: InstanceKey, netInfo: NetInfo)
    | CrashActualLRP(key: LRPKey, ik: InstanceKey, reason: string)
    | RemoveActualLRP(processGuid: string, index: int, ik: InstanceKey)
    | RemoveEvacuatingActualLRP(key: LRPKey, ik: InstanceKey)
    | EvacuateClaimedActualLRP(key: LRPKey, ik: InstanceKey)
    | EvacuateRunningActualLRP(key: LRPKey, ik: InstanceKey, netInfo: NetInfo, ttl: nat)
    | EvacuateStoppedActualLRP(key: LRPKey, ik: InstanceKey)
    | EvacuateCrashedActualLRP(key: LRPKey, ik: InstanceKey, reason: string)
    | DesiredLRPByProcessGuid(processGuid: string)
    | StartTask(guid: Guid, cellID: string)
    | TaskByGuid(guid: Guid)
    | CompleteTask(guid: Guid, cellID: string, failed: bool, reason: string, result: string)
    | FailTask(guid: Guid, why: FailureReason)
    | AskEvacuating
    | GetContainer(guid: Guid)
    | RunContainer(guid: Guid)
    | StopContainer(guid: Guid)
    | DeleteContainer(guid: Guid)
    | FetchResultFile(guid: Guid, file: string)

  /** What comes back. `flag` is StartTask's `changed`, EvacuateRunningActualLRP's
      `keepContainer` and AskEvacuating's answer; the other fields answer the call they are named for. */
  datatype Reply = Reply(
    err: Option<BbsError>,
    flag: bool,
    container: Option<Container>,
    runnable: Option<Runnable>,
    text: string)
  {
    predicate Ok() { err.None? }
  }

  datatype Event = Event(call: Call, reply: Reply)
}
