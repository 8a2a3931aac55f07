/** conversion_helpers.go: the keys a container's tags stand for. */
module Conversion {
  import opened Types
  import opened Decimal

  datatype KeyError = MissingTags | InvalidProcessIndex | InvalidKey

  /** The container guid of an instance is its instance guid, whatever the process. */
  function LRPContainerGuid(processGuid: string, instanceGuid: Guid): (guid: Guid) {
    instanceGuid
  }

  function Lookup(tags: map<string, string>, name: string): (value: string) {
    if name in tags then tags[name] else ""
  }

  function ActualLRPKeyFromTags(models: Models, tags: Option<map<string, string>>): (r: Result<LRPKey, KeyError>) {
    match tags
    case None => Err(MissingTags)
    case Some(m) =>
      match Atoi(Lookup(m, PROCESS_INDEX_TAG))
      case None => Err(InvalidProcessIndex)
      case Some(index) =>
        var key := LRPKey(Lookup(m, PROCESS_GUID_TAG), Wrap32(index), Lookup(m, DOMAIN_TAG));
        if models.validKey(key) then Ok(key) else Err(InvalidKey)
  }

  /** No tags and an index tag that is not a decimal integer are errors of their own; otherwise the
      key says what the tags say, and is returned exactly if it is valid. */
  lemma KeyFromTags(models: Models, tags: Option<map<string, string>>)
    ensures ActualLRPKeyFromTags(models, tags) == Err(MissingTags) <==> tags.None?
    ensures tags.Some? ==>
              var index := Lookup(tags.value, PROCESS_INDEX_TAG);
              && (Unsigned(index) == "" || !AllDigits(Unsigned(index)) ==> ActualLRPKeyFromTags(models, tags) == Err(InvalidProcessIndex))
              && (ActualLRPKeyFromTags(models, tags) == Err(InvalidProcessIndex) <==> Atoi(index).None?)
    ensures forall key :: ActualLRPKeyFromTags(models, tags) == Ok(key) <==>
              && tags.Some? && Atoi(Lookup(tags.value, PROCESS_INDEX_TAG)).Some?
              && key.processGuid == Lookup(tags.value, PROCESS_GUID_TAG) && key.domain == Lookup(tags.value, DOMAIN_TAG)
              && key.index == Wrap32(Atoi(Lookup(tags.value, PROCESS_INDEX_TAG)).value)
              && models.validKey(key)
  {
    if tags.Some? {
      AtoiIff(Lookup(tags.value, PROCESS_INDEX_TAG));
    }
  }

  function ActualLRPInstanceKeyFromContainer(cfg: Config, c: Container): (r: Result<InstanceKey, KeyError>) {
    if c.tags.None? then Err(MissingTags)
    else
      var ik := InstanceKey(c.Tag(INSTANCE_GUID_TAG), cfg.cellID);
      if cfg.models.validInstanceKey(ik) then Ok(ik) else Err(InvalidKey)
  }

  /** A container whose tags yield both keys: what the LRP processors work on. */
  datatype LRPContainer = LRPContainer(key: LRPKey, ik: InstanceKey, c: Container)

  /** None exactly when a processor gives the container up before making any call. */
  function LRPContainerOf(cfg: Config, c: Container): (x: Option<LRPContainer>) {
    match ActualLRPKeyFromTags(cfg.models, c.tags)
    case Err(_) => None
    case Ok(key) =>
      match ActualLRPInstanceKeyFromContainer(cfg, c)
      case Err(_) => None
      case Ok(ik) => Some(LRPContainer(key, ik, c))
  }
}
