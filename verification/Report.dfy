/** auctioncellrep/auction_cell_rep.go: State reads the executor's containers back into work, and
    what Perform reserved is what State reports. */
module Report {
  import opened Types
  import opened Decimal
  import opened Conversion
  import opened RootFS
  import opened Auction
  import opened Conservation

  const NO_PLACEMENT := PlacementConstraint([], [], "")

  predicate IsStarting(c: Container) {
    c.state == Reserved || c.state == Initializing || c.state == Created
  }

  function ResourceOf(c: Container): (r: Resource) {
    Resource(Wrap32(c.memoryMB), Wrap32(c.diskMB), 0)
  }

  /** The LRP a container is reported as; None for other lifecycles and unreadable keys. */
  function LRPOf(models: Models, c: Container): (lrp: Option<LRP>) {
    if c.Tag(LIFECYCLE_TAG) != LRP_LIFECYCLE then None
    else
      match ActualLRPKeyFromTags(models, c.tags)
      case Err(_) => None
      case Ok(key) => Some(LRP(key, NO_PLACEMENT, ResourceOf(c)))
  }

  function TaskOf(c: Container): (task: Option<Task>) {
    if c.Tag(LIFECYCLE_TAG) != TASK_LIFECYCLE then None
    else Some(Task(c.guid, c.Tag(DOMAIN_TAG), NO_PLACEMENT, ResourceOf(c)))
  }

  function One<T>(x: Option<T>): (s: seq<T>) { if x.Some? then [x.value] else [] }

  function LRPs(models: Models, cs: seq<Container>): (lrps: seq<LRP>) {
    if cs == [] then [] else LRPs(models, cs[..|cs| - 1]) + One(LRPOf(models, cs[|cs| - 1]))
  }

  function Tasks(cs: seq<Container>): (tasks: seq<Task>) {
    if cs == [] then [] else Tasks(cs[..|cs| - 1]) + One(TaskOf(cs[|cs| - 1]))
  }

  function Starting(cs: seq<Container>): (n: nat) {
    if cs == [] then 0 else Starting(cs[..|cs| - 1]) + if IsStarting(cs[|cs| - 1]) then 1 else 0
  }

  datatype Amounts = Amounts(memoryMB: int, diskMB: int, containers: int)

  function Converted(a: Amounts): (r: Amounts) { Amounts(Wrap32(a.memoryMB), Wrap32(a.diskMB), a.containers) }

  /** What an AuctionCellRep was set up with. */
  datatype Setup = Setup(providers: Providers, zone: string, placementTags: seq<string>, optionalPlacementTags: seq<string>)

  datatype CellReport = CellReport(
    setup: Setup,
    available: Amounts,
    total: Amounts,
    lrps: seq<LRP>,
    tasks: seq<Task>,
    starting: nat,
    evacuating: bool,
    volumeDrivers: seq<string>)

  // ---------------------------------------------------------------- the report, container by container

  /** In whatever state it is, `c` stands for `lrp`: its lifecycle is "lrp", and its tags and amounts
      spell the key, the memory and the disk. */
  predicate SpellsLRP(models: Models, c: Container, lrp: LRP) {
    && c.tags.Some? && c.Tag(LIFECYCLE_TAG) == "lrp"
    && Atoi(c.Tag(PROCESS_INDEX_TAG)).Some?
    && lrp.key == LRPKey(c.Tag(PROCESS_GUID_TAG), Wrap32(Atoi(c.Tag(PROCESS_INDEX_TAG)).value), c.Tag(DOMAIN_TAG))
    && models.validKey(lrp.key)
    && lrp.resource == Resource(Wrap32(c.memoryMB), Wrap32(c.diskMB), 0)
    && lrp.placement == PlacementConstraint([], [], "")
  }

  predicate SpellsTask(c: Container, task: Task) {
    && c.tags.Some? && c.Tag(LIFECYCLE_TAG) == "task"
    && task.guid == c.guid && task.domain == c.Tag(DOMAIN_TAG)
    && task.resource == Resource(Wrap32(c.memoryMB), Wrap32(c.diskMB), 0)
    && task.placement == PlacementConstraint([], [], "")
  }

  /** The positions of `cs` at which `p` holds. */
  function Where<C>(cs: seq<C>, p: C -> bool): (places: set<nat>) {
    set i: nat | i < |cs| && p(cs[i])
  }

  function ForLRP(models: Models, lrp: LRP): (p: Container -> bool) { c => SpellsLRP(models, c, lrp) }

  function ForTask(task: Task): (p: Container -> bool) { c => SpellsTask(c, task) }

  function NotPastCreated(): (p: Container -> bool) {
    (c: Container) => c.state in {Types.State.Reserved, Types.State.Initializing, Types.State.Created}
  }

  /** A report of these containers: each LRP and each task as often as a container stands for it, and
      starting as many as have not got past Created. */
  ghost predicate Reports(models: Models, cs: seq<Container>, lrps: seq<LRP>, tasks: seq<Task>, starting: nat) {
    && (forall lrp :: multiset(lrps)[lrp] == |Where(cs, ForLRP(models, lrp))|)
    && (forall task :: multiset(tasks)[task] == |Where(cs, ForTask(task))|)
    && starting == |Where(cs, NotPastCreated())|
  }

  lemma OneAt<T>(x: Option<T>, y: T)
    ensures multiset(One(x))[y] == if x == Some(y) then 1 else 0
  {
  }

  lemma LRPOfIff(models: Models, c: Container, lrp: LRP)
    ensures LRPOf(models, c) == Some(lrp) <==> SpellsLRP(models, c, lrp)
  {
    assert LRP_LIFECYCLE == "lrp";
    KeyFromTags(models, c.tags);
    if c.tags.Some? {
      assert c.Tag(PROCESS_INDEX_TAG) == Lookup(c.tags.value, PROCESS_INDEX_TAG);
    } else {
      assert |c.Tag(LIFECYCLE_TAG)| == 0;
    }
  }

  lemma TaskOfIff(c: Container, task: Task)
    ensures TaskOf(c) == Some(task) <==> SpellsTask(c, task)
  {
    assert TASK_LIFECYCLE == "task";
    if c.tags.None? {
      assert |c.Tag(LIFECYCLE_TAG)| == 0;
    }
  }

  lemma {:induction false} LRPMultiplicity(models: Models, cs: seq<Container>, lrp: LRP)
    ensures multiset(LRPs(models, cs))[lrp] == |Where(cs, ForLRP(models, lrp))|
  {
    if cs == [] {
      assert Where(cs, ForLRP(models, lrp)) == {};
    } else {
      var n := |cs| - 1;
      LRPMultiplicity(models, cs[..n], lrp);
      LRPOfIff(models, cs[n], lrp);
      OneMoreLRP(models, cs, lrp);
      OneMoreWhere(cs, ForLRP(models, lrp));
    }
  }

  lemma OneMoreLRP(models: Models, cs: seq<Container>, lrp: LRP)
    requires cs != []
    ensures var n := |cs| - 1;
            multiset(LRPs(models, cs))[lrp] == multiset(LRPs(models, cs[..n]))[lrp] + if LRPOf(models, cs[n]) == Some(lrp) then 1 else 0
  {
    var n := |cs| - 1;
    Appended(LRPs(models, cs[..n]), One(LRPOf(models, cs[n])));
    OneAt(LRPOf(models, cs[n]), lrp);
  }

  lemma OneMoreWhere<C>(cs: seq<C>, p: C -> bool)
    requires cs != []
    ensures var n := |cs| - 1; |Where(cs, p)| == |Where(cs[..n], p)| + if p(cs[n]) then 1 else 0
  {
    var n := |cs| - 1;
    assert Where(cs, p) == Where(cs[..n], p) + if p(cs[n]) then {n} else {};
  }

  lemma {:induction false} TaskMultiplicity(cs: seq<Container>, task: Task)
    ensures multiset(Tasks(cs))[task] == |Where(cs, ForTask(task))|
  {
    if cs == [] {
      assert Where(cs, ForTask(task)) == {};
    } else {
      var n := |cs| - 1;
      TaskMultiplicity(cs[..n], task);
      TaskOfIff(cs[n], task);
      OneMoreTask(cs, task);
      OneMoreWhere(cs, ForTask(task));
    }
  }

  lemma OneMoreTask(cs: seq<Container>, task: Task)
    requires cs != []
    ensures var n := |cs| - 1;
            multiset(Tasks(cs))[task] == multiset(Tasks(cs[..n]))[task] + if TaskOf(cs[n]) == Some(task) then 1 else 0
  {
    var n := |cs| - 1;
    Appended(Tasks(cs[..n]), One(TaskOf(cs[n])));
    OneAt(TaskOf(cs[n]), task);
  }

  lemma {:induction false} StartingCount(cs: seq<Container>)
    ensures Starting(cs) == |Where(cs, NotPastCreated())|
  {
    if cs == [] {
      assert Where(cs, NotPastCreated()) == {};
    } else {
      var n := |cs| - 1;
      StartingCount(cs[..n]);
      OneMoreWhere(cs, NotPastCreated());
    }
  }

  lemma ReportsAll(models: Models, cs: seq<Container>)
    ensures Reports(models, cs, LRPs(models, cs), Tasks(cs), Starting(cs))
  {
    forall lrp ensures multiset(LRPs(models, cs))[lrp] == |Where(cs, ForLRP(models, lrp))| { LRPMultiplicity(models, cs, lrp); }
    forall task ensures multiset(Tasks(cs))[task] == |Where(cs, ForTask(task))| { TaskMultiplicity(cs, task); }
    StartingCount(cs);
  }

  lemma Appended<T>(a: seq<T>, b: seq<T>)
    ensures multiset(a + b) == multiset(a) + multiset(b)
  {
  }

  /** A container that moves on, its guid, tags and amounts kept, changes the report only in how many
      are starting; the LRPs and tasks stay the same, in the same order. */
  lemma {:induction false} MovingOnKeepsReport(models: Models, cs: seq<Container>, i: nat, c: Container)
    requires i < |cs| && c.guid == cs[i].guid && c.tags == cs[i].tags && c.memoryMB == cs[i].memoryMB && c.diskMB == cs[i].diskMB
    ensures LRPs(models, cs[i := c]) == LRPs(models, cs) && Tasks(cs[i := c]) == Tasks(cs)
    ensures var early := {Types.State.Reserved, Types.State.Initializing, Types.State.Created};
            Starting(cs[i := c]) - (if c.state in early then 1 else 0) == Starting(cs) - (if cs[i].state in early then 1 else 0)
  {
    var n := |cs| - 1;
    var moved := cs[i := c];
    if i == n {
      assert moved[..n] == cs[..n];
      SameTags(models, cs[i], c);
    } else {
      assert moved[..n] == cs[..n][i := c];
      MovingOnKeepsReport(models, cs[..n], i, c);
    }
  }

  lemma SameTags(models: Models, c: Container, d: Container)
    requires c.guid == d.guid && c.tags == d.tags && c.memoryMB == d.memoryMB && c.diskMB == d.diskMB
    ensures LRPOf(models, c) == LRPOf(models, d) && TaskOf(c) == TaskOf(d)
  {
    assert c.Tag(LIFECYCLE_TAG) == d.Tag(LIFECYCLE_TAG) && c.Tag(DOMAIN_TAG) == d.Tag(DOMAIN_TAG);
  }

  /** An amount as int32, itself wherever it fits. */
  predicate Narrowed(a: Amounts, r: Amounts) {
    && (IsInt32(a.memoryMB) ==> r.memoryMB == a.memoryMB)
    && (IsInt32(a.diskMB) ==> r.diskMB == a.diskMB)
    && IsInt32(r.memoryMB) && (r.memoryMB - a.memoryMB) % 0x1_0000_0000 == 0
    && IsInt32(r.diskMB) && (r.diskMB - a.diskMB) % 0x1_0000_0000 == 0
    && r.containers == a.containers
  }

  /** The executor's four listings may each fail; the first failure, in the order they are asked
      for, is the reply. `evacuating` and `health` are what the reporter and the executor answer. */
  method State(setup: Setup, models: Models, containers: Result<seq<Container>, string>, total: Result<Amounts, string>,
               remaining: Result<Amounts, string>, volumeDrivers: Result<seq<string>, string>, evacuating: bool, health: bool)
    returns (r: Result<CellReport, string>, healthy: bool)
    ensures containers.Err? ==> r == Err(containers.error)
    ensures containers.Ok? && total.Err? ==> r == Err(total.error)
    ensures containers.Ok? && total.Ok? && remaining.Err? ==> r == Err(remaining.error)
    ensures containers.Ok? && total.Ok? && remaining.Ok? && volumeDrivers.Err? ==> r == Err(volumeDrivers.error)
    ensures containers.Ok? && total.Ok? && remaining.Ok? && volumeDrivers.Ok? ==>
              r == Ok(CellReport(setup, Converted(remaining.value), Converted(total.value),
                                 LRPs(models, containers.value), Tasks(containers.value), Starting(containers.value),
                                 evacuating, volumeDrivers.value))
    ensures r.Ok? ==>
              && Reports(models, containers.value, r.value.lrps, r.value.tasks, r.value.starting)
              && Narrowed(remaining.value, r.value.available) && Narrowed(total.value, r.value.total)
    ensures healthy <==> r.Ok? && health
  {
    if containers.Err? { return Err(containers.error), false; }
    if total.Err? { return Err(total.error), false; }
    if remaining.Err? { return Err(remaining.error), false; }
    if volumeDrivers.Err? { return Err(volumeDrivers.error), false; }
    var lrps, tasks, starting := Walk(models, containers.value);
    ReportsAll(models, containers.value);
    r := Ok(CellReport(setup, Converted(remaining.value), Converted(total.value), lrps, tasks, starting, evacuating, volumeDrivers.value));
    healthy := health;
  }

  /** State's one loop over the containers. */
  method Walk(models: Models, cs: seq<Container>) returns (lrps: seq<LRP>, tasks: seq<Task>, starting: nat)
    ensures lrps == LRPs(models, cs) && tasks == Tasks(cs) && starting == Starting(cs)
  {
    lrps, tasks, starting := [], [], 0;
    for i := 0 to |cs|
      invariant lrps == LRPs(models, cs[..i]) && tasks == Tasks(cs[..i]) && starting == Starting(cs[..i])
    {
      var c := cs[i];
      assert cs[..i + 1][..i] == cs[..i] && cs[..i + 1][i] == c;
      if IsStarting(c) {
        starting := starting + 1;
      }
      if c.tags.None? {
        assert c.Tag(LIFECYCLE_TAG) == "";
        continue;
      }
      var lifecycle := c.Tag(LIFECYCLE_TAG);
      if lifecycle == LRP_LIFECYCLE {
        var key := ActualLRPKeyFromTags(models, c.tags);
        if key.Err? {
          continue;
        }
        lrps := lrps + [LRP(key.value, NO_PLACEMENT, ResourceOf(c))];
      } else if lifecycle == TASK_LIFECYCLE {
        tasks := tasks + [Task(c.guid, c.Tag(DOMAIN_TAG), NO_PLACEMENT, ResourceOf(c))];
      }
    }
    assert cs[..|cs|] == cs;
  }

  // ---------------------------------------------------------------- the report, regardless of order

  datatype Tally = Tally(lrps: multiset<LRP>, tasks: multiset<Task>, starting: nat)
  {
    function Plus(other: Tally): (sum: Tally) {
      Tally(lrps + other.lrps, tasks + other.tasks, starting + other.starting)
    }
  }

  const NOTHING := Tally(multiset{}, multiset{}, 0)

  function TallyOf(models: Models, c: Container): (t: Tally) {
    Tally(multiset(One(LRPOf(models, c))), multiset(One(TaskOf(c))), if IsStarting(c) then 1 else 0)
  }

  function Sum(ts: seq<Tally>): (t: Tally) {
    if ts == [] then NOTHING else Sum(ts[..|ts| - 1]).Plus(ts[|ts| - 1])
  }

  function Each<C, T>(cs: seq<C>, f: C -> T): (ts: seq<T>) {
    seq(|cs|, i requires 0 <= i < |cs| => f(cs[i]))
  }

  lemma EachConcat<C, T>(a: seq<C>, b: seq<C>, f: C -> T)
    ensures Each(a + b, f) == Each(a, f) + Each(b, f)
  {
  }

  function Tallier(models: Models): (f: Container -> Tally) { c => TallyOf(models, c) }

  function Total(models: Models, cs: seq<Container>): (t: Tally) { Sum(Each(cs, Tallier(models))) }

  /** State's lists and count, the order forgotten. */
  function Reported(models: Models, cs: seq<Container>): (t: Tally) {
    Tally(multiset(LRPs(models, cs)), multiset(Tasks(cs)), Starting(cs))
  }

  lemma ReportedSnoc(models: Models, cs: seq<Container>, c: Container)
    ensures Reported(models, cs + [c]) == Reported(models, cs).Plus(TallyOf(models, c))
  {
    assert (cs + [c])[..|cs|] == cs;
    Appended(LRPs(models, cs), One(LRPOf(models, c)));
    Appended(Tasks(cs), One(TaskOf(c)));
  }

  lemma {:induction false} TotalIsReport(models: Models, cs: seq<Container>)
    ensures Total(models, cs) == Reported(models, cs)
  {
    if cs != [] {
      var front, c := cs[..|cs| - 1], cs[|cs| - 1];
      assert cs == front + [c];
      calc {
        Total(models, cs);
      == { TotalSnoc(models, front, c); }
        Total(models, front).Plus(TallyOf(models, c));
      == { TotalIsReport(models, front); }
        Reported(models, front).Plus(TallyOf(models, c));
      == { ReportedSnoc(models, front, c); }
        Reported(models, cs);
      }
    }
  }

  lemma PlusAssoc(a: Tally, b: Tally, c: Tally)
    ensures a.Plus(b).Plus(c) == a.Plus(b.Plus(c))
  {
  }

  lemma PlusComm(a: Tally, b: Tally)
    ensures a.Plus(b) == b.Plus(a)
  {
  }

  lemma PlusNothing(a: Tally)
    ensures a.Plus(NOTHING) == a && NOTHING.Plus(a) == a
  {
  }

  lemma SumSnoc(ts: seq<Tally>, t: Tally)
    ensures Sum(ts + [t]) == Sum(ts).Plus(t)
  {
    assert (ts + [t])[..|ts|] == ts;
  }

  lemma SumOne(t: Tally)
    ensures Sum([t]) == t
  {
    assert [t][..0] == [];
    PlusNothing(t);
  }

  lemma {:induction false} SumConcat(a: seq<Tally>, b: seq<Tally>)
    ensures Sum(a + b) == Sum(a).Plus(Sum(b))
  {
    if b == [] {
      assert a + b == a;
      PlusNothing(Sum(a));
    } else {
      var front, t := b[..|b| - 1], b[|b| - 1];
      calc {
        Sum(a + b);
      == { assert a + b == a + front + [t]; SumSnoc(a + front, t); }
        Sum(a + front).Plus(t);
      == { SumConcat(a, front); }
        Sum(a).Plus(Sum(front)).Plus(t);
      == { PlusAssoc(Sum(a), Sum(front), t); }
        Sum(a).Plus(Sum(front).Plus(t));
      == { assert b == front + [t]; SumSnoc(front, t); }
        Sum(a).Plus(Sum(b));
      }
    }
  }

  lemma TotalConcat(models: Models, a: seq<Container>, b: seq<Container>)
    ensures Total(models, a + b) == Total(models, a).Plus(Total(models, b))
  {
    EachConcat(a, b, Tallier(models));
    SumConcat(Each(a, Tallier(models)), Each(b, Tallier(models)));
  }

  lemma TotalSnoc(models: Models, cs: seq<Container>, c: Container)
    ensures Total(models, cs + [c]) == Total(models, cs).Plus(TallyOf(models, c))
  {
    var f := Tallier(models);
    EachConcat(cs, [c], f);
    assert Each([c], f) == [f(c)];
    SumSnoc(Each(cs, f), f(c));
  }

  lemma TotalSingle(models: Models, c: Container)
    ensures Total(models, [c]) == TallyOf(models, c)
  {
    var f := Tallier(models);
    assert Each([c], f) == [f(c)];
    SumOne(f(c));
  }

  /** Pulling one container out of the middle of a listing. */
  lemma Extract(models: Models, a: seq<Container>, c: Container, b: seq<Container>)
    ensures Total(models, a + [c] + b) == Total(models, a + b).Plus(TallyOf(models, c))
  {
    TotalConcat(models, a + [c], b);
    TotalConcat(models, a, [c]);
    TotalConcat(models, a, b);
    TotalSingle(models, c);
    var x, y, z := Total(models, a), Total(models, b), TallyOf(models, c);
    PlusAssoc(x, z, y);
    PlusComm(z, y);
    PlusAssoc(x, y, z);
  }

  lemma TakeOut(cs: seq<Container>, c: Container) returns (k: nat)
    requires c in cs
    ensures k < |cs| && cs == cs[..k] + [c] + cs[k + 1..]
    ensures multiset(cs) == multiset(cs[..k] + cs[k + 1..]) + multiset{c}
  {
    k :| 0 <= k < |cs| && cs[k] == c;
    assert cs == cs[..k] + [c] + cs[k + 1..];
  }

  lemma SameMinusOne(a: multiset<Container>, b: multiset<Container>, c: Container)
    requires a + multiset{c} == b + multiset{c}
    ensures a == b
  {
    assert a == (a + multiset{c}) - multiset{c};
    assert b == (b + multiset{c}) - multiset{c};
  }

  /** Whatever order the executor lists its containers in, the report is the same up to order. */
  lemma {:induction false} AnyListingOrder(models: Models, cs: seq<Container>, ds: seq<Container>)
    requires multiset(cs) == multiset(ds)
    ensures Total(models, cs) == Total(models, ds)
    decreases |cs|
  {
    if cs == [] {
      assert |multiset(ds)| == |ds|;
    } else {
      var n := |cs| - 1;
      var c, front := cs[n], cs[..n];
      assert cs == front + [c];
      assert multiset(cs) == multiset(front) + multiset{c};
      assert c in multiset(ds);
      var k := TakeOut(ds, c);
      SameMinusOne(multiset(front), multiset(ds[..k] + ds[k + 1..]), c);
      AnyListingOrder(models, front, ds[..k] + ds[k + 1..]);
      Extract(models, ds[..k], c, ds[k + 1..]);
      TotalSnoc(models, front, c);
    }
  }

  // ---------------------------------------------------------------- reserved, then reported

  /** The container the executor reserves for a request. */
  function Reservation(r: Request): (c: Container) {
    Container(r.guid, Reserved, Some(r.tags), RunResult(false, "", false), NetInfo("", "", []), r.resource.memoryMB, r.resource.diskMB)
  }

  predicate FitsInt32(r: Resource) { IsInt32(r.memoryMB) && IsInt32(r.diskMB) }

  function Shown(r: Resource): (s: Resource) { Resource(r.memoryMB, r.diskMB, 0) }

  /** What an accepted LRP, or task, looks like in the report. */
  function ShownLRP(models: Models, lrp: LRP): (t: Tally) {
    Tally(if models.validKey(lrp.key) then multiset{LRP(lrp.key, NO_PLACEMENT, Shown(lrp.resource))} else multiset{}, multiset{}, 1)
  }

  function ShownTask(task: Task): (t: Tally) {
    Tally(multiset{}, multiset{Task(task.guid, task.domain, NO_PLACEMENT, Shown(task.resource))}, 1)
  }

  /** Reading back the tags Perform writes yields the key, through the decimal index and all. */
  lemma KeyRoundTrip(models: Models, lrp: LRP, g: Guid)
    requires IsInt32(lrp.key.index)
    ensures ActualLRPKeyFromTags(models, Some(LRPTags(lrp, g))) ==
            if models.validKey(lrp.key) then Ok(lrp.key) else Err(InvalidKey)
  {
    AtoiOfItoa(lrp.key.index);
    var tags := LRPTags(lrp, g);
    assert tags[PROCESS_INDEX_TAG] == Itoa(lrp.key.index);
    assert tags[PROCESS_GUID_TAG] == lrp.key.processGuid;
    assert tags[DOMAIN_TAG] == lrp.key.domain;
  }

  lemma LRPReservation(models: Models, lrp: LRP, r: Request)
    requires IsInt32(lrp.key.index) && FitsInt32(lrp.resource)
    requires r.resource == lrp.resource && r.tags == LRPTags(lrp, r.guid)
    ensures TallyOf(models, Reservation(r)) == ShownLRP(models, lrp)
  {
    KeyRoundTrip(models, lrp, r.guid);
    assert Reservation(r).Tag(LIFECYCLE_TAG) == LRP_LIFECYCLE;
  }

  lemma TaskReservation(models: Models, task: Task, r: Request)
    requires FitsInt32(task.resource)
    requires r.resource == task.resource && r.tags == TaskTags(task) && r.guid == task.guid
    ensures TallyOf(models, Reservation(r)) == ShownTask(task)
  {
    assert Reservation(r).Tag(LIFECYCLE_TAG) == TASK_LIFECYCLE;
    assert Reservation(r).Tag(DOMAIN_TAG) == task.domain;
  }

  /** An LRP's container carries its own guid as its instance guid. */
  lemma ReservationIsTagged(lrp: LRP, r: Request)
    requires r.tags == LRPTags(lrp, r.guid)
    ensures Reservation(r).Tag(LIFECYCLE_TAG) == LRP_LIFECYCLE && Reservation(r).Tag(INSTANCE_GUID_TAG) == r.guid
  {
  }

  /** The totals of the items left standing at the positions outside `out`. */
  function ShownLRPs(models: Models, items: seq<LRP>, out: set<nat>): (t: Tally) {
    if items == [] then NOTHING
    else
      var n := |items| - 1;
      var front := ShownLRPs(models, items[..n], out);
      if n in out then front else front.Plus(ShownLRP(models, items[n]))
  }

  function ShownTasks(items: seq<Task>, out: set<nat>): (t: Tally) {
    if items == [] then NOTHING
    else
      var n := |items| - 1;
      var front := ShownTasks(items[..n], out);
      if n in out then front else front.Plus(ShownTask(items[n]))
  }

  /** The reservations of the requests the executor did not refuse. */
  function Reservations(requests: seq<Request>, out: set<nat>): (cs: seq<Container>) {
    if requests == [] then []
    else
      var n := |requests| - 1;
      Reservations(requests[..n], out) + if n in out then [] else [Reservation(requests[n])]
  }

  /** `r` asks for exactly what `lrp` needs, under tags that name it. */
  predicate LRPRequest(rep: Rep, lrp: LRP, r: Request) {
    && r.resource == lrp.resource && r.tags == LRPTags(lrp, r.guid)
    && Resolves(rep.parse, rep.stacks, lrp.placement.rootFs, r.rootFSPath)
  }

  predicate TaskRequest(rep: Rep, task: Task, r: Request) {
    && r.resource == task.resource && r.tags == TaskTags(task) && r.guid == task.guid
    && Resolves(rep.parse, rep.stacks, task.placement.rootFs, r.rootFSPath)
  }

  lemma {:induction false} LRPReservations(models: Models, rep: Rep, requests: seq<Request>, items: seq<LRP>, out: set<nat>)
    requires |requests| == |items| && forall i :: 0 <= i < |items| ==> LRPRequest(rep, items[i], requests[i])
    requires forall i :: 0 <= i < |items| ==> Int32LRP(items[i])
    ensures Total(models, Reservations(requests, out)) == ShownLRPs(models, items, out)
  {
    if requests != [] {
      var n := |requests| - 1;
      LRPReservations(models, rep, requests[..n], items[..n], out);
      var front := Reservations(requests[..n], out);
      if n in out {
        assert front + [] == front;
      } else {
        TotalSnoc(models, front, Reservation(requests[n]));
        LRPReservation(models, items[n], requests[n]);
      }
    }
  }

  lemma {:induction false} TaskReservations(models: Models, rep: Rep, requests: seq<Request>, items: seq<Task>, out: set<nat>)
    requires |requests| == |items| && forall i :: 0 <= i < |items| ==> TaskRequest(rep, items[i], requests[i])
    requires forall i :: 0 <= i < |items| ==> FitsInt32(items[i].resource)
    ensures Total(models, Reservations(requests, out)) == ShownTasks(items, out)
  {
    if requests != [] {
      var n := |requests| - 1;
      TaskReservations(models, rep, requests[..n], items[..n], out);
      var front := Reservations(requests[..n], out);
      if n in out {
        assert front + [] == front;
      } else {
        TotalSnoc(models, front, Reservation(requests[n]));
        TaskReservation(models, items[n], requests[n]);
      }
    }
  }

  predicate Int32LRP(lrp: LRP) { IsInt32(lrp.key.index) && FitsInt32(lrp.resource) }

  predicate Int32Work(work: Work) {
    && (forall i :: 0 <= i < |work.lrps| ==> Int32LRP(work.lrps[i]))
    && (forall i :: 0 <= i < |work.tasks| ==> FitsInt32(work.tasks[i].resource))
  }

  lemma {:induction false} LRPPlanRequests(rep: Rep, lrps: seq<LRP>, generated: seq<Option<Guid>>, n: nat)
    requires |generated| == |lrps| && n <= |lrps|
    ensures var p := LRPPlan(rep, lrps, generated)[..n];
            forall i :: 0 <= i < |Requests(p)| ==>
              && LRPRequest(rep, Translated(p)[i], Requests(p)[i])
              && Translated(p)[i] in lrps && Some(Requests(p)[i].guid) in generated
    decreases n
  {
    if n > 0 {
      var plan := LRPPlan(rep, lrps, generated);
      LRPPlanRequests(rep, lrps, generated, n - 1);
      assert plan[..n][..n - 1] == plan[..n - 1];
      if plan[n - 1].request.Some? {
        PathIsResolved(rep.parse, rep.stacks, lrps[n - 1].placement.rootFs, plan[n - 1].request.value.rootFSPath);
      }
    }
  }

  lemma {:induction false} TaskPlanRequests(rep: Rep, tasks: seq<Task>, n: nat)
    requires n <= |tasks|
    ensures var p := TaskPlan(rep, tasks)[..n];
            forall i :: 0 <= i < |Requests(p)| ==>
              TaskRequest(rep, Translated(p)[i], Requests(p)[i]) && Translated(p)[i] in tasks
    decreases n
  {
    if n > 0 {
      var plan := TaskPlan(rep, tasks);
      TaskPlanRequests(rep, tasks, n - 1);
      assert plan[..n][..n - 1] == plan[..n - 1];
      if plan[n - 1].request.Some? {
        PathIsResolved(rep.parse, rep.stacks, tasks[n - 1].placement.rootFs, plan[n - 1].request.value.rootFSPath);
      }
    }
  }

  /** Allocate, then report. Whatever was there before, whatever the executor refuses and in
      whatever order it lists its containers afterwards, State reports what it reported before
      plus exactly the accepted work: each LRP with a valid key under its own process guid, index,
      domain, memory and disk, each task under its own guid, domain, memory and disk, and each of
      them, valid key or not, once as starting. */
  lemma AllocateThenReport(models: Models, rep: Rep, work: Work, generated: seq<Option<Guid>>,
                           lrpOut: set<nat>, taskOut: set<nat>, before: seq<Container>, listing: seq<Container>)
    requires |generated| == |work.lrps| && Int32Work(work)
    requires var lrpPlan, taskPlan := LRPPlan(rep, work.lrps, generated), TaskPlan(rep, work.tasks);
             multiset(listing) == multiset(before + Reservations(Requests(lrpPlan), lrpOut) + Reservations(Requests(taskPlan), taskOut))
    ensures var lrpPlan, taskPlan := LRPPlan(rep, work.lrps, generated), TaskPlan(rep, work.tasks);
            Total(models, listing) ==
            Total(models, before).Plus(ShownLRPs(models, Translated(lrpPlan), lrpOut)).Plus(ShownTasks(Translated(taskPlan), taskOut))
  {
    var lrpPlan, taskPlan := LRPPlan(rep, work.lrps, generated), TaskPlan(rep, work.tasks);
    LRPPlanRequests(rep, work.lrps, generated, |work.lrps|);
    TaskPlanRequests(rep, work.tasks, |work.tasks|);
    assert lrpPlan[..|work.lrps|] == lrpPlan && taskPlan[..|work.tasks|] == taskPlan;
    LRPReservations(models, rep, Requests(lrpPlan), Translated(lrpPlan), lrpOut);
    TaskReservations(models, rep, Requests(taskPlan), Translated(taskPlan), taskOut);
    var l, t := Reservations(Requests(lrpPlan), lrpOut), Reservations(Requests(taskPlan), taskOut);
    AnyListingOrder(models, listing, before + l + t);
    TotalConcat(models, before + l, t);
    TotalConcat(models, before, l);
  }

  /** On an empty cell the report's LRPs are the accepted ones, counted: as many as are accepted
      with a valid key, and as many starting as were accepted. */
  lemma {:induction false} ShownCounts(models: Models, items: seq<LRP>, out: set<nat>)
    ensures ShownLRPs(models, items, out).starting == |Without(items, out)|
    ensures ShownLRPs(models, items, out).tasks == multiset{}
    ensures (forall i :: 0 <= i < |items| ==> models.validKey(items[i].key)) ==>
              |ShownLRPs(models, items, out).lrps| == |Without(items, out)|
  {
    if items != [] {
      ShownCounts(models, items[..|items| - 1], out);
    }
  }
}
