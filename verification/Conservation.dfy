/** Perform loses and invents no work. */
module Conservation {
  import opened Types
  import opened RootFS
  import opened Auction

  /** The entries of `s` at positions below `n` that are inside `out`. */
  function Upto<T>(s: seq<T>, n: nat, out: set<nat>): (r: multiset<T>)
    requires n <= |s|
  {
    if n == 0 then multiset{}
    else if n - 1 in out then Upto(s, n - 1, out) + multiset{s[n - 1]}
    else Upto(s, n - 1, out)
  }

  /** The entries of `s` at positions inside `out`, and outside it. */
  function Within<T>(s: seq<T>, out: set<nat>): (r: multiset<T>) { Upto(s, |s|, out) }

  function Without<T>(s: seq<T>, out: set<nat>): (r: multiset<T>) {
    if s == [] then multiset{}
    else if |s| - 1 in out then Without(s[..|s| - 1], out)
    else Without(s[..|s| - 1], out) + multiset{s[|s| - 1]}
  }

  lemma {:induction false} SplitUpto<T>(s: seq<T>, n: nat, out: set<nat>)
    requires n <= |s|
    ensures multiset(s[..n]) == Upto(s, n, out) + Without(s[..n], out)
  {
    if n > 0 {
      SplitUpto(s, n - 1, out);
      OneMore(s, n);
      assert s[..n][..n - 1] == s[..n - 1];
      Regroup(Upto(s, n - 1, out), Without(s[..n - 1], out), multiset{s[n - 1]});
    }
  }

  lemma Split<T>(s: seq<T>, out: set<nat>)
    ensures multiset(s) == Within(s, out) + Without(s, out)
  {
    SplitUpto(s, |s|, out);
    assert s[..|s|] == s;
  }

  lemma {:induction false} UptoNothing<T>(s: seq<T>, n: nat)
    requires n <= |s|
    ensures Upto(s, n, {}) == multiset{}
  {
    if n > 0 {
      UptoNothing(s, n - 1);
    }
  }

  lemma {:induction false} UptoFrame<T>(s: seq<T>, n: nat, out: set<nat>, out': set<nat>)
    requires n <= |s| && forall i :: 0 <= i < n ==> (i in out <==> i in out')
    ensures Upto(s, n, out) == Upto(s, n, out')
  {
    if n > 0 {
      UptoFrame(s, n - 1, out, out');
    }
  }

  lemma {:induction false} UptoAdd<T>(s: seq<T>, n: nat, out: set<nat>, k: nat)
    requires k < n <= |s| && k !in out
    ensures Upto(s, n, out + {k}) == Upto(s, n, out) + multiset{s[k]}
  {
    if k == n - 1 {
      UptoFrame(s, n - 1, out, out + {k});
    } else {
      UptoAdd(s, n - 1, out, k);
      Regroup(Upto(s, n - 1, out), multiset{s[k]}, multiset{s[n - 1]});
    }
  }

  lemma OneMore<T>(s: seq<T>, n: nat)
    requires 0 < n <= |s|
    ensures multiset(s[..n]) == multiset(s[..n - 1]) + multiset{s[n - 1]}
  {
    assert s[..n] == s[..n - 1] + [s[n - 1]];
  }

  lemma Regroup<T>(a: multiset<T>, b: multiset<T>, c: multiset<T>)
    ensures (a + b) + c == a + (b + c) == (a + c) + b
  {
  }

  predicate Distinct(idx: seq<nat>) {
    forall i, j :: 0 <= i < j < |idx| ==> idx[i] != idx[j]
  }

  function Positions(idx: seq<nat>): (r: set<nat>) { set i | i in idx }

  function At<T>(s: seq<T>, idx: seq<nat>): (r: seq<T>)
    requires forall i :: 0 <= i < |idx| ==> idx[i] < |s|
  {
    if idx == [] then [] else At(s, idx[..|idx| - 1]) + [s[idx[|idx| - 1]]]
  }

  lemma PositionsSnoc(idx: seq<nat>)
    requires idx != []
    ensures Positions(idx) == Positions(idx[..|idx| - 1]) + {idx[|idx| - 1]}
  {
    assert idx == idx[..|idx| - 1] + [idx[|idx| - 1]];
  }

  lemma AtSnoc<T>(s: seq<T>, idx: seq<nat>)
    requires idx != [] && forall i :: 0 <= i < |idx| ==> idx[i] < |s|
    ensures multiset(At(s, idx)) == multiset(At(s, idx[..|idx| - 1])) + multiset{s[idx[|idx| - 1]]}
  {
    assert At(s, idx) == At(s, idx[..|idx| - 1]) + [s[idx[|idx| - 1]]];
  }

  lemma {:induction false} AtIsWithin<T>(s: seq<T>, idx: seq<nat>)
    requires Distinct(idx) && forall i :: 0 <= i < |idx| ==> idx[i] < |s|
    ensures multiset(At(s, idx)) == Within(s, Positions(idx))
  {
    if idx == [] {
      assert Positions(idx) == {};
      UptoNothing(s, |s|);
    } else {
      var n := |idx| - 1;
      var front := idx[..n];
      AtIsWithin(s, front);
      UptoAdd(s, |s|, Positions(front), idx[n]);
      PositionsSnoc(idx);
      AtSnoc(s, idx);
    }
  }

  // ---------------------------------------------------------------- the executor's reply

  /** The executor refuses the requests at positions `idx`, each once. */
  predicate Refuses<T>(plan: seq<Entry<T>>, idx: seq<nat>) {
    Distinct(idx) && forall i :: 0 <= i < |idx| ==> idx[i] < |Requests(plan)|
  }

  function RefusalOf<T>(plan: seq<Entry<T>>, idx: seq<nat>): (reply: Allocation)
    requires Refuses(plan, idx)
  {
    Refused(At(Requests(plan), idx))
  }

  /** The items whose request the executor took on. */
  function Accepted<T>(plan: seq<Entry<T>>, idx: seq<nat>): (items: multiset<T>) {
    Without(Translated(plan), Positions(idx))
  }

  predicate Conserves<T(==)>(plan: seq<Entry<T>>, m: map<Guid, T>, idx: seq<nat>)
    requires Refuses(plan, idx)
  {
    multiset(Items(plan)) == multiset(FailedItems(plan, m, RefusalOf(plan, idx))) + Accepted(plan, idx)
  }

  /** Looking a request up by its guid finds the item it was made from. */
  predicate Faithful<T(==)>(plan: seq<Entry<T>>, m: map<Guid, T>) {
    forall i :: 0 <= i < |Requests(plan)| ==>
      Requests(plan)[i].guid in m && m[Requests(plan)[i].guid] == Translated(plan)[i]
  }

  lemma Extended<T>(s: seq<T>, x: T)
    ensures multiset(s + [x]) == multiset(s) + multiset{x}
  {
  }

  lemma ItemsSnoc<T>(plan: seq<Entry<T>>)
    requires plan != []
    ensures multiset(Items(plan)) == multiset(Items(plan[..|plan| - 1])) + multiset{plan[|plan| - 1].item}
  {
    assert Items(plan) == Items(plan[..|plan| - 1]) + [plan[|plan| - 1].item];
  }

  lemma {:induction false} TranslatedOrNot<T>(plan: seq<Entry<T>>)
    ensures multiset(Items(plan)) == multiset(Untranslated(plan)) + multiset(Translated(plan))
  {
    if plan != [] {
      var n := |plan| - 1;
      var front, x := plan[..n], plan[n].item;
      TranslatedOrNot(front);
      ItemsSnoc(plan);
      Regroup(multiset(Untranslated(front)), multiset(Translated(front)), multiset{x});
      Extended(Untranslated(front), x);
      Extended(Translated(front), x);
    }
  }

  lemma RecoveredSnoc<T>(m: map<Guid, T>, failures: seq<Request>, r: Request)
    ensures Recovered(m, failures + [r]) == Recovered(m, failures) + if r.guid in m then [m[r.guid]] else []
  {
    assert (failures + [r])[..|failures|] == failures;
  }

  lemma {:induction false} FaithfulRecovers<T>(plan: seq<Entry<T>>, m: map<Guid, T>, idx: seq<nat>)
    requires Faithful(plan, m) && Refuses(plan, idx)
    ensures Recovered(m, At(Requests(plan), idx)) == At(Translated(plan), idx)
  {
    if idx != [] {
      var n := |idx| - 1;
      FaithfulRecovers(plan, m, idx[..n]);
      RecoveredSnoc(m, At(Requests(plan), idx[..n]), Requests(plan)[idx[n]]);
    }
  }

  /** What Conserves comes to: the refused items are exactly those recovered by guid. */
  lemma ConservesMeans<T>(plan: seq<Entry<T>>, m: map<Guid, T>, idx: seq<nat>)
    requires Refuses(plan, idx)
    ensures Conserves(plan, m, idx) <==>
            multiset(At(Translated(plan), idx)) == multiset(Recovered(m, At(Requests(plan), idx)))
  {
    TranslatedOrNot(plan);
    var items, out := Translated(plan), Positions(idx);
    Split(items, out);
    AtIsWithin(items, idx);
    Cancel(multiset(Untranslated(plan)), multiset(At(items, idx)), Without(items, out),
           multiset(Recovered(m, At(Requests(plan), idx))));
  }

  lemma Cancel<T>(u: multiset<T>, w: multiset<T>, a: multiset<T>, r: multiset<T>)
    ensures u + (w + a) == (u + r) + a <==> w == r
  {
    if u + (w + a) == (u + r) + a {
      forall x ensures w[x] == r[x] {
        assert (u + (w + a))[x] == ((u + r) + a)[x];
      }
    }
  }

  lemma FaithfulConserves<T>(plan: seq<Entry<T>>, m: map<Guid, T>, idx: seq<nat>)
    requires Faithful(plan, m) && Refuses(plan, idx)
    ensures Conserves(plan, m, idx)
  {
    FaithfulRecovers(plan, m, idx);
    ConservesMeans(plan, m, idx);
  }

  /** A guid that leads elsewhere is exposed by refusing that one request. */
  lemma UnfaithfulLoses<T>(plan: seq<Entry<T>>, m: map<Guid, T>, i: nat)
    requires i < |Requests(plan)| && Conserves(plan, m, [i])
    ensures Requests(plan)[i].guid in m && m[Requests(plan)[i].guid] == Translated(plan)[i]
  {
    ConservesMeans(plan, m, [i]);
    var r, item := Requests(plan)[i], Translated(plan)[i];
    assert [i][..0] == [];
    assert At(Requests(plan), [i]) == [r] && At(Translated(plan), [i]) == [item];
    RecoveredSnoc(m, [], r);
    assert [] + [r] == [r];
    assert multiset(Recovered(m, [r])) == multiset{item};
    assert item in multiset(Recovered(m, [r]));
  }

  /** Work is conserved under every reply of the executor if and only if every request's guid
      leads back to its own item. */
  lemma ConservesIff<T>(plan: seq<Entry<T>>, m: map<Guid, T>)
    ensures (forall idx: seq<nat> :: Refuses(plan, idx) ==> Conserves(plan, m, idx)) <==> Faithful(plan, m)
  {
    if Faithful(plan, m) {
      forall idx: seq<nat> | Refuses(plan, idx) ensures Conserves(plan, m, idx) {
        FaithfulConserves(plan, m, idx);
      }
    }
    if forall idx: seq<nat> :: Refuses(plan, idx) ==> Conserves(plan, m, idx) {
      forall i | 0 <= i < |Requests(plan)|
        ensures Requests(plan)[i].guid in m && m[Requests(plan)[i].guid] == Translated(plan)[i]
      {
        assert Refuses(plan, [i]);
        UnfaithfulLoses(plan, m, i);
      }
    }
  }

  // ---------------------------------------------------------------- LRPs

  predicate DistinctGuids(requests: seq<Request>) {
    forall i, j :: 0 <= i < j < |requests| ==> requests[i].guid != requests[j].guid
  }

  /** The item found under a request's guid is the last one whose request has that guid. */
  lemma {:induction false} ByRequestFinds<T>(plan: seq<Entry<T>>, k: nat) returns (i: nat)
    requires k < |Requests(plan)|
    ensures i < |Requests(plan)| && Requests(plan)[i].guid == Requests(plan)[k].guid
    ensures Requests(plan)[k].guid in ByRequest(plan) && ByRequest(plan)[Requests(plan)[k].guid] == Translated(plan)[i]
    ensures forall j :: i < j < |Requests(plan)| ==> Requests(plan)[j].guid != Requests(plan)[k].guid
  {
    var n := |plan| - 1;
    var front, last := plan[..n], plan[n];
    if last.request.Some? && last.request.value.guid == Requests(plan)[k].guid {
      i := |Requests(front)|;
    } else {
      assert Requests(front) <= Requests(plan) && Translated(front) <= Translated(plan);
      i := ByRequestFinds(front, k);
      assert forall j :: i < j < |Requests(front)| ==> Requests(plan)[j] == Requests(front)[j];
    }
  }

  /** Items whose requests carry the same guid are equal. */
  predicate GuidsDetermineItems<T(==)>(plan: seq<Entry<T>>) {
    forall i, j :: 0 <= i < j < |Requests(plan)| && Requests(plan)[i].guid == Requests(plan)[j].guid ==>
      Translated(plan)[i] == Translated(plan)[j]
  }

  lemma ByRequestFaithfulIff<T>(plan: seq<Entry<T>>)
    ensures Faithful(plan, ByRequest(plan)) <==> GuidsDetermineItems(plan)
  {
    if GuidsDetermineItems(plan) {
      forall k | 0 <= k < |Requests(plan)|
        ensures Requests(plan)[k].guid in ByRequest(plan) && ByRequest(plan)[Requests(plan)[k].guid] == Translated(plan)[k]
      {
        var i := ByRequestFinds(plan, k);
      }
    }
  }

  /** LRPs are conserved under every reply of the executor if and only if those that were given the
      same generated guid are equal. */
  lemma LRPConservesIff(rep: Rep, lrps: seq<LRP>, generated: seq<Option<Guid>>)
    requires |generated| == |lrps|
    ensures var plan := LRPPlan(rep, lrps, generated);
            (forall idx: seq<nat> :: Refuses(plan, idx) ==> Conserves(plan, ByRequest(plan), idx)) <==> GuidsDetermineItems(plan)
  {
    var plan := LRPPlan(rep, lrps, generated);
    ConservesIff(plan, ByRequest(plan));
    ByRequestFaithfulIff(plan);
  }

  /** LRPs under generated guids that do not repeat: nothing is lost whatever the executor refuses. */
  lemma LRPWorkConserved(rep: Rep, lrps: seq<LRP>, generated: seq<Option<Guid>>, idx: seq<nat>)
    requires |generated| == |lrps|
    requires forall i, j :: 0 <= i < j < |generated| && generated[i].Some? && generated[j].Some? ==> generated[i] != generated[j]
    requires Refuses(LRPPlan(rep, lrps, generated), idx)
    ensures var plan := LRPPlan(rep, lrps, generated);
            multiset(lrps) == multiset(FailedItems(plan, ByRequest(plan), RefusalOf(plan, idx))) + Accepted(plan, idx)
  {
    var plan := LRPPlan(rep, lrps, generated);
    assert Items(plan) == lrps;
    GeneratedGuidsDistinct(rep, lrps, generated, |lrps|);
    assert plan[..|lrps|] == plan;
    ByRequestFaithfulIff(plan);
    FaithfulConserves(plan, ByRequest(plan), idx);
  }

  lemma {:induction false} GeneratedGuidsDistinct(rep: Rep, lrps: seq<LRP>, generated: seq<Option<Guid>>, n: nat)
    requires |generated| == |lrps| && n <= |lrps|
    requires forall i, j :: 0 <= i < j < |generated| && generated[i].Some? && generated[j].Some? ==> generated[i] != generated[j]
    ensures DistinctGuids(Requests(LRPPlan(rep, lrps, generated)[..n]))
    ensures forall r :: r in Requests(LRPPlan(rep, lrps, generated)[..n]) ==> Some(r.guid) in generated[..n]
    decreases n
  {
    if n > 0 {
      var plan := LRPPlan(rep, lrps, generated);
      GeneratedGuidsDistinct(rep, lrps, generated, n - 1);
      assert plan[..n][..n - 1] == plan[..n - 1];
      assert generated[..n] == generated[..n - 1] + [generated[n - 1]];
    }
  }

  // ---------------------------------------------------------------- tasks

  lemma {:induction false} EveryTaskMapped(tasks: seq<Task>, k: nat)
    requires k < |tasks|
    ensures tasks[k].guid in ByTaskGuid(tasks)
  {
    if k < |tasks| - 1 {
      EveryTaskMapped(tasks[..|tasks| - 1], k);
    }
  }

  /** The task found under a guid is the last one submitted with it. */
  lemma {:induction false} ByTaskGuidLast(tasks: seq<Task>, g: Guid) returns (i: nat)
    requires g in ByTaskGuid(tasks)
    ensures i < |tasks| && tasks[i] == ByTaskGuid(tasks)[g] && tasks[i].guid == g
    ensures forall j :: i < j < |tasks| ==> tasks[j].guid != g
  {
    var n := |tasks| - 1;
    if tasks[n].guid == g {
      i := n;
    } else {
      i := ByTaskGuidLast(tasks[..n], g);
      assert forall j :: i < j < n ==> tasks[j] == tasks[..n][j];
    }
  }

  /** Each request of a task plan is its item's. */
  lemma {:induction false} TaskRequests(rep: Rep, tasks: seq<Task>, n: nat)
    requires n <= |tasks|
    ensures var p := TaskPlan(rep, tasks)[..n];
            forall i :: 0 <= i < |Requests(p)| ==>
              Requests(p)[i].guid == Translated(p)[i].guid && Translated(p)[i] in tasks[..n]
    decreases n
  {
    if n > 0 {
      var plan := TaskPlan(rep, tasks);
      TaskRequests(rep, tasks, n - 1);
      assert plan[..n][..n - 1] == plan[..n - 1];
      assert tasks[..n] == tasks[..n - 1] + [tasks[n - 1]];
    }
  }

  /** `task` is the last of `tasks` with its guid, or equal to it. */
  predicate Latest(tasks: seq<Task>, task: Task) {
    exists i :: 0 <= i < |tasks| && tasks[i] == task && forall j :: i < j < |tasks| ==> tasks[j].guid != task.guid
  }

  lemma TaskFaithfulIff(rep: Rep, tasks: seq<Task>)
    ensures var plan := TaskPlan(rep, tasks);
            Faithful(plan, ByTaskGuid(tasks)) <==> forall i :: 0 <= i < |Translated(plan)| ==> Latest(tasks, Translated(plan)[i])
  {
    var plan := TaskPlan(rep, tasks);
    TaskRequests(rep, tasks, |tasks|);
    assert plan[..|tasks|] == plan && tasks[..|tasks|] == tasks;
    forall i | 0 <= i < |Translated(plan)|
      ensures Requests(plan)[i].guid in ByTaskGuid(tasks)
      ensures ByTaskGuid(tasks)[Requests(plan)[i].guid] == Translated(plan)[i] <==> Latest(tasks, Translated(plan)[i])
    {
      LatestIsMapped(tasks, Translated(plan)[i]);
    }
    if Faithful(plan, ByTaskGuid(tasks)) {
      forall i | 0 <= i < |Translated(plan)| ensures Latest(tasks, Translated(plan)[i]) {
        assert ByTaskGuid(tasks)[Requests(plan)[i].guid] == Translated(plan)[i];
      }
    } else {
      var i :| 0 <= i < |Requests(plan)| && ByTaskGuid(tasks)[Requests(plan)[i].guid] != Translated(plan)[i];
      assert !Latest(tasks, Translated(plan)[i]);
    }
  }

  /** With repeated task guids, conservation holds for every reply exactly when each translated
      task equals the last task submitted under its guid. */
  lemma TaskConservesIff(rep: Rep, tasks: seq<Task>)
    ensures var plan := TaskPlan(rep, tasks);
            (forall idx: seq<nat> :: Refuses(plan, idx) ==> Conserves(plan, ByTaskGuid(tasks), idx)) <==>
            (forall i :: 0 <= i < |Translated(plan)| ==> Latest(tasks, Translated(plan)[i]))
  {
    ConservesIff(TaskPlan(rep, tasks), ByTaskGuid(tasks));
    TaskFaithfulIff(rep, tasks);
  }

  /** Two tasks under one guid, the first request refused: what comes back is the second task,
      which the executor has taken on as well, and the first is nowhere. */
  lemma RepeatedGuidLosesTask(rep: Rep, first: Task, second: Task)
    requires first.guid == second.guid && first != second && first.placement.rootFs == "" && second.placement.rootFs == ""
    ensures var plan := TaskPlan(rep, [first, second]);
            && Refuses(plan, [0])
            && Performed(rep, false, Work([], [first, second]), [], AllocationError, RefusalOf(plan, [0])) == Work([], [second])
            && Accepted(plan, [0]) == multiset{second}
            && !Conserves(plan, ByTaskGuid([first, second]), [0])
  {
    var plan := TaskPlan(rep, [first, second]);
    TwoTasks(rep, first, second);
    LastOfTwo(first, second);
    AcceptedSecond(first, second);
    AtOne(Requests(plan), 0);
    RecoverOne(ByTaskGuid([first, second]), Requests(plan)[0]);
    assert Work([], [first, second]).lrps == [];
    if Conserves(plan, ByTaskGuid([first, second]), [0]) {
      UnfaithfulLoses(plan, ByTaskGuid([first, second]), 0);
      assert false;
    }
  }

  lemma TwoEntries<T>(x: Entry<T>, y: Entry<T>)
    requires x.request.Some? && y.request.Some?
    ensures Requests([x, y]) == [x.request.value, y.request.value]
    ensures Translated([x, y]) == [x.item, y.item] && Untranslated([x, y]) == []
  {
    assert [x, y][..1] == [x] && [x][..0] == [];
    assert Requests([x]) == [x.request.value] && Translated([x]) == [x.item] && Untranslated([x]) == [];
  }

  lemma TwoTasks(rep: Rep, first: Task, second: Task)
    requires first.placement.rootFs == "" && second.placement.rootFs == ""
    ensures var plan := TaskPlan(rep, [first, second]);
            && |Requests(plan)| == 2 && Requests(plan)[0].guid == first.guid
            && Translated(plan) == [first, second] && Untranslated(plan) == []
  {
    var x, y := TaskEntry(rep, first), TaskEntry(rep, second);
    assert TaskPlan(rep, [first, second]) == [x, y];
    TwoEntries(x, y);
  }

  lemma AtOne<T>(s: seq<T>, i: nat)
    requires i < |s|
    ensures At(s, [i]) == [s[i]]
  {
    assert [i][..0] == [];
  }

  lemma RecoverOne<T>(m: map<Guid, T>, r: Request)
    requires r.guid in m
    ensures Recovered(m, [r]) == [m[r.guid]]
  {
    assert [r][..0] == [];
  }

  lemma LastOfTwo(first: Task, second: Task)
    requires first.guid == second.guid
    ensures ByTaskGuid([first, second]) == map[second.guid := second]
  {
    assert [first, second][..1] == [first] && [first][..0] == [];
    assert ByTaskGuid([first]) == map[first.guid := first];
  }

  lemma AcceptedSecond(first: Task, second: Task)
    ensures Without([first, second], Positions([0])) == multiset{second}
  {
    assert [first, second][..1] == [first] && [first][..0] == [];
    assert 0 in Positions([0]) && 1 !in Positions([0]);
    assert Without([first], Positions([0])) == multiset{};
  }

  lemma DistinctFaithful(rep: Rep, tasks: seq<Task>)
    requires forall i, j :: 0 <= i < j < |tasks| ==> tasks[i].guid != tasks[j].guid
    ensures Faithful(TaskPlan(rep, tasks), ByTaskGuid(tasks))
  {
    var plan := TaskPlan(rep, tasks);
    TaskRequests(rep, tasks, |tasks|);
    assert plan[..|tasks|] == plan && tasks[..|tasks|] == tasks;
    forall i | 0 <= i < |Translated(plan)| ensures Latest(tasks, Translated(plan)[i]) {
      DistinctLatest(tasks, Translated(plan)[i]);
    }
    TaskFaithfulIff(rep, tasks);
  }

  lemma TaskItems(rep: Rep, tasks: seq<Task>)
    ensures Items(TaskPlan(rep, tasks)) == tasks
  {
  }

  /** Tasks with distinct guids: nothing is lost whatever the executor refuses. */
  lemma TaskWorkConserved(rep: Rep, tasks: seq<Task>, idx: seq<nat>)
    requires forall i, j :: 0 <= i < j < |tasks| ==> tasks[i].guid != tasks[j].guid
    requires Refuses(TaskPlan(rep, tasks), idx)
    ensures var plan := TaskPlan(rep, tasks);
            multiset(tasks) == multiset(FailedItems(plan, ByTaskGuid(tasks), RefusalOf(plan, idx))) + Accepted(plan, idx)
  {
    TaskItems(rep, tasks);
    DistinctFaithful(rep, tasks);
    FaithfulConserves(TaskPlan(rep, tasks), ByTaskGuid(tasks), idx);
  }

  lemma DistinctLatest(tasks: seq<Task>, task: Task)
    requires task in tasks && forall i, j :: 0 <= i < j < |tasks| ==> tasks[i].guid != tasks[j].guid
    ensures Latest(tasks, task)
  {
    var k :| 0 <= k < |tasks| && tasks[k] == task;
    assert forall j :: k < j < |tasks| ==> tasks[j].guid != task.guid;
  }

  lemma LatestIsMapped(tasks: seq<Task>, task: Task)
    requires task in tasks
    ensures task.guid in ByTaskGuid(tasks)
    ensures ByTaskGuid(tasks)[task.guid] == task <==> Latest(tasks, task)
  {
    var k :| 0 <= k < |tasks| && tasks[k] == task;
    EveryTaskMapped(tasks, k);
    var i := ByTaskGuidLast(tasks, task.guid);
    if Latest(tasks, task) {
      var l :| 0 <= l < |tasks| && tasks[l] == task && forall j :: l < j < |tasks| ==> tasks[j].guid != task.guid;
      assert l == i;
    }
  }

  // ---------------------------------------------------------------- all of Perform

  /** An executor reply: an error, or the positions it refuses. */
  predicate ReplyTo<T>(plan: seq<Entry<T>>, idx: Option<seq<nat>>) {
    idx.Some? ==> Refuses(plan, idx.value)
  }

  function Reply<T>(plan: seq<Entry<T>>, idx: Option<seq<nat>>): (reply: Allocation)
    requires ReplyTo(plan, idx)
  {
    if idx.None? then AllocationError else RefusalOf(plan, idx.value)
  }

  /** What the executor holds afterwards; under an error, or if it was never asked, nothing. */
  function Taken<T>(evacuating: bool, plan: seq<Entry<T>>, idx: Option<seq<nat>>): (items: multiset<T>) {
    if evacuating || plan == [] || idx.None? then multiset{} else Accepted(plan, idx.value)
  }

  /** Work is conserved on every path through Perform: evacuating or not, whatever fails to
      translate, and whether the executor fails outright (which discards the partial failures) or
      refuses any of the requests. */
  lemma PerformConserves(rep: Rep, evacuating: bool, work: Work, generated: seq<Option<Guid>>, lrpIdx: Option<seq<nat>>, taskIdx: Option<seq<nat>>)
    requires |generated| == |work.lrps|
    requires forall i, j :: 0 <= i < j < |generated| && generated[i].Some? && generated[j].Some? ==> generated[i] != generated[j]
    requires forall i, j :: 0 <= i < j < |work.tasks| ==> work.tasks[i].guid != work.tasks[j].guid
    requires ReplyTo(LRPPlan(rep, work.lrps, generated), lrpIdx) && ReplyTo(TaskPlan(rep, work.tasks), taskIdx)
    ensures var lrpPlan, taskPlan := LRPPlan(rep, work.lrps, generated), TaskPlan(rep, work.tasks);
            var failed := Performed(rep, evacuating, work, generated, Reply(lrpPlan, lrpIdx), Reply(taskPlan, taskIdx));
            && multiset(work.lrps) == multiset(failed.lrps) + Taken(evacuating, lrpPlan, lrpIdx)
            && multiset(work.tasks) == multiset(failed.tasks) + Taken(evacuating, taskPlan, taskIdx)
  {
    var lrpPlan, taskPlan := LRPPlan(rep, work.lrps, generated), TaskPlan(rep, work.tasks);
    assert Items(lrpPlan) == work.lrps && Items(taskPlan) == work.tasks;
    if lrpIdx.Some? {
      LRPWorkConserved(rep, work.lrps, generated, lrpIdx.value);
    }
    if taskIdx.Some? {
      TaskWorkConserved(rep, work.tasks, taskIdx.value);
    }
  }

  // ---------------------------------------------------------------- rootfs grounds

  /** The untranslated items are exactly those of the entries without a request. */
  lemma {:induction false} UntranslatedIff<T>(plan: seq<Entry<T>>, x: T)
    ensures x in Untranslated(plan) <==> exists i :: 0 <= i < |plan| && plan[i].item == x && plan[i].request.None?
  {
    if plan != [] {
      var n := |plan| - 1;
      UntranslatedIff(plan[..n], x);
      if i :| 0 <= i < |plan| && plan[i].item == x && plan[i].request.None? {
        assert i < n ==> plan[..n][i] == plan[i];
      }
    }
  }

  /** Item by item, whatever else is in the work: an LRP comes back as untranslatable exactly if no
      guid could be generated for it or its rootfs has no path, a task exactly in the latter case;
      and a rootfs the cell advertises always has a path. */
  lemma AdvertisedWorkIsTranslated(rep: Rep, arbitrary: seq<string>, work: Work, generated: seq<Option<Guid>>)
    requires |generated| == |work.lrps|
    ensures forall lrp :: lrp in Untranslated(LRPPlan(rep, work.lrps, generated)) <==>
              exists i :: 0 <= i < |work.lrps| && work.lrps[i] == lrp && (generated[i].None? || Pathless(rep, lrp.placement))
    ensures forall task :: task in Untranslated(TaskPlan(rep, work.tasks)) <==> task in work.tasks && Pathless(rep, task.placement)
    ensures forall p :: Pathless(rep, p) ==> !MatchRootFS(rep.parse, Advertised(rep.stacks, arbitrary), p.rootFs)
  {
    forall lrp
      ensures lrp in Untranslated(LRPPlan(rep, work.lrps, generated)) <==>
              exists i :: 0 <= i < |work.lrps| && work.lrps[i] == lrp && (generated[i].None? || Pathless(rep, lrp.placement))
    {
      UntranslatedLRPIff(rep, work.lrps, generated, lrp);
    }
    forall task ensures task in Untranslated(TaskPlan(rep, work.tasks)) <==> task in work.tasks && Pathless(rep, task.placement) {
      UntranslatedTaskIff(rep, work.tasks, task);
    }
    forall p | Pathless(rep, p) ensures !MatchRootFS(rep.parse, Advertised(rep.stacks, arbitrary), p.rootFs) {
      PathlessIsNotAdvertised(rep, arbitrary, p);
    }
  }

  predicate Pathless(rep: Rep, p: PlacementConstraint) { PathForRootFS(rep.parse, rep.stacks, p.rootFs).Err? }

  lemma PathlessIsNotAdvertised(rep: Rep, arbitrary: seq<string>, p: PlacementConstraint)
    requires Pathless(rep, p)
    ensures !MatchRootFS(rep.parse, Advertised(rep.stacks, arbitrary), p.rootFs)
  {
    if MatchRootFS(rep.parse, Advertised(rep.stacks, arbitrary), p.rootFs) {
      AdvertisedIsTranslatable(rep.parse, rep.stacks, arbitrary, p.rootFs);
      assert false;
    }
  }

  lemma UntranslatedLRPIff(rep: Rep, lrps: seq<LRP>, generated: seq<Option<Guid>>, lrp: LRP)
    requires |generated| == |lrps|
    ensures lrp in Untranslated(LRPPlan(rep, lrps, generated)) <==>
            exists i :: 0 <= i < |lrps| && lrps[i] == lrp && (generated[i].None? || Pathless(rep, lrp.placement))
  {
    var plan := LRPPlan(rep, lrps, generated);
    UntranslatedIff(plan, lrp);
    assert forall i :: 0 <= i < |lrps| ==> plan[i] == LRPEntry(rep, lrps[i], generated[i]);
  }

  lemma UntranslatedTaskIff(rep: Rep, tasks: seq<Task>, task: Task)
    ensures task in Untranslated(TaskPlan(rep, tasks)) <==> task in tasks && Pathless(rep, task.placement)
  {
    var plan := TaskPlan(rep, tasks);
    UntranslatedIff(plan, task);
    assert forall i :: 0 <= i < |tasks| ==> plan[i] == TaskEntry(rep, tasks[i]);
  }
}
