# Diego cell rep: a verified model

The rep is the agent on a Diego cell. It stands between the BBS, which records what should run where, and the
executor, which runs containers. It does four things this project models:

* it **harmonizes**: a bulk loop lists containers, actual LRPs and tasks, joins them into one operation per guid and
  pushes those through a queue that runs at most one operation per key; each operation looks at its container first and
  then makes the BBS or executor calls that bring the two sides together;
* it **takes on work** from the auction (`Perform`), reports what it holds (`State`) and is scored for placement;
* it **evacuates**: a one-way latch turns the LRP passes into evacuation passes and work away at the door, and a poll
  declares the cell empty;
* it **keeps its presence alive** while the executor answers pings.

## How the model is built

Processors, operations, `CellState`, the latch and the event loops are imperative, as in the source. Calls to the BBS
and the executor go through `Clients.Client`, which logs each call with an arbitrary reply. Every method states which call
sequences it can make over all replies (its *trace*), and the lemmas quantify over those sequences.

`Harmonizer` puts allocations, the executor, the BBS, the three listings, the queue and the operations into one state
machine whose steps are single calls, so operations interleave freely and snapshots are as stale as they like. The
evacuator's listing and its report are separate steps of it too. An
operation in flight carries a complete call sequence that satisfies exactly the predicate `Operations.Worker.Execute`
guarantees, and a position in it. The safety results hold in every state of every run of that machine.

Loops that wait on channels (`Maintainer`, `Bulker`) take a finite list of inputs; the method is proved equal to a fold
over it and the lemmas are about all lists. An input the loop is not waiting for at that point has no effect.

### What the environment is taken to do

* The queue runs at most one operation per key at a time, and may drop operations that wait (cmd/rep/main.go:124-125).
* Instance guids are fresh, a task is never allocated under a guid that was an instance's, and the executor keeps a
  container's guid, lifecycle tag and instance-guid tag.
* `GetContainer` answers truthfully in `Harmonizer`. The code takes any error of that call for absence, so a failing
  executor is outside the results about absent containers; the trace results do not depend on this.
* The BBS lists only records it holds and that are on this cell, record by record. A call that files a record places no
  instance other than its own on this cell, and the BBS moves none onto it unasked. `TaskByGuid` returns the task asked for.
* Removing a record removes it only if it carries the instance key named; failing a task has an effect only until it
  has completed.
* When `AllocateContainers` returns an error, nothing was allocated.
* Validation in the bbs models package, `url.Parse` and guid generation are parameters: the results hold for whatever they do.
* A run starts with nothing under way. Containers and records may be left from before, provided the records are of
  instances once allocated here.

### What turned out not to hold

* A batch has one operation per guid, so records of the cell that share a guid are not all reached. Of two instance
  records the listing keeps the later (`Residual.InstanceCanMiss`); a joint operation sends the instance record's key for both
  removals and misses an evacuating record in another slot (`Residual.JointCanMiss`). `Residual.InstanceGoesIff` and
  `Residual.EvacuatingGoesIff` say exactly which record goes, for every listing; `Residual.NothingMissedIff` says when none
  is missed: exactly when guids determine slots.
* A residual task operation can fail a task that has a container (`TaskSafety.TaskFailedWithContainer` is the run). In every
  run this happens if and only if the container was allocated between that operation's look and its call and is still
  there (`TaskSafety.FailsTaskWithContainerIff`).
* `Perform` loses a task when a repeated guid leads to a different task (`Conservation.RepeatedGuidLosesTask`). Conservation
  under every executor reply holds if and only if each translated task equals the last one submitted with its guid
  (`Conservation.TaskConservesIff`); for LRPs, if and only if equal generated guids mean equal LRPs
  (`Conservation.LRPConservesIff`).
* A resource match alone does not keep the subtraction exact: a negative amount can wrap int32
  (`Placement.NegativeResourceWraps`, exact condition in `Placement.MatchedSubtractExactIff`).
* The maintainer's `ready` is closed if and only if the first heartbeater becomes ready; a later one never closes it
  (`Maintainer.SecondReadyIsNotReported`, `Maintainer.ReadyIffFirstIsReady`).
* The evacuator's report can be false when it is made: a `Perform` past its evacuation check can fill the cell between the
  empty listing and the report (`Drain.ReportCanBeFalse`). It is true then and ever after if and only if no `Perform` was
  past its check when the listing was taken (`Drain.ReportTrueIff`).

## Model

| member | source | states |
|---|---|---|
| Harmonizer.InvNext | generator/generator.go:58-167 | every action of the cell (allocation, listing, enqueue, one call of an operation, executor and BBS moves) keeps the invariant: what an operation in flight saw of its container stays true as long as it relies on it, and all queued LRP cleanups are for instances once allocated on this cell |
| Harmonizer.InvRun | generator/generator.go:58-167 | the invariant holds in every state of every run |
| Harmonizer.InvInit | generator/generator.go:58-167 | a cell with nothing under way satisfies the invariant, whatever containers and own records it starts with |
| Harmonizer.BatchKnown | generator/generator.go:130-163 | each LRP operation a batch holds names this cell and an instance once allocated on it |
| Harmonizer.FilesOwn | generator/internal/ordinary_lrp_processor.go:68-155 | any record a call can make the BBS file is for an instance this cell allocated |
| Harmonizer.LRPCallsAbout | generator/operation.go:229-261 | past the look and the evacuation flag, a container operation on an LRP makes calls only about that container and the keys its tags stand for |
| Harmonizer.TaskCallsFileNothing | generator/internal/task_processor.go:37-156 | a task pass files no LRP record and removes none |
| Harmonizer.LookLasts | generator/operation.go:41-59 | what the first look reported outlasts every later call except a granted delete of that container |
| HarmonizerSafety.StaleSnapshotsAreSafe | generator/operation.go:41-152 | in every run, when a residual LRP operation sends a removal its container is still absent, however old the snapshot, and every record that disappears carries that container's guid and this cell |
| HarmonizerSafety.CleanupFollowsAbsence | generator/operation.go:41-197 | any residual operation that makes a BBS call has first seen its container absent, and the calls are its cleanup in order |
| TaskSafety.FailsTaskWithContainerIff | generator/operation.go:180-197 | in every run from an idle cell, per task and whatever else went wrong before: a residual task operation fails a task that has a container if and only if some action allocated that container while the operation was between its look and its call, and nothing has taken it away since |
| TaskSafety.TaskFailedWithContainer | generator/operation.go:187-196 | from every idle cell with a task placed on it and no container for it, the run that fails the task while its container exists |
| TaskSafety.ExposedPresentIff | generator/operation.go:187-196 | the same at every state in the window, before the call is made |
| TaskSafety.TasksSafeRun | generator/operation.go:180-197 | over a whole run without such an allocation, no task about to be failed ever has a container |
| TaskSafety.TaskSafetyBreaksIff | generator/operation.go:180-197 | a single step ends that safety if and only if it allocates the container of a task an operation is about to fail |
| RunGrants.OwnHits | generator/internal/task_processor.go:65-117 | runs and grants among an operation's calls are for its own key, and a run comes exactly two calls after a grant: a claim if the container is an LRP's, a StartTask that changed the task if it is a task's |
| RunGrants.TaskRunsNeverExceedStarts | generator/internal/task_processor.go:65-117 | in every run and interleaving, a guid never an instance's is run no more often than StartTask reported a change for it |
| RunGrants.LRPRunsNeverExceedClaims | generator/internal/ordinary_lrp_processor.go:68-91 | in every run and interleaving, a guid never a task's is run no more often than a claim of that instance was granted |
| RunGrants.RunsNeverExceedGrants | generator/internal/ordinary_lrp_processor.go:68-91 | for every guid whatsoever, runs are at most the grants of both kinds together |
| RunGrants.BalancedRun | generator/internal/task_processor.go:65-117 | the invariant behind these, for each kind of grant: runs so far plus grants not yet used by the operation in flight are at most the grants of that kind so far |
| Drain.NoGrowthRun | auctioncellrep/auction_cell_rep.go:217-219 | once evacuating with no Perform past its check, the cell stays so and its set of containers only shrinks |
| Drain.EvacuatedRun | generator/internal/lrp_processor.go:53-59 | from the moment the cell evacuates, whatever is in flight then, every LRP operation has been told to evacuate unless it had asked before |
| Drain.PassDeletesUnlessKept | generator/internal/evacuation_lrp_processor.go:26-128 | a finished evacuation pass with granted deletes has deleted its container unless it is Running and kept by the BBS or has invalid net info, or is in an unknown state |
| Drain.SurvivorsOfAPass | generator/internal/evacuation_lrp_processor.go:26-128 | only such containers are still there when the pass ends; Reserved, Initializing, Created and Completed ones never are |
| Drain.DrainedForGood | generator/internal/evacuation_lrp_processor.go:26-128 | in every run of a closed cell, ordinary passes still in flight or not, a container whose evacuation pass drained it is absent at the end |
| Drain.DrainDecreases | generator/internal/evacuation_lrp_processor.go:26-128 | over every run of a closed cell the containers left are among the first ones minus all drained ones, so their number falls by at least as many |
| Drain.EmptinessPersistsIff | auctioncellrep/auction_cell_rep.go:209-219 | emptiness seen under evacuation persists over every continuation if and only if no Perform was past its check |
| Drain.InFlightPerformRefills | auctioncellrep/auction_cell_rep.go:217-245 | the run that refills an emptied cell when one was |
| Drain.ReportFollowsEmptyListing | evacuation/evacuation.go:81-113 | in every run a report comes after a listing that succeeded and was empty, taken while the cell was empty and after the call of Evacuate |
| Drain.ReportTrueIff | evacuation/evacuation.go:88-101 | every report behind a given empty listing is true when made and ever after, in every continuation, if and only if no Perform was past its check at the listing |
| Drain.ReportCanBeFalse | auctioncellrep/auction_cell_rep.go:217-245 | the run in which the cell is filled between the listing and the report |
| Drain.PollsUntilEmpty | evacuation/evacuation.go:88-103 | in every run the evacuator does over the listings it gets, failed ones included, what the polling method is proved to do: it is done exactly when one succeeded and was empty, and takes none after it |
| Drain.ReportStaysTrue | evacuation/evacuation.go:88-113 | with no Perform past its check at an empty listing, the cell is empty in every state from then on |
| Residual.ExecuteIsItsCalls | generator/operation.go:41-197 | carrying out the calls of a residual operation whose look was truthful is the one-step description used below |
| Residual.CleanupEffect | generator/operation.go:55-193 | what the calls of each kind of residual operation do to instance records, evacuating records and tasks |
| Residual.ExecuteIsAfter | generator/operation.go:41-197 | one operation does to each record what an order-free description of its set says |
| Residual.AfterTwice | harmonizer/bulker.go:111-113 | executing one set and then another is executing their union |
| Residual.AnyOrder | harmonizer/bulker.go:111-113 | executing residual operations in any order, each any number of times, yields the state given by their set alone |
| Residual.ResidualsCommute | harmonizer/bulker.go:111-113 | two execution orders of the same operations, with any repetitions, end in the same BBS |
| Residual.ListingPictures | generator/generator.go:92-113 | what the listing loops make of complete listings: for every guid one of the records that carry it, guids repeated or not |
| Residual.InstanceGoesIff | generator/generator.go:92-147 | an instance record goes if and only if it is on the cell, has no container and is the one kept for its guid |
| Residual.EvacuatingGoesIff | generator/generator.go:92-155 | an evacuating record goes if and only if it is on the cell, has no container and either sits in the slot of the instance record kept for its guid or, if there is none, is the evacuating record kept for it |
| Residual.TaskGoesIff | generator/generator.go:157-163 | exactly the tasks running on this cell without a container fail, unless an LRP record carries their guid |
| Residual.BatchHarmonizes | generator/generator.go:58-167 | the whole BBS, record by record, after executing in any order the residual operations of the batch made from any complete listings |
| Interleaving.BatchHarmonizesInterleaved | harmonizer/bulker.go:111-113 | the same however the calls of those operations interleave |
| Interleaving.AnyInterleaving | generator/operation.go:41-197 | however the calls of residual operations interleave, joint removals included, the BBS ends as if each operation had run alone, in the state given by their set |
| Residual.JointCanMiss | generator/operation.go:148-151 | the listing whose batch, executed in any order, leaves an evacuating record behind |
| Residual.InstanceCanMiss | generator/generator.go:92-95 | the listing of two instance records with one guid whose batch leaves the earlier one behind |
| Residual.NothingMissedIff | generator/generator.go:92-155 | every record of the cell without a container is removed if and only if among those records a guid determines its slot |
| Batch.BatchOperations | generator/generator.go:58-167 | fails exactly when a fetch failed, with one of the failures; otherwise returns the batch of the three listings, whatever order the maps are walked in |
| Batch.Await | generator/generator.go:116-122 | an error is kept if and only if one arrived, in any order of arrival, and it is one of them |
| Batch.Join | generator/generator.go:130-163 | the four loops together compute one operation per guid by precedence container, instance, evacuating, task |
| Batch.AddInstances | generator/generator.go:137-147 | the second loop adds exactly the instance guids without a container |
| Batch.AddEvacuating | generator/generator.go:149-155 | the third loop adds exactly the evacuating guids not yet covered |
| Batch.AddTasks | generator/generator.go:157-163 | the fourth loop completes the batch to all guids seen |
| Batch.ExactCover | generator/generator.go:130-163 | the batch has an operation for a guid if and only if some listing had it, under its own queue key, looking up that container, and a container operation exactly when a container was listed |
| Batch.KindByRecords | generator/generator.go:137-163 | without a container the kind is decided by which record lists carry the guid, four cases both ways, and the operation carries the keys of a listed record |
| Batch.InstancesListed | generator/generator.go:92-95 | the map of instance records holds under each guid a listed record with that guid, and every listed guid |
| Batch.EvacuatingsListed | generator/generator.go:96-98 | the same for evacuating records |
| Operations.Worker.Execute | generator/operation.go:41-261 | the call sequences each kind of operation can make, over every reply |
| Operations.Worker.ExecuteContainerOp | generator/operation.go:229-261 | look first, nothing if absent, otherwise the pass its lifecycle selects |
| Operations.Worker.ExecuteResidual | generator/operation.go:41-197 | look first, nothing if present, otherwise exactly the cleanup calls |
| Operations.Worker.ProcessLRP | generator/internal/lrp_processor.go:53-59 | the evacuation flag is read once and selects the whole pass |
| OrdinaryLRP.Processor.Process | generator/internal/ordinary_lrp_processor.go:29-66 | the call sequences of an ordinary pass in each state; none if the tags yield no keys |
| OrdinaryLRP.Processor.ClaimContainer | generator/internal/ordinary_lrp_processor.go:145-155 | true exactly with a granted claim; a refusal deletes the container only for ActualLRPCannotBeClaimed |
| OrdinaryLRP.Processor.ProcessReserved | generator/internal/ordinary_lrp_processor.go:68-91 | claim, fetch, run, and on a refused run delete and remove |
| OrdinaryLRP.Processor.ProcessRunning | generator/internal/ordinary_lrp_processor.go:103-120 | nothing without valid net info; otherwise start, and stop only for ActualLRPCannotBeStarted |
| OrdinaryLRP.Processor.ProcessCompleted | generator/internal/ordinary_lrp_processor.go:122-138 | one outcome by whether the run was stopped, then the delete, whatever the BBS replies |
| EvacuationLRP.Processor.Process | generator/internal/evacuation_lrp_processor.go:26-61 | the call sequences of an evacuation pass in each state |
| EvacuationLRP.Processor.EvacuateClaimed | generator/internal/evacuation_lrp_processor.go:121-128 | hand back the claim, then delete whatever the BBS replies |
| EvacuationLRP.Processor.ProcessRunning | generator/internal/evacuation_lrp_processor.go:78-96 | delete exactly when the BBS does not ask to keep the container, error or not |
| EvacuationLRP.Processor.ProcessCompleted | generator/internal/evacuation_lrp_processor.go:98-114 | report stopped or crashed, then delete |
| TaskProcessing.Processor.Process | generator/internal/task_processor.go:37-63 | the call sequences of a task pass in each state |
| TaskProcessing.Processor.Start | generator/internal/task_processor.go:94-117 | true exactly when StartTask changed the task; a refusal deletes the container only for an invalid transition or a missing task |
| TaskProcessing.Processor.ProcessActive | generator/internal/task_processor.go:65-87 | start, fetch, run, and on a refused run delete and fail the task |
| TaskProcessing.Processor.Complete | generator/internal/task_processor.go:119-145 | fetch a result only for a successful run that names a file; fail instead of completing if that fails |
| Clients.Client.Run | generator/internal/container_delegate.go:49-59 | a refused run is followed by a delete of the same guid |
| Clients.Client.Delete | generator/internal/container_delegate.go:72-81 | one delete call, whose failure is only logged |
| TraceSafety.OrdinaryAbout | generator/internal/ordinary_lrp_processor.go:51-155 | every call of a pass names only the container at hand and the keys its tags stand for |
| TraceSafety.OrdinaryRuns | generator/internal/ordinary_lrp_processor.go:68-91 | a run happens once, only in a Reserved pass, as the third call after a granted claim of that instance |
| TraceSafety.OrdinaryFailedRun | generator/internal/ordinary_lrp_processor.go:86-90 | a refused run is followed by the delete and the removal of that instance, the pass's only outcome |
| TraceSafety.OrdinaryDeletes | generator/internal/ordinary_lrp_processor.go:103-155 | Running passes never delete and stop only on ActualLRPCannotBeStarted; outside Completed a delete answers a refused claim or run |
| TraceSafety.OrdinaryDeletesIff | generator/internal/ordinary_lrp_processor.go:52-155 | a pass deletes if and only if the container completed, the claim could not be granted or the run was refused |
| TraceSafety.EvacuationDeletesIff | generator/internal/evacuation_lrp_processor.go:47-128 | an evacuation pass deletes if and only if the state is drainable or a Running container is not kept; the delete comes last and nothing is run |
| TraceSafety.TaskFailedRun | generator/internal/task_processor.go:83-86 | a failed run in an active pass is answered by exactly one FailTask, for this task and with that reason |
| TraceSafety.TaskNoFailedRun | generator/internal/task_processor.go:65-87 | without one, an active pass fails no task |
| TraceSafety.TaskOutcomeBeforeDelete | generator/internal/task_processor.go:89-145 | a completed pass ends in its one delete; before it, either one failure for the fetch and no completion, or one completion and a failure exactly when that was an invalid transition |
| TraceSafety.TaskResult | generator/internal/task_processor.go:119-133 | a non-empty result is sent only for a run that did not fail, and is the text fetched just before from the file the container names |
| PassDuties.NoRunningLRPPassedOver | generator/internal/ordinary_lrp_processor.go:103-120 | in every run, no operation finishes over a Running LRP with readable keys and valid net info without having announced it to the BBS, as started or as evacuating by the mode it was told |
| PassDuties.RunningIsReported | generator/internal/ordinary_lrp_processor.go:103-120 | a Running pass sends StartActualLRP, once, first and with its own keys and net info, if and only if the net info is valid, and stops the container if and only if the reply is ActualLRPCannotBeStarted |
| PassDuties.ClaimComesFirst | generator/internal/ordinary_lrp_processor.go:93-155 | a Reserved, Initializing or Created pass begins with its one claim, of this instance |
| PassDuties.ReservedRunsIff | generator/internal/ordinary_lrp_processor.go:68-91 | a Reserved container is run if and only if the claim was granted and a desired LRP was fetched that a run request can be built from |
| PassDuties.ClaimIsAll | generator/internal/ordinary_lrp_processor.go:93-101 | an Initializing or Created pass makes no other call, save the delete if and only if the claim cannot be granted |
| PassDuties.EvacuationTellsIff | generator/internal/evacuation_lrp_processor.go:47-128 | an evacuation pass first tells the BBS what its state calls for, and is silent if and only if the container is Running with invalid net info or in an unknown state |
| PassDuties.StartComesFirst | generator/internal/task_processor.go:65-69 | a pass over a task that has not completed begins with its one StartTask, for this task and cell |
| PassDuties.TaskDeletesIff | generator/internal/task_processor.go:94-117 | such a pass deletes if and only if the BBS answers an invalid transition or a missing task, or a run was refused; any other error leaves the container alone |
| PassDuties.TaskRunsIff | generator/internal/task_processor.go:65-87 | the task is fetched if and only if starting changed it, and run if and only if moreover a run request can be built |
| PassDuties.CompletionCarriesResult | generator/internal/task_processor.go:119-133 | a result file is fetched if and only if the run did not fail and the container names one, and the completion carries exactly the outcome, the reason and the text fetched |
| PassDuties.OperationGoesOn | generator/operation.go:229-261 | a container operation that finds its container goes on by its lifecycle, and stops at the look if and only if it knows no lifecycle or state for it |
| PassDuties.KeysIff | conversion_helpers.go:31-71 | a container has readable keys if and only if it has tags, a decimal index and valid keys, and they are what the tags say |
| Auction.Perform | auctioncellrep/auction_cell_rep.go:209-274 | what is handed back on every path: evacuating, untranslatable work, executor error, refused requests |
| Auction.LRPsToAllocationRequests | auctioncellrep/auction_cell_rep.go:276-310 | requests, map and untranslated LRPs, item by item |
| Auction.TasksToAllocationRequests | auctioncellrep/auction_cell_rep.go:312-334 | the same for tasks, whose map also holds untranslated ones |
| Auction.Recover | auctioncellrep/auction_cell_rep.go:237-243 | the refused requests' items are appended, found by guid |
| Conservation.PerformConserves | auctioncellrep/auction_cell_rep.go:209-274 | on every path submitted work equals, as a multiset, what is handed back plus what the executor took on |
| Conservation.LRPWorkConserved | auctioncellrep/auction_cell_rep.go:221-245 | LRPs under distinct generated guids are conserved whatever the executor refuses |
| Conservation.TaskWorkConserved | auctioncellrep/auction_cell_rep.go:247-271 | tasks with distinct guids are conserved whatever the executor refuses |
| Conservation.ConservesIff | auctioncellrep/auction_cell_rep.go:237-269 | conservation under every reply holds if and only if each request's guid leads back to its own item |
| Conservation.TaskConservesIff | auctioncellrep/auction_cell_rep.go:312-334 | with repeated task guids, if and only if each translated task equals the last one submitted under its guid |
| Conservation.RepeatedGuidLosesTask | auctioncellrep/auction_cell_rep.go:263-269 | two tasks under one guid, the first refused: the second comes back though it was taken on, and the first is nowhere |
| Conservation.LRPConservesIff | auctioncellrep/auction_cell_rep.go:276-310 | LRPs are conserved under every reply if and only if those given the same generated guid are equal |
| Conservation.TaskFaithfulIff | auctioncellrep/auction_cell_rep.go:317-330 | the guid lookup leads every request back to its task if and only if that holds |
| Conservation.ByRequestFaithfulIff | auctioncellrep/auction_cell_rep.go:302-306 | the request map leads every request back to its item if and only if requests with one guid are for equal items |
| Conservation.ByRequestFinds | auctioncellrep/auction_cell_rep.go:302-306 | the item found under a guid is the last one requested with it |
| Conservation.GeneratedGuidsDistinct | auctioncellrep/auction_cell_rep.go:284-306 | distinct generated guids give distinct request guids |
| Conservation.ByTaskGuidLast | auctioncellrep/auction_cell_rep.go:317-319 | the task found under a guid is the last one submitted with it |
| Conservation.AdvertisedWorkIsTranslated | auctioncellrep/auction_cell_rep.go:276-334 | item by item, whatever else is in the work: an LRP comes back untranslated exactly if no guid was generated for it or its rootfs has no path, a task exactly in the latter case, and a rootfs without a path is never one the cell advertises |
| RootFS.RootFSProviders | auctioncellrep/auction_cell_rep.go:64-78 | the advertised providers, whatever order the stacks are walked in: preloaded schemes always mean the stacks |
| RootFS.AdvertisedIsTranslatable | auctioncellrep/auction_cell_rep.go:80-106 | every rootfs the cell matches it can translate, for every list of arbitrary schemes |
| RootFS.PreloadedAgree | auctioncellrep/auction_cell_rep.go:90-103 | on preloaded schemes matching and translating agree, both ways |
| RootFS.PathIsResolved | auctioncellrep/auction_cell_rep.go:80-106 | the translation of a rootfs, both ways: the path of its stack for the preloaded scheme, scheme, path and query for the layered one, itself for any other parsable one |
| RootFS.PathErrors | auctioncellrep/auction_cell_rep.go:85-100 | exactly which rootfs are refused, and with which error |
| RootFS.OtherSchemes | resources.go:113-120 | elsewhere translation returns the rootfs unchanged while matching holds exactly for listed schemes |
| Report.State | auctioncellrep/auction_cell_rep.go:110-201 | the first failing listing decides the error; otherwise each LRP and each task is reported as often as a container, in whatever state, stands for it by its lifecycle, tags and amounts, the starting count is the number not past Created, and amounts are themselves wherever they fit int32; healthy only with a state |
| Report.Walk | auctioncellrep/auction_cell_rep.go:138-171 | the loop reports each readable LRP and task in order and counts starting containers, tags or not |
| Report.LRPMultiplicity | auctioncellrep/auction_cell_rep.go:159-166 | an LRP occurs as often as there are containers whose tags and amounts spell it |
| Report.TaskMultiplicity | auctioncellrep/auction_cell_rep.go:167-169 | the same for tasks |
| Report.StartingCount | auctioncellrep/auction_cell_rep.go:203-207 | the starting count is the number of containers in Reserved, Initializing or Created |
| Report.MovingOnKeepsReport | auctioncellrep/auction_cell_rep.go:144-171 | a container that moves to another state, its tags and amounts kept, changes only the starting count |
| Report.AllocateThenReport | auctioncellrep/auction_cell_rep.go:138-171 | after an allocation, in any listing order, State reports what it did before plus exactly the accepted work under its own keys and resources, each item once as starting |
| Report.AnyListingOrder | auctioncellrep/auction_cell_rep.go:144-171 | the report is the same up to order for every order of the executor's listing |
| Report.TotalIsReport | auctioncellrep/auction_cell_rep.go:144-171 | the order-free tally is State's own lists and count |
| Report.KeyRoundTrip | conversion_helpers.go:31-53 | reading back the tags Perform writes yields the LRP key whenever that key is valid |
| Report.LRPReservation | auctioncellrep/auction_cell_rep.go:290-306 | a reserved LRP container is reported as that LRP with its memory and disk |
| Report.TaskReservation | auctioncellrep/auction_cell_rep.go:325-330 | a reserved task container is reported as that task |
| Report.ReservationIsTagged | auctioncellrep/auction_cell_rep.go:293-306 | an LRP's container carries its own guid as instance guid, which the harmonizer relies on |
| Report.LRPPlanRequests | auctioncellrep/auction_cell_rep.go:276-310 | each request asks for its LRP's resources and the path its rootfs stands for, under a generated guid and tags that name it |
| Report.TaskPlanRequests | auctioncellrep/auction_cell_rep.go:312-334 | each request asks for its task's resources and the path its rootfs stands for, under its own guid and tags that name it |
| Report.ShownCounts | auctioncellrep/auction_cell_rep.go:144-171 | accepted LRPs are all counted as starting, and all reported when their keys are valid |
| Decimal.AtoiOfItoa | auctioncellrep/auction_cell_rep.go:292 | parsing a printed index gives it back, for every 64-bit int |
| Decimal.ItoaOfAtoi | conversion_helpers.go:36-39 | an index written without plus sign or leading zeros prints back as it was |
| Decimal.AtoiIff | conversion_helpers.go:36-39 | what is parsed is an optional sign and digits, and such a string is parsed exactly if its value fits |
| Conversion.KeyFromTags | conversion_helpers.go:31-53 | missing tags and an index that is not a decimal integer are errors of their own; otherwise a key is returned if and only if it is valid and says what the tags say |
| Decimal.ItoaInjective | auctioncellrep/auction_cell_rep.go:292 | different indices print differently |
| Decimal.Wrap32 | conversion_helpers.go:43 | the int32 conversion: in range, congruent, and the identity exactly on int32 |
| Placement.CellState.ResourceMatch | resources.go:70-87 | each problem is reported if and only if it exists, so none if and only if disk, memory and a container slot suffice |
| Placement.CellState.AddLRP | resources.go:58-62 | the new cell state: resources subtracted with int32 wrap-around, LRP appended, one more starting |
| Placement.CellState.AddTask | resources.go:64-68 | the same for a task |
| Placement.GuardedAccounting | resources.go:58-87 | over any sequence of guarded placements, available plus placed is what there was, nothing wraps or goes negative, and the lists hold exactly the placed work in order |
| Placement.MatchedSubtractExactIff | resources.go:194-198 | a matched subtraction is exact if and only if it stays below the top of int32 |
| Placement.NegativeResourceWraps | resources.go:194-198 | the matched request that wraps |
| Placement.ScoreBounds | resources.go:200-205 | for any remaining resources each score lies in 0 to 1 exactly when its shares add up to between none and all of the cell, hence whenever they are within it, and an empty cell scores 0 and 1 |
| Placement.ScoreFormulas | scoring.go:24-41 | both scores spelled out in what is available, asked for and there in all |
| Placement.PlacementMovesScores | scoring.go:24-41 | a guarded placement moves the worst-fit score of every later probe up and the best-fit score down by exactly the placed share |
| Placement.ScoresMoveApart | scoring.go:24-41 | over any number of guarded placements they move by at least a third and three fifths of a slot each |
| StackMap.Unmarshal | cmd/rep/config/config.go:21-47 | the parsed map, or the error of the first bad entry with the entries before it kept |
| StackMap.Marshal | cmd/rep/config/config.go:49-59 | one entry per stack, in some order |
| StackMap.RoundTripIff | cmd/rep/config/config.go:21-59 | reading back what was written, in any order, yields the map if and only if stacks are non-empty and colon-free and paths non-empty |
| StackMap.RoundTripOnRange | cmd/rep/config/config.go:21-59 | writing and reading back is the identity on everything ever read |
| StackMap.EntryRoundTripIff | cmd/rep/config/config.go:30-43 | the same for a single entry |
| StackMap.CutJoins | cmd/rep/config/config.go:30-33 | an entry is split at its first colon, or has none |
| StackMap.ParsedIsWellFormed | cmd/rep/config/config.go:29-46 | everything accepted is well formed |
| StackMap.BadEntry | cmd/rep/config/config.go:29-41 | the first bad entry decides the outcome of the whole list |
| StackMap.EntryErrors | cmd/rep/config/config.go:30-41 | exactly which entries are refused, and as what |
| StackMap.LastEntryWins | cmd/rep/config/config.go:43 | for a stack named more than once the last entry counts |
| Latch.ClosedAtMostOnce | evacuation/evacuation_context/evacuation_context.go:33-42 | however any number of Evacuate calls interleave, the channel is closed at most once and at most one thread is inside |
| Latch.OneWay | evacuation/evacuation_context/evacuation_context.go:33-51 | once evacuating, always evacuating |
| Latch.ReturnMeansEvacuating | evacuation/evacuation_context/evacuation_context.go:33-42 | when any call of Evacuate returns the cell is evacuating |
| Latch.InvNext | evacuation/evacuation_context/evacuation_context.go:33-42 | every step of every thread keeps the lock and close-count invariant |
| Latch.EvacuationContext.Evacuate | evacuation/evacuation_context/evacuation_context.go:33-42 | a call closes exactly if the channel was open |
| Latch.CallAlone | evacuation/evacuation_context/evacuation_context.go:33-42 | a thread left alone takes the shared state of the interleaved machine where that call takes the object |
| Latch.PollUntilEmpty | evacuation/evacuation.go:81-113 | done exactly at the first listing that succeeds and is empty |
| Bulker.Run | harmonizer/bulker.go:52-87 | the loop is the fold of its turns |
| Bulker.AfterNotification | harmonizer/bulker.go:52-87 | one sync per timer fire and one for the first notification however many follow; resets use the poll interval before it and the evacuation interval from it on |
| Bulker.BeforeNotification | harmonizer/bulker.go:52-87 | until notified, one sync and one poll-interval reset per timer fire |
| Bulker.SignalEnds | harmonizer/bulker.go:79-82 | nothing after a signal has any effect |
| Bulker.Sync | harmonizer/bulker.go:89-114 | a failed batch pushes nothing; a batch is pushed whole, each operation once, in some order |
| Maintainer.Run | maintain/maintain.go:58-76 | the nested loops are the fold of single steps |
| Maintainer.WaitForExecutor | maintain/maintain.go:78-112 | pings until one succeeds, then creates a heartbeater; returns on a signal or a resources error |
| Maintainer.Heartbeat | maintain/maintain.go:114-172 | one heartbeater's life, through readiness, ticks, failed pings and signals |
| Maintainer.RunKeeps | maintain/maintain.go:58-172 | the invariant on launches, exits and closes holds after every input list, and every mark is orderly |
| Maintainer.OneHeartbeater | maintain/maintain.go:58-172 | at most one heartbeater is alive, each launched right after a successful ping when all earlier ones have exited |
| Maintainer.ReturnLeavesHeartbeater | maintain/maintain.go:161-170 | Run returns with a heartbeater possibly alive exactly when signalled while waiting for one it killed |
| Maintainer.ReadyIffFirstIsReady | maintain/maintain.go:68-69 | ready is closed at most once, and if and only if the first heartbeater becomes ready |
| Maintainer.SecondReadyIsNotReported | maintain/maintain.go:137-139 | the run in which the second heartbeater is ready and ready stays open |
| Presence.PresenceAfterFailedPing | maintain/maintain.go:153-170 | after a ping that fails on a tick, whatever comes next, any heartbeater not given up on is a new one, launched after the old one was seen to exit |
| Presence.FailedPingGivesUp | maintain/maintain.go:155-169 | such a ping leads, whatever comes in between, back to pinging with none alive once the heartbeater exits, with or without an error, and to a return only by a signal |
| Presence.SignalWaitsForExit | maintain/maintain.go:130-151 | a signal while a heartbeater starts or beats makes the maintainer return only once its exit is seen, and without an error |
| Presence.ExitByItself | maintain/maintain.go:125-145 | a heartbeater that exits by itself ends the run or sends it back to pinging, by its error |
| Presence.GoodPingKeeps | maintain/maintain.go:153-158 | a ping that succeeds on a tick leaves the run where it was |
| Presence.BecomesReady | maintain/maintain.go:122-139 | becoming ready closes ready if it is still on offer |
| Presence.PingsAgain | maintain/maintain.go:85-101 | after any number of failed pings the maintainer is where it was |
| Presence.AfterPings | maintain/maintain.go:85-112 | the first good ping then launches a heartbeater or returns the resources error, and a signal while waiting returns an error |
| Presence.AwaitsIff | maintain/maintain.go:95-169 | an input has an effect if and only if the point the run is at waits for it |

## Left out

- Liveness: that started work finishes, that evacuation ends, that the queue drains; only safety and decrease are stated.
- Container operations do not commute with each other in general; only residual operations are shown to.
- The sliding queue's policy: which waiting operation is dropped is left open, any may be.
- OperationStream and the event consumer: a pushed container operation may appear at any time instead.
- Copying fields into run requests: building one may fail, and otherwise only its guid is followed.
- Reading the result file out of its tar stream: the fetch yields a string or an error.
- Port conversion and network info assembly: a container carries its network info ready made.
- JSON: the list of strings under the stack map is taken as is, and the rootfs provider codec is not modelled.
- The texts of the reasons a task is failed with, which are distinct constants here.
- Evacuator.Run's timeout and signals, the cleanup in evacuation/cleanup.go, presence client, HTTP routes, handlers, clients, flags and start-up wiring, metrics and logging.
- MatchVolumeDrivers, MatchPlacementTags and the text of InsufficientResourcesError: easy set tests and formatting.
- Floating point: scores are over the reals with positive totals, so rounding, infinities and NaN are not covered.
- Container counts and the starting count are unbounded integers (64-bit in the source).
- Guid generation and executor replies are inputs, so `Perform` takes the replies it would get.
