# Verification model of the gNMIc operator

This project models the decision-making parts of the gNMIc operator (a Kubernetes
operator written in Go) and proves what they promise, with Dafny 4.11.
`dafny verify dfyconfig.toml` checks everything.

Four connected parts are modelled.

1. **Target placement.** Bounded-load rendezvous hashing keeps current owners up to the
   capacity of their pod and hands every other target to its best pod with room
   (`Placement.dfy`). `Distribute.dfy` splits a plan over the pods with it,
   `PodNames.dfy` prints and parses pod names, and `ClosedLoop.dfy` closes the feedback
   loop through target status. The hash is a parameter: any function to naturals, with
   collisions. Go's `sort.Slice` leaves the order of equal scores open, so the sort is a
   parameter too: `OutcomeVia` is the result for one sort, which the methods return, and
   `Outcome` those for all of them, for which the theorems hold.
   `PlacementDeterminism.dfy` says when there is only one. `StaleTargets.dfy` follows a
   target without a profile from pipeline to pod.
2. **Plan building and ports.** `PlanBuilder.dfy` merges pipelines into one plan over
   the relations of `PlanRelations.dfy` and says when that fails. `Ports.dfy` is the double-hashing port pool with
   its 32-bit arithmetic, `NumberTheory.dfy` the arithmetic under it, and
   `PortPrimality.dfy` shows that the prime pool size is needed, not only sufficient,
   `PortOverflow.dfy` what happens to larger pools, and `PlanPorts.dfy` when the ports of
   all pipelines together are distinct.
3. **Discovery.** `Discovery.dfy` turns discovered targets into events and store changes,
   `SnapshotProtocol.dfy` is the message processor as a state machine on values,
   `Reassembly.dfy` the sender's chunking and the round trip, `DeferredEvents.dfy` the fate
   of events that arrive during a snapshot, `MessageProcessor.dfy` the class itself
   with slices that alias the sender's array, proved to refine the state machine, and
   `Delivery.dfy` the way from the loader's array to the store.
4. **Target status.** `TargetStatus.dfy` has the status, its summary and the history of
   writes, `StatusServer.dfy` the versioned store with its past, through which a lagging
   cache reads, `StatusWriters.dfy` all interleavings of any number of writers,
   `StatusCleanup.dfy` whose entry a cleanup removes, `StatusUpdate.dfy` the retry loops as methods against a server, `Streams.dfy`
   the table of SSE streams, and `WatchMap.dfy` which clusters a changed resource wakes.

## Where the code and its documentation differ

The model follows the code. Each difference is stated as a lemma, with the exact condition
under which the code does what was said.

- A comment says that the default capacity makes loads differ by at most one
  (`internal/gnmic/placement_blrh.go:57-58`). That holds for all scores exactly when there
  is at most one target per pod, or the number of targets is 0 or -1 modulo the number of
  pods: `PlacementBalance.EvenExactly`.
- The target distribution guide says that existing targets stay when a pod, or another
  target, is added or removed (`docs/content/docs/advanced/target-distribution.md:102-113`).
  They all stay exactly when no surviving pod owns more than the new capacity
  (`PlacementStability.OwnersStayExactly`); a second pod always takes some from the first
  (`PlacementStability.SecondPodMovesTargets`). Removing pods does keep every survivor at
  the default capacity (`PlacementStability.ScaleDownMovesNoSurvivor`).
- Placement does not check that a recorded name is in the plan. A target whose profile is
  missing is recorded but not planned, and a pod can then be sent a name without a
  configuration: `Distribute.StaleNamePlannedExactly` says exactly when,
  `StaleTargets.StaleTargetIsSent` follows one from pipeline to pod.
- Ports are assigned from an empty pool for each pipeline
  (`internal/gnmic/plan.go:447-474`), so outputs of different pipelines can share a port,
  and a shared output can be moved onto another one's port within its own pipeline:
  `PlanPorts.PortsApartExactly` and `PlanPorts.SecondPipelineSharesPort`.
- Events that arrive during a snapshot are meant to be applied after it
  (`internal/controller/discovery/message_processor.go:223`). They are replayed while the
  snapshot is still active, so they are deferred again and dropped:
  `DeferredEvents.DeferredEventsLostExactly` says which events are missed, and
  `DeferredEvents.DeleteIsLost` gives a run.
- A cleanup checks whose entry it removes on the listed copy only, not after a conflict
  (`internal/controller/targetstate_controller.go:320-337`):
  `StatusCleanup.CleanupRemovesForeignExactly` says exactly when it removes another pod's
  entry, and `StatusCleanup.CleanupCanRemoveForeignEntry` gives a run.
- A comment says that a fresh copy is fetched before each update
  (`internal/controller/targetstate_controller.go:374`), but the client reads through the
  manager's cache (`cmd/main.go:201-202`), which may lag. No update is lost for it, since an
  update is refused exactly when its copy is older than the store
  (`StatusServer.SameVersionIsSame`), but a single change can use up all five attempts:
  `StatusCleanup.OneChangeCanUseUpAttempts`.

## Model

| member | source | states |
|---|---|---|
| Placement.NormalizeOptions | internal/gnmic/placement_blrh.go:32-44 | No options mean one pod, the default capacity and no owners; less than one pod means one; everything else is taken as it is |
| Placement.BoundedRendezvousHash | internal/gnmic/placement_blrh.go:119-142 | Sorting all pods and taking the first with room is the fold that keeps the best pod with room |
| Placement.BestPodIsChosen | internal/gnmic/placement_blrh.go:118-142 | The choice is the argmax by score, then lower index, over the pods with room, and fails only when no pod has room |
| Placement.ChosenIsUnique | internal/gnmic/placement_blrh.go:124-136 | There is only one such choice |
| Placement.KeepOwners | internal/gnmic/placement_blrh.go:80-98 | For any sort, a pod keeps the first owners as sorted, as many as fit, none of which scores below one it releases; with capacity zero or less it keeps none but gets an entry |
| Placement.KeepCurrent | internal/gnmic/placement_blrh.go:71-100 | In whatever order the pods are visited, every surviving pod with owners, and no other, has kept the cut of its sorted owners, and exactly those are pre-assigned |
| Placement.PlaceRest | internal/gnmic/placement_blrh.go:102-113 | The loop is the fold that gives each remaining name its best pod with room and leaves it out if there is none |
| Placement.BoundedLoadRendezvousHash | internal/gnmic/placement_blrh.go:50-116 | Returns the outcome for the sort it is given, nothing at all for no targets |
| PlacementTheorems.PlaceOneKeeps | internal/gnmic/placement_blrh.go:102-112 | One pass of the placing loop keeps all of the next row's invariant |
| PlacementTheorems.FillInvariant | internal/gnmic/placement_blrh.go:102-113 | Through the placing loop no name is duplicated, no pod exceeds capacity, kept owners stay first, and either all names are placed or all pods are full |
| PlacementTheorems.Conservation | internal/gnmic/placement_blrh.go:50-116 | Every outcome places min(targets, pods x capacity) targets, each once, none beyond capacity, and leaves one out only if all pods are full; the capacity in numbers is the subject of the next rows |
| PlacementTheorems.LoadIsBounded | internal/gnmic/placement_blrh.go:55-60 | Whatever the owners, a pod gets at most the configured number of targets, none if that is negative, and at most ceil(targets / pods) if none is configured |
| PlacementTheorems.ConfiguredCapacityPlaces | internal/gnmic/placement_blrh.go:55-60 | A configured capacity c > 0 places min(targets, pods x c), a negative one nothing, none places all |
| PlacementTheorems.LoadFloor | internal/gnmic/placement_blrh.go:55-60 | If everything fits, each pod holds at least n - (pods - 1) x capacity |
| PlacementTheorems.DefaultCapacityPlacesAll | internal/gnmic/placement_blrh.go:55-60 | With the default capacity nothing is left out |
| PlacementBalance.EvenExactly | internal/gnmic/placement_blrh.go:55-60 | Loads differ by at most one for all scores and owners if and only if n <= pods or n mod pods is 0 or pods - 1 |
| PlacementBalance.GapIsReached | internal/gnmic/placement_blrh.go:57-58 | Otherwise some scores leave the last pod two or more behind another |
| PlacementStability.OutcomeIsEnvyless | internal/gnmic/placement_blrh.go:62-113 | Every outcome obeys a rule that does not mention the algorithm: a target that was not kept sits on its best pod among those not used up by kept owners and earlier names |
| PlacementStability.NoJustifiedEnvy | internal/gnmic/placement_blrh.go:102-142 | A pod that a moved target ranks above its own is full, of former owners and names before it |
| PlacementStability.StayersAreKept | internal/gnmic/placement_blrh.go:80-98 | The owners still on a surviving pod are exactly the kept ones; none that was released comes back |
| PlacementStability.BoundedChurn | internal/gnmic/placement_blrh.go:80-98 | Exactly the excess over capacity leaves a surviving pod, and whoever stays scores at least as high as whoever leaves |
| PlacementStability.OwnersStayExactly | internal/gnmic/placement_blrh.go:74-100 | All owners on surviving pods stay if and only if no surviving pod owns more than the capacity |
| PlacementStability.SecondPodMovesTargets | internal/gnmic/placement_blrh.go:55-60 | Growing from one pod to two at the default capacity always moves a target of the first pod |
| PlacementStability.UnderloadedPodsKeepAll | internal/gnmic/placement_blrh.go:80-98 | An owner on a pod that is not over capacity does not move |
| PlacementStability.CeilingDivisionAntitone | internal/gnmic/placement_blrh.go:59 | Fewer pods never lower the default capacity |
| PlacementStability.ScaleDownMovesNoSurvivor | internal/gnmic/placement_blrh.go:55-100 | Removing pods at the default capacity moves nothing off the pods that remain |
| PlacementStability.Fixpoint | internal/gnmic/placement_blrh.go:74-113 | Feeding a result back with the same inputs gives the same placement |
| PlacementStability.UnpressedIsArgmax | internal/gnmic/placement_blrh.go:102-142 | With room for everybody and no owners, placement is plain argmax hashing |
| PlacementStability.UnpressedTakesHighestScore | internal/gnmic/placement_blrh.go:119-142 | Then no pod scores higher than the target's own, and none as high has a lower index |
| PlacementStability.MinimalDisruption | internal/gnmic/placement_blrh.go:102-142 | Then adding pod k moves targets only onto pod k, exactly those that rank it first, and removing it moves only its targets |
| PlacementDeterminism.EnvylessIsUnique | internal/gnmic/placement_blrh.go:102-113 | For given kept owners the rule has only one solution |
| PlacementDeterminism.DeterminedExactlyWithoutCutTies | internal/gnmic/placement_blrh.go:80-98 | All outcomes agree if and only if no surviving pod has a tie in score across its capacity cut |
| Distribute.DistributePlan | internal/gnmic/distribute.go:17-69 | Returns the report of the outcome for the recorded owners, listed in name order, and the given sort |
| Distribute.PlansPerPod | internal/gnmic/distribute.go:40-55 | Each pod of the placement gets exactly its targets with their configurations |
| Distribute.ListOwners | internal/gnmic/distribute.go:21-29 | The owners of each pod as a sorted list; no entry for a pod without owners |
| Distribute.DistributionConserves | internal/gnmic/distribute.go:40-68 | Pod plans and the unassigned list partition the plan, with configurations intact, and the list is as short as capacity allows |
| Distribute.CapacityBoundsPods | internal/gnmic/distribute.go:31-37 | No pod plan has more targets than the configured pod capacity, or its share rounded up without one or with zero |
| Distribute.CapacityDecidesUnassigned | internal/gnmic/distribute.go:31-68 | With a configured capacity c > 0 the unassigned list has targets - pods x c names, or none if they fit; without one it is empty |
| Distribute.VisitOrderIsInvisible | internal/gnmic/distribute.go:21-68 | For one sorting procedure any two results of the distribution are equal, whatever order the maps are visited in |
| Distribute.StaleNamePlannedExactly | internal/gnmic/placement_blrh.go:87-98 | A name outside the plan can be placed exactly when it is recorded on a surviving pod with fewer owners above it than fit |
| StaleTargets.StaleTargetIsSent | internal/gnmic/plan.go:180-193 | A target with a pod in its status and no profile is recorded, not planned, sent to the pod without a configuration, and displaces a planned target |
| PodNames.FindCurrentAssignment | internal/gnmic/plan.go:252-270 | The backward scan and Atoi give the number after the last dash, or nothing |
| PodNames.OrdinalRoundTrip | internal/controller/targetstate_controller.go:156 | A printed pod name reads back as its ordinal, whatever the stateful set is called |
| PodNames.OrdinalReadExactly | internal/gnmic/plan.go:257-269 | An ordinal is read exactly from names with a numeral for it behind the last dash |
| PodNames.AtoiExactly | internal/gnmic/plan.go:265-268 | A numeral is exactly an optional sign and at least one digit, within 64 bits |
| ClosedLoop.RecordIsClean | internal/gnmic/plan.go:179-194 | What is recorded never has a target on two pods, given one object per name, and stays in the plan if all targets are planned |
| ClosedLoop.StatusReadsBack | internal/gnmic/plan.go:252-270 | The owners rebuilt from reported status are the placement that was pushed |
| ClosedLoop.ReconcileIsFixpoint | internal/gnmic/distribute.go:17-69 | Reconciling again after the pods have reported gives the same targets per pod and the same unassigned list |
| Ports.ProbePool | internal/gnmic/plan.go:486-492 | The probe loop returns the first free slot of the probe sequence |
| Ports.PlaceAll | internal/gnmic/plan.go:477-500 | The loop over the sorted names is the fold that enters them one by one |
| Ports.AssignPorts | internal/gnmic/plan.go:467-503 | All four results: the error exactly for a range that is not positive, the panic exactly for one slot and some name, no ports for no names, otherwise the table |
| Ports.LoneName | internal/gnmic/plan.go:478-499 | A name alone gets the base port plus its hash modulo the pool size |
| Ports.ProbingExactUpTo46341 | internal/gnmic/plan.go:487 | 32-bit probing equals exact probing for every start and step if and only if the pool has at most 46341 slots |
| Ports.PrimeProbesDiffer | internal/gnmic/plan.go:486-492 | In a prime pool a probe sequence never repeats a slot |
| Ports.PrimePool | internal/gnmic/plan.go:467-503 | In a prime pool of at most 46341 slots distinct names get ports if and only if there are not more of them than slots, and the ports are distinct and in range |
| Ports.PrometheusPool | internal/gnmic/output.go:26-30 | The pool in use serves up to 1009 outputs on ports 9804 to 10812 |
| Ports.PortsOrderBlind | internal/gnmic/plan.go:472 | The order of the names does not matter |
| PortPrimality.FullLoadExactlyWhenPrime | internal/gnmic/output.go:29 | A pool of at most 46341 slots serves every full load under every hash if and only if its size is prime |
| PortPrimality.CompositePoolFails | internal/gnmic/plan.go:486-496 | In a pool of size b x d, up to 46341, some hash leaves b + 1 names without ports although slots are free |
| PortOverflow.PortsStayInRangeExactly | internal/gnmic/plan.go:486-499 | Ports lie in the range under every hash if and only if the pool has at most 46341 slots |
| PortOverflow.LeavesRange | internal/gnmic/plan.go:487 | In a larger pool some hash makes a probe overflow and gives a port below the range |
| NumberTheory.Euclid | internal/gnmic/output.go:29 | Euclid's lemma, on which the probe sequence rests |
| NumberTheory.Prime1009 | internal/gnmic/output.go:29 | The pool size is prime |
| PlanRelations.Relate | internal/gnmic/plan.go:156-163 | Enters one pipeline's names beside each of its keys and changes nothing else |
| PlanRelations.AppendAll | internal/gnmic/plan.go:220-227 | Appends the names, in their order and with repetition, to the list of each key, and changes nothing else |
| PlanRelations.RecordOwners | internal/gnmic/plan.go:179-194 | Adds exactly the targets whose status names a pod, under its ordinal |
| PlanRelations.CollectOne | internal/gnmic/plan.go:149-244 | One pass enters the pipeline in all five relations, each processor once in the list of each of its outputs or inputs |
| PlanRelations.ExtendedByOne | internal/gnmic/plan.go:149-244 | One pass extends the union by one pipeline, whichever it is |
| PlanBuilding.PlanBuilder.CollectRelationships | internal/gnmic/plan.go:148-245 | Extends the relations by the union over all pipelines, every processor list by one occurrence per pipeline that holds both, and records every owner |
| PlanBuilding.PlanBuilder.BuildTargets | internal/gnmic/plan.go:272-311 | Adds the pipeline's targets that have a profile and are not there yet, and nothing else; fails exactly when needed credentials of one of them cannot be fetched |
| PlanBuilding.PlanBuilder.BuildSubscriptions | internal/gnmic/plan.go:313-331 | Adds the pipeline's subscriptions with all their outputs |
| PlanBuilding.PlanBuilder.BuildOutputs | internal/gnmic/plan.go:333-355 | Adds the pipeline's outputs with all their processors; fails exactly when the configuration of one that is not there yet does not parse |
| PlanBuilding.PlanBuilder.BuildInputs | internal/gnmic/plan.go:357-382 | Adds the pipeline's inputs with all their outputs and processors; fails exactly when the configuration of one that is not there yet does not parse |
| PlanBuilding.PlanBuilder.BuildProcessors | internal/gnmic/plan.go:384-412 | Adds the configuration of each new output or input processor, an output processor before an input processor of the same name; fails exactly when a new one does not parse |
| PlanBuilding.PlanBuilder.BuildTunnelTargetMatches | internal/gnmic/plan.go:414-445 | Adds the pipeline's policies that have a profile, with that profile; fails exactly when needed credentials of a new one cannot be fetched |
| PlanBuilding.PlanBuilder.AssignPrometheusOutputPorts | internal/gnmic/plan.go:447-465 | Enters exactly the ports of the pipeline, which are distinct right after the pass; every reported port of the plan is the one its output listens on; fails exactly above 1009 outputs |
| PlanBuilding.PlanBuilder.PortsFor | internal/gnmic/plan.go:448-458 | Fails exactly for more than 1009 Prometheus outputs in one pipeline, and otherwise gives the pipeline's port table |
| PlanBuilding.PlanBuilder.BuildPipeline | internal/gnmic/plan.go:111-142 | Succeeds exactly when everything new in the pipeline can be added; one pass then adds it to every section and keeps what is there |
| PlanBuilding.PlanBuilder.BuildAll | internal/gnmic/plan.go:111-143 | After the passes, in any order, every section is built for exactly the pipelines and the ports are the tables laid over one another in that order; fails only if some pipeline is not buildable |
| PlanBuilding.PlanBuilder.Build | internal/gnmic/plan.go:96-146 | Given one object per name, a plan is returned if and only if all configurations parse, all needed credentials can be fetched and no pipeline has more than 1009 Prometheus outputs; the plan has every section built for exactly the added pipelines |
| PlanBuilding.BuiltMeansBuildable | internal/gnmic/plan.go:272-445 | What has been built says of each pipeline, visited at any time, that it was buildable, if shared names denote the same objects |
| PlanPorts.PortsApartExactly | internal/gnmic/plan.go:447-465 | All ports of the plan are distinct in every visit order if and only if no two pipelines give different outputs one port, unless both outputs are in both pipelines |
| PlanPorts.SharedPortMeansClash | internal/gnmic/plan.go:455-462 | Two outputs with one port in the end come from two pipelines that clash |
| PlanPorts.SecondPipelineSharesPort | internal/gnmic/plan.go:459-462 | Two outputs of one pipeline on one port: a second pipeline moves one of them onto the other's |
| PlanBuilding.PlanIsExactUnion | internal/gnmic/plan.go:148-245 | For a fresh builder each list in the plan is the union over the pipelines that hold the resource, whatever order they are visited in |
| PlanBuilding.ProcessorsListedPerPipeline | internal/gnmic/plan.go:212-243 | For a fresh builder a processor is listed for an output or input exactly as often as there are added pipelines that hold both |
| PlanBuilding.PlannedExactly | internal/gnmic/plan.go:278-284 | A target is planned exactly when some pipeline holds it together with the profile it names, in its own namespace |
| PlanBuilding.TargetsUseOwnProfile | internal/gnmic/plan.go:278-307 | And then it is planned with that profile |
| PlanBuilding.MatchedExactly | internal/gnmic/plan.go:420-427 | A tunnel policy is matched exactly when some pipeline holds it together with the profile it names, in its own namespace |
| PlanBuilding.PoliciesUseOwnProfile | internal/gnmic/plan.go:420-441 | And then it is matched with that profile |
| PlanBuilding.PortsGoToPrometheus | internal/gnmic/plan.go:447-465 | The outputs with a port are exactly those of type prometheus; they listen on it, between 9804 and 10812, and no other output listens |
| PlanBuilding.PlanIsClosed | internal/gnmic/plan.go:272-412 | Every subscription, output and processor named in the plan is a key of the plan, and every port is listened on |
| Discovery.GenerateEvents | internal/controller/discovery/mapper.go:50-79 | Deletes for the existing names that disappeared, then applies in list order |
| Discovery.DeleteEventsAre | internal/controller/discovery/mapper.go:58-68 | The deletes are exactly the existing names that were not discovered, so no name is both deleted and applied |
| Discovery.LastEventDecides | internal/controller/discovery/message_processor.go:312-314 | The last event on a name decides, if its call succeeds, whatever other calls do |
| Discovery.SnapshotTouchesOnlyItsNames | internal/controller/discovery/message_processor.go:284-314 | Whatever calls fail, names outside the listing and the snapshot are untouched |
| Discovery.SnapshotWrites | internal/controller/discovery/mapper.go:15-47 | A name that occurs more than once ends with the resource of its last occurrence |
| Discovery.SnapshotFields | internal/controller/discovery/mapper.go:25-46 | Field by field: discovered address; discovered port, profile and labels where there are any, the source's otherwise; the source's name under its own label, and no other labels |
| Discovery.NormalizedFields | internal/controller/discovery/mapper.go:82-85 | Normalizing puts the source's name and a dash before the name and touches nothing else |
| Discovery.StoreConverges | internal/controller/discovery/message_processor.go:284-314 | With successful calls the objects labelled with the source are exactly the snapshot's names, vanished names are deleted, and all others are as before |
| Discovery.ConvergedFields | internal/controller/discovery/mapper.go:15-47 | The last report of each name has its object, with these fields, under the prefixed name |
| Discovery.OnlyOwnObjectsGo | internal/controller/discovery/client.go:25-32 | Of the objects not in the snapshot exactly those labelled with this source are gone; all others are as they were |
| Discovery.ReapplyIsNoOp | internal/controller/discovery/message_processor.go:328 | Applying the same snapshot again changes nothing |
| SnapshotProtocol.SnapshotStep | internal/controller/discovery/message_processor.go:141-221 | A snapshot message fails exactly when its chunk is refused and applies exactly when it is the last one missing; otherwise it is buffered and neither store nor count changes; a new snapshot drops the deferred events; the missing-chunk error never happens |
| SnapshotProtocol.FullBufferHasAll | internal/controller/discovery/message_processor.go:215-218 | As many chunks as expected, with indices in range, are all the chunks |
| SnapshotProtocol.RunKeepsInvariant | internal/controller/discovery/message_processor.go:79-97 | Between messages of any run a buffer is neither empty nor full and holds only indices in range |
| SnapshotProtocol.ApplicationsAreEarned | internal/controller/discovery/message_processor.go:183-221 | In any run an application is preceded by consecutive snapshot messages of one snapshot that cover each index once, and applies their targets in index order |
| SnapshotProtocol.RunSplit | internal/controller/discovery/message_processor.go:64-98 | Batches processed one after the other are one run of the queue |
| SnapshotProtocol.EventOutsideSnapshot | internal/controller/discovery/message_processor.go:231-242 | An event outside a snapshot leaves the prefixed name present with its fields after an apply, gone after a delete, and moves the count by one; nothing changes if the call fails |
| SnapshotProtocol.EventDuringSnapshot | internal/controller/discovery/message_processor.go:225-229 | An event during a snapshot only joins the deferred ones |
| Reassembly.CreateDiscoverySnapshots | internal/controller/discovery/loaders/utils/send.go:35-52 | The chunks are consecutive windows on the caller's array, as many as announced |
| Reassembly.WindowsAreApart | internal/controller/discovery/loaders/utils/send.go:41 | Different chunks do not overlap |
| Reassembly.ReassemblyRoundTrip | internal/controller/discovery/message_processor.go:183-276 | For any delivery order and any events in between, the snapshot is applied exactly once, on the last chunk, as the original list normalized |
| Reassembly.RunConverges | internal/controller/discovery/message_processor.go:64-98 | A run that delivers a snapshot ends with the store converged on it |
| DeferredEvents.EventsChangeExactly | internal/controller/discovery/message_processor.go:337-363 | A run of events changes the store exactly when the last event on some name would |
| DeferredEvents.DeferredEventsLostExactly | internal/controller/discovery/message_processor.go:316-333 | The processor ends in the documented store if and only if the last event on each name is harmless: a delete of a name outside the snapshot that belongs to the source or to nobody, or an apply of what the snapshot says anyway |
| DeferredEvents.DeleteIsLost | internal/controller/discovery/message_processor.go:226-229 | A delete between two chunks is lost |
| MessageProcessing.NormalizeInPlace | internal/controller/discovery/message_processor.go:118-120 | Normalizes the elements of one slice and no other element of the array |
| MessageProcessing.Client.FetchExistingTargets | internal/controller/discovery/client.go:17-38 | Exactly the labelled names, or none if the call fails |
| MessageProcessing.Client.ApplyEvent | internal/controller/discovery/message_processor.go:337-363 | One event changes one object, or nothing if the call fails |
| MessageProcessing.MessageProcessor.ApplySnapshot | internal/controller/discovery/message_processor.go:248-335 | Refines the value-level step: store, counter, buffer and deferred events |
| MessageProcessing.MessageProcessor.ReplayDeferred | internal/controller/discovery/message_processor.go:316-326 | The replay appends every deferred event to the queue a second time |
| MessageProcessing.MessageProcessor.ProcessEvent | internal/controller/discovery/message_processor.go:224-245 | Defers during a snapshot, applies and counts otherwise |
| MessageProcessing.MessageProcessor.CollectSnapshot | internal/controller/discovery/message_processor.go:183-221 | Refines the value-level step on chunks that alias the sender's array |
| MessageProcessing.MessageProcessor.StartNewSnapshot | internal/controller/discovery/message_processor.go:170-181 | Refines the value-level step |
| MessageProcessing.MessageProcessor.ProcessSnapshot | internal/controller/discovery/message_processor.go:141-168 | Refines the value-level step |
| MessageProcessing.MessageProcessor.ProcessMessage | internal/controller/discovery/message_processor.go:102-138 | The chunk's slice ends normalized, nothing else in its array and nothing buffered is disturbed, and the message takes the value-level step |
| MessageProcessing.MessageProcessor.ProcessQueue | internal/controller/discovery/message_processor.go:79-97 | Draining the queue is the value-level run of the messages as they were when queued, and when none fails every queued chunk has been normalized where it lies exactly once |
| Delivery.WindowsAreSound | internal/controller/discovery/loaders/utils/send.go:36-52 | The sender's chunks, in any order, meet what the queue loop needs |
| Delivery.Deliver | internal/controller/discovery/loaders/utils/send.go:55-72 | From array to processor: for any delivery order each element of the loader's array is prefixed exactly once and the processor has reconciled exactly that list |
| Delivery.DeliverToStore | internal/controller/discovery/message_processor.go:48-99 | From array to store: with successful calls the store has converged on the loader's list, every last report has its object with its fields, and the count is the number of reports |
| TargetStatus.ComputeStatusSummary | internal/controller/targetstate_controller.go:421-439 | Count; READY iff there is a cluster and all are running and READY; DEGRADED iff some is not; empty iff there is none |
| TargetStatus.SummaryIsUnique | internal/controller/targetstate_controller.go:415-420 | The map determines the summary |
| TargetStatus.ChangeIsLocal | internal/controller/targetstate_controller.go:387-398 | A write puts its value under its own cluster's key, or removes it, and changes no other key |
| StatusWriters.RunKeeps | internal/controller/targetstate_controller.go:353-413 | The invariant of all interleavings of any number of writers |
| StatusWriters.NoLostUpdates | internal/controller/targetstate_controller.go:373-413 | After any run, with reads as old as one likes, a target's cluster states are the fold of all committed writes in commit order, and the summary matches them |
| StatusWriters.WriterOutcome | internal/controller/targetstate_controller.go:353-413 | A writer commits at most once, exactly when it succeeds; it gives up only after five refused attempts, each with a copy older than the store; these are five changes made since it started if no read lagged behind |
| StatusWriters.StepIsLocal | internal/controller/targetstate_controller.go:383-402 | A step changes the entries of no cluster but that of the write it commits |
| StatusServer.CommitSound | internal/controller/targetstate_controller.go:402-409 | Every stored version of every object keeps agreeing with the history up to its moment |
| StatusServer.SameVersionIsSame | internal/controller/targetstate_controller.go:402-409 | A copy has the current version exactly when it is the current object |
| StatusServer.RefusalsAreChanges | internal/controller/targetstate_controller.go:373-413 | With reads that do not lag, each refusal is a change of its own |
| StatusCleanup.CleanupRemovesForeignExactly | internal/controller/targetstate_controller.go:310-349 | At whichever attempt a cleanup goes through, it removes another pod's entry if and only if another pod has put its entry since the listing and nothing has overridden it |
| StatusCleanup.FirstAttemptRemovesOwn | internal/controller/targetstate_controller.go:310-349 | So a cleanup that goes through at once removes the entry of the pod it listed |
| StatusCleanup.CleanupCanRemoveForeignEntry | internal/controller/targetstate_controller.go:327-349 | From any state in which a cleanup can start there is a run in which it removes an entry put there since |
| StatusCleanup.CommittedStore | internal/controller/targetstate_controller.go:402-409 | An update with the current version goes through: the object then holds the changed states under the next version |
| StatusCleanup.OneChangeCanUseUpAttempts | cmd/main.go:201-202 | A cache that lags behind a single change makes a writer give up |
| StatusUpdate.Server.Update | internal/controller/targetstate_controller.go:402-409 | Refused exactly on a version that is not current, otherwise one committed write computed from the current object |
| StatusUpdate.HandleEvent | internal/controller/targetstate_controller.go:356-413 | Commits at most once, on top of all earlier writes, exactly when it reports success, and the object then has the change; fails only if a call failed or the object was gone, not found only if a read missed it, gives up exactly after five refused attempts with stale copies; with no such trouble and one undisturbed attempt it commits |
| StatusUpdate.Cleanup | internal/controller/targetstate_controller.go:472-494 | The same for the cleanup loops, which start from a listed copy |
| Streams.PrefixIsExact | internal/controller/targetstate_controller.go:442-450 | For names without slashes the prefix test finds the cluster's own keys and no others |
| Streams.KeysAreInjective | internal/controller/targetstate_controller.go:651-653 | Different pods have different keys |
| Streams.KeyNamesPod | internal/controller/targetstate_controller.go:651-653 | A key is the prefix and a numeral that reads back as the pod's index |
| Streams.PrefixFindsExactly | internal/controller/targetstate_controller.go:442-450 | For any names at all, the test finds another cluster's keys exactly when the one's prefix begins the other's |
| Streams.TargetStateReconciler.StopStreamsForCluster | internal/controller/targetstate_controller.go:442-450 | Cancels and removes all keys under the prefix; none of the contexts they had still runs, and running contexts are exactly those in the table |
| Streams.TargetStateReconciler.StartStreams | internal/controller/targetstate_controller.go:127-142 | Adds one stream per desired pod, each in a new context |
| Streams.TargetStateReconciler.Reconcile | internal/controller/targetstate_controller.go:77-145 | In all branches: which keys remain, what is untouched, and that running contexts are exactly those in the table; a successful reconcile restarts every stream of the cluster in a new context and leaves none of the old ones running |
| Streams.TableMeansPods | internal/controller/targetstate_controller.go:118-142 | After a successful reconcile pod i has a stream if and only if i < replicas, and other clusters' streams are the same ones |
| WatchMap.PipelineReferencesResource | internal/controller/cluster_controller.go:1214-1264 | True exactly for a direct reference or a selector that compiles, is not empty and matches |
| WatchMap.FindClusters | internal/controller/cluster_controller.go:1184-1211 | Exactly the clusters of enabled pipelines that reference the resource |
| WatchMap.ListPipelinesForCluster | internal/controller/cluster_controller.go:2234-2248 | The enabled pipelines of the cluster in list order |
| WatchMap.Resolve | internal/controller/cluster_controller.go:2308-2349 | Without duplicates, exactly the existing objects referenced or selected; fails exactly for a selector that does not compile |
| WatchMap.ClusterResolvesMeans | internal/controller/cluster_controller.go:2234-2248 | A cluster resolves an object exactly when one of its enabled pipelines does |
| WatchMap.WakesExactlyResolvers | internal/controller/cluster_controller.go:1184-1264 | A change wakes every cluster that resolves the object and, if selectors compile, no other |

## Left out

- Hash values: FNV-1a and its formatting of scores are parameters; nothing but determinism is used.
- Go integer overflow of capacities, chunk arithmetic and ordinals beyond 64 bits, except where port probing and the 32-bit target counter make it explicit.
- Distribute.DistributionConserves: requires that no target is recorded on two pods and that recorded ones are planned, which the code does not check; `ClosedLoop.RecordIsClean` derives the first, `Distribute.StaleNamePlannedExactly` covers the second.
- PlanBuilding.PlanBuilder.CollectRelationships: says which processors are listed, not in which order pipelines and processors come, since the code takes both orders from map iterations.
- PlanBuilding.PlanIsExactUnion: is about a fresh builder; a second `Build` on the same builder extends the relations again, as `PlanBuilding.PlanBuilder.Build` states, and repeats processor names in the lists.
- Ports.PrimePool: is about pools of at most 46341 slots, beyond which ports leave the range (`PortOverflow.PortsStayInRangeExactly`) and it is not said which loads are served.
- PortPrimality.FullLoadExactlyWhenPrime: is about pools of at most 46341 slots for the same reason; the pool in use has 1009.
- PortPrimality.CompositePoolFails: likewise.
- PlanBuilding.PlanBuilder.AssignPrometheusOutputPorts: distinctness is what one pass leaves; a later pass can undo it, as `PlanPorts.PortsApartExactly` says.
- Plan sections that only copy fields: contents of target, subscription, output, input and tunnel match configurations, TLS paths, stream subscriptions and resolved output addresses. Whether raw configuration parses and whether credentials can be fetched are parameters.
- Relations whose values are Go sets are `set` values; building stream URLs, which cannot fail, is not modelled.
- Discovery.SnapshotWrites: the address of a Target object is kept as host and port; joining them into one string is left to the Go library.
- Kubernetes calls: which call succeeds is a parameter, and a failed call leaves the object as it was; finalizers, owner references and the status of the TargetSource are not modelled.
- MessageProcessing.MessageProcessor.ProcessQueue: drains one queue and takes queued slices not to overlap each other or buffered ones, which `Delivery.WindowsAreSound` derives from the sender; the receive loop around it is covered by `SnapshotProtocol.RunSplit`. Context cancellation ends a run and is not modelled inside an apply. Unknown message and event kinds are absent.
- StatusWriters.NoLostUpdates: a status update that changes nothing is still a new version; subscriptions and timestamps of an entry are not modelled; timing, ticker and backoff are left out. A cache may show any earlier moment, also one before what it showed last.
- Which targets a poll reports, parsing of "namespace/name" and of event payloads: each write is one action of a writer with its change given.
- WatchMap.WakesExactlyResolvers: covers targets, subscriptions, outputs, inputs and tunnel target policies; processors resolve without removing duplicates and keep the order of references, and target profiles are watched by other code. What a label selector matches is a parameter, and resolving assumes that reads and listings succeed.
- TargetSource lifecycle, loaders, HTTP pagination, webhooks, StatefulSet, Service, ConfigMap and certificate building, Prometheus service reconciliation.
