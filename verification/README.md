# Verified model of the authoritative world server

This project models the state machines and integer algorithms that the server and its protocol
client rely on, and proves what their documentation and tests promise of them. Code that updates
objects in place is a class whose methods are proved against a specification on values; the
theorems about runs, round trips and conservation are lemmas about those specifications.

`dafny verify dfyconfig.toml` checks the whole project.

## What is modelled

| component | modules | main results |
|---|---|---|
| Frontier and preparation protocol | `Lattice`, `Frontier`, `CandidateFrontier`, `FrontierReveal`, `QuadrantPreparation`, `FrontierRuntimes`, `PreparationProtocol`, `PreparationRuns`, `PreparationOrphans`, `PreparationBackoff`, `PreparationQueues`, `FrontierAnswers`, `PreparationScheduling` | the revealed region stays connected and ringed along every run; the scheduler, the bounded queues and the worker tasks lose or double no reservation in any interleaving; a failed quadrant waits out its backoff and is then reserved at its turn; an evaluation of the imperative scheduler is exactly a path of the protocol |
| Acknowledgement barrier | `FrontierSync`, `FrontierDelivery`, `DeliveryTiming`, `FrontierBarrier`, `PresentationDelivery`, `SessionRuntimes` | no intent is routed under a stale frontier; the revision-divergence branches are unreachable; retries are numbered, bounded and sent exactly when due |
| Intent admission | `Replay`, `SessionIngress`, `SessionAdmission` | the 64-bit window refines the set of accepted sequences; a move is admitted exactly from an active session with a sequence above all it was offered; intents leave in order with one identity |
| Hydrology | `HydrologyField`, `Lakes`, `Rivers`, `WaterLaws`, `TerrainIntegration` | the neighbourhood searches answer the unbounded ones; a lake hides a river, and the first that reaches a point is its water; rivers are connected and flow down; carved quadrants still agree on shared edges |
| Inventory of a zone | `GridIndex`, `InventoryGrids`, `MapTotals`, `InventoryLedger`, `InventoryEffects`, `LedgerLosses` | cells and placements agree exactly; when each intent succeeds and what it then changes; quantities are conserved over any run up to decay |
| Bags of a character | `Containers`, `FreeSlots`, `SlotSearch`, `ContainerPacking`, `ContainerSorting`, `ContainerEffects`, `SortOrder`, `SortLayouts`, `SquareLayouts`, `DepositOutcome`, `ContainerForest`, `ContainerWeights`, `ContainerTrees` | first-fit search is sound, complete and first; stacks fill in order and a sort places in one order; exact quantity ledgers; exactly when sorting and depositing conserve; the forest stays acyclic and its weight is well defined and monotone |
| Movement and prediction | `MachineInts`, `CarriedDivision`, `Movement`, `Traversal`, `ZoneMovement`, `Reconciliation`, `HeldPrediction`, `ReplayMeaning`, `Prediction`, `HeldDisplacement`, `PredictionAgreement` | the root is exact; normalised axes keep direction and magnitude within three units; displacement is within 1 mm of exact; collision stops at the farthest clear point; the client predicts what the server does |
| Wire codecs | `WireBytes`, `FrontierManifestCodec`, `TerrainAuthorityCodec`, `WaterSurfaceCodec`, `EnvironmentPresentationCodec` | which byte of a payload holds which digit of which field; both round trips, and rejection of every proper prefix or extension |

Machine integers are ranges of `int`; every wrap, saturation and truncating division of the code is
written out. Where an unchecked operation would wrap, the model wraps, as an optimized build does.
Time is a natural number that never decreases, channels are bounded sequences, and map iteration
picks an arbitrary remaining key.

## Properties that hold only under a condition

The code is modelled as it is; where a promise fails, the exact condition is proved.

- Retries end after `max_retry_attempts` + 1 failures, except for a limit of 2^32 - 1, which the
  saturating counter never exceeds (`PreparationRuns.ExhaustedIff`). The server's configuration admits
  only 1 to 32 (crates/config/src/lib.rs:160), so the exception is out of a configured server's reach.
- At most one river covers a point, and the search over three bands answers for all of them, except near
  both ends of the 64-bit coordinates, where the centre is clamped (`Rivers.AtMostOneRiverIffInland`,
  `SearchExactIffInland`).
- `can_place_at` accepts an empty rectangle that overhangs a grid 255 cells wide or high
  (`InventoryGrids.GridView.PlaceableIff`); placing an id that is already placed keeps cells and
  placements in agreement only under the condition of `PlacingTwiceAgreesIff`.
- `find_free_slot` is exact if and only if no 8-bit sum of position and side wraps, or an empty item
  fits at the origin (`SlotSearch.SearchExactIff`).
- `auto_sort` keeps the items if and only if they have a first-fit layout in the sort's order
  (`SortLayouts.SortConservesIff`). `SortLosesAnItem` is a packed grid that loses one; squares of one side
  never do (`SquareLayouts.SquaresAlwaysSort`).
- `deposit_matching` conserves quantities if and only if the first matching item that the target refuses
  merges in no part (`DepositOutcome.DepositMatchingConservesIff`). `DepositDuplicates` makes fifteen of
  fourteen.
- The sum over a container's items is 32 bits wide and wraps. An insert lowers no weight anywhere if and
  only if the sum does not fall by wrapping, or the container's weight is flat from the fallen sum on
  (`ContainerForest.NeverLowersWeightIff`, with a concrete insert in `WrappingInsertLowersWeight`).
- Storing an item or bag under a used id loses what was there. An intent loses something if and only if
  it passes its guards and stores over something (`LedgerLosses.LosesIffOverwrites`, with an input for
  each of the three ways); with fresh ids nothing is lost (`InventoryLedger.FreshLosesNothing`).
- Normalised axes are truncated after a rounded-up root: an axis loses less than two units and the
  magnitude less than three, and no smaller whole bounds hold (`Movement.LosesMoreThanOneUnit`,
  `LosesMoreThanTwoUnits`).
- The encumbrance tiers compare whole percents, so each limit named beside them (50, 80 and 100 percent
  of the capacity, crates/domain/src/containers.rs:48-53) is only passed one whole percent later
  (`ContainerWeights.TierMeaning`).
- The client's pending inputs stay above the last ACK if and only if no ACK came before the first send
  (`Reconciliation.SendKeepsSoundIff`), and such an ACK can come (`AckBeforeSendHappens`).

## Model

| member | source | states |
|---|---|---|
| `PreparationRuns.PipelineHoldsReservations` | crates/preparation/src/lib.rs:150-291 | in every interleaving of scheduler, worker and tasks, an identity occurs at most once in the request queue, the tasks, the worker's hand and the result queue, and then its quadrant is a Candidate whose slot is in flight for that very identity |
| `PreparationRuns.OnlyALostWorkerBails` | apps/world-server/src/preparation_scheduler.rs:360-464 | the bail branches of result handling and of the rollback are unreachable in every run: an evaluation gives up only because the worker dropped its end of the queue it needs |
| `PreparationRuns.BudgetHolds` | apps/world-server/src/preparation_scheduler.rs:501-510 | prepared plus in-flight quadrants never exceed `max_prepared_quadrants`, in every reachable state |
| `PreparationRuns.FailuresBounded` | apps/world-server/src/preparation_scheduler.rs:419-437 | no quadrant fails more than `max_retry_attempts` + 1 times in a run, and after the last failure it is neither in flight nor allowed again; for every limit below 2^32 - 1, so for every limit a server accepts |
| `PreparationRuns.ExhaustedIff` | apps/world-server/src/preparation_scheduler.rs:419-432 | after n failures in a row the retry entry is exhausted if and only if n exceeds the limit and the limit is not 2^32 - 1, where the saturating counter can never exceed it |
| `PreparationBackoff.FailureWaitsBackoff` | apps/world-server/src/preparation_scheduler.rs:419-432 | over every run: when a failure of a quadrant is committed at instant t, whatever happens in between, a later reservation of it comes at t plus the backoff at the earliest |
| `PreparationBackoff.ReservedIffDue` | apps/world-server/src/preparation_scheduler.rs:604-608 | over every run: the quadrant whose turn it is gets reserved if and only if it is free, has not failed more than the limit allows, and each of its failures so far is at least a backoff old, told from the instants at which failures were committed; otherwise the scheduler passes on and changes nothing else |
| `PreparationBackoff.EvaluationOpens` | apps/world-server/src/preparation_scheduler.rs:501-521 | an evaluation goes on over all Candidates in row-major order with the largest number of submissions that keeps both limits, or not at all when that is none |
| `PreparationQueues.QueuesKeepOrder` | crates/preparation/src/lib.rs:150-293 | in every run no queue exceeds its capacity and no more tasks run than allowed; while the worker runs, the requests it took are those that were sent, in order, and the rest still wait; results are committed in the order in which they were delivered, none lost and none twice |
| `PreparationQueues.EvaluationAdmits` | apps/world-server/src/preparation_scheduler.rs:514-602 | one evaluation admits at most `max_submissions_per_tick` quadrants, submissions and duplicates together, and stops looking at candidates only when it has seen all, its budget is used up or a submission found no room |
| `PreparationOrphans.DuplicateIff` | crates/preparation/src/lib.rs:150-170 | in every state in which the scheduler is about to submit, whether the worker is at work, ending or gone: a submission is answered `Duplicate` exactly while the worker has sent that identity's event and not yet taken it out of the outstanding set (the two separate steps at lines 284-285) |
| `PreparationOrphans.RunHasOnlyOrphans` | crates/preparation/src/lib.rs:236-293 | whatever is left in the outstanding set of a worker that is ending or gone stays in flight for good: no event about it is on its way, and the scheduler is not submitting it again |
| `PreparationProtocol.CompletionCommits` | apps/world-server/src/preparation_scheduler.rs:377-405 | a completion taken from the queue always finds its terrain and its reservation: the quadrant becomes Prepared, the retry entry goes, the public revision stays |
| `PreparationProtocol.FailureReleases` | apps/world-server/src/preparation_scheduler.rs:407-437 | a failure taken from the queue always finds the reservation it gives back |
| `PreparationProtocol.AdvanceOutcome` | apps/world-server/src/preparation_scheduler.rs:519-535 | a listed candidate with a free slot is reserved under its own identity; a taken slot already holds that identity |
| `PreparationProtocol.CancelOutcome` | apps/world-server/src/preparation_scheduler.rs:563-598 | rolling back a reservation that could not be queued removes exactly that reservation |
| `PreparationScheduling.EvaluationDeterministic` | apps/world-server/src/preparation_scheduler.rs:347-358 | with the worker standing still, where an evaluation comes to rest is a function of where it began |
| `PreparationScheduling.WorkerStepsDecide` | apps/world-server/src/preparation_scheduler.rs:347-358 | with worker and tasks stepping in between, the state after any number of steps is a function of where the evaluation began, of the worker's steps and of their places among the others |
| `PreparationScheduling.SchedulerDeterministic` | apps/world-server/src/preparation_scheduler.rs:360-602 | inside an evaluation every step of the scheduler has exactly one outcome |
| `PreparationScheduling.PreparationScheduler.Spawn` | apps/world-server/src/preparation_scheduler.rs:208-239 | a fresh scheduler is an initial state of the protocol |
| `PreparationScheduling.PreparationScheduler.WorkerMoves` | crates/preparation/src/lib.rs:236-293 | worker and tasks may step at any moment; the scheduler stays in a state of the protocol |
| `PreparationScheduling.PreparationScheduler.CommitReveal` | apps/world-server/src/frontier_runtime.rs:131-138 | a reveal between evaluations keeps the scheduler in a state of the protocol |
| `PreparationScheduling.PreparationScheduler.CountFailure` | apps/world-server/src/preparation_scheduler.rs:419-432 | one failure updates the retry entry as the protocol says; `PreparationBackoff` says what that means for later evaluations |
| `PreparationScheduling.PreparationScheduler.HandleOne` | apps/world-server/src/preparation_scheduler.rs:372-461 | committing one event moves the state exactly as the protocol's `Handled`, and never fails |
| `PreparationScheduling.PreparationScheduler.ConsumeResults` | apps/world-server/src/preparation_scheduler.rs:360-464 | drains the queue along the protocol's path, counts completions and failures exactly, and fails if and only if the worker is gone |
| `PreparationScheduling.PreparationScheduler.TrySubmit` | crates/preparation/src/lib.rs:150-170 | Duplicate if and only if outstanding, Submitted if and only if new and the queue has room; a refused identity is not left outstanding, and the request queue grows by exactly the submitted one |
| `PreparationScheduling.PreparationScheduler.Rollback` | apps/world-server/src/preparation_scheduler.rs:563-598 | after backpressure the reservation is gone and the scheduler rests, after a closed queue it bails |
| `PreparationScheduling.PreparationScheduler.ScheduleCandidates` | apps/world-server/src/preparation_scheduler.rs:495-602 | admits along the protocol's path, at most the budget, and appends exactly the submitted identities to the queue; which quadrants of the path are reserved is `PreparationBackoff.ReservedIffDue` |
| `PreparationScheduling.PreparationScheduler.Evaluate` | apps/world-server/src/preparation_scheduler.rs:347-358 | one evaluation is exactly the protocol's path from its beginning to its next rest, so the run laws of the protocol hold of it; its report counts what happened and obeys the budget; it fails only for a lost worker |
| `QuadrantPreparation.CompletionSucceedsIff` | crates/domain/src/quadrant_preparation.rs:177-209 | with slots that agree with the frontier, completing succeeds if and only if the slot of that identity is in flight, or already holds the same artifact |
| `QuadrantPreparation.AbandonUndoesRequest` | crates/domain/src/quadrant_preparation.rs:251-267 | abandoning what a request started restores the slots |
| `FrontierAnswers.SlotLifecycle` | crates/domain/src/quadrant_preparation.rs:151-267 | a free Candidate's slot through its life, call by call: taken once by one identity, which alone may ask again, finish or abandon it; the artifact that finishes it stays and no other replaces it; every refusal by name |
| `FrontierAnswers.RequestSucceedsIff` | crates/domain/src/quadrant_preparation.rs:151-175 | for any slots and frontier: a request succeeds exactly for the owner of the slot or a free Candidate, and abandoning fails exactly on another identity's slot |
| `QuadrantPreparation.RequestAgrees` | crates/domain/src/quadrant_preparation.rs:151-175 | a request keeps slots and frontier in agreement: in flight only on Candidates, ready only on Prepared or Revealed quadrants |
| `QuadrantPreparation.FinishAgrees` | crates/domain/src/quadrant_preparation.rs:177-209 | a completion keeps the agreement and touches neither the revealed quadrants nor the revision |
| `QuadrantPreparation.RevealAgrees` | crates/domain/src/quadrant_preparation.rs:151-209 | the agreement survives every reveal and derivation |
| `QuadrantPreparation.QuadrantPreparationState.Request` | crates/domain/src/quadrant_preparation.rs:151-175 | updates the slots as `Requested` says, or fails and changes nothing |
| `QuadrantPreparation.QuadrantPreparationState.Complete` | crates/domain/src/quadrant_preparation.rs:177-209 | updates slots and frontier together, or fails and changes neither |
| `QuadrantPreparation.QuadrantPreparationState.Abandon` | crates/domain/src/quadrant_preparation.rs:251-267 | updates the slots as `Abandoned` says, or fails and changes nothing |
| `Frontier.Rectangular` | crates/domain/src/frontier.rs:22-57 | succeeds exactly for dimensions in range whose far corner fits 64 bits, and then lists the rectangle row by row |
| `Frontier.RectangleConnected` | crates/domain/src/frontier.rs:22-57 | the initial rectangle is 4-connected |
| `Frontier.TransitionEffect` | crates/domain/src/frontier.rs:234-289 | a transition changes the phase of one quadrant only, and moves the revision by one exactly when it reveals |
| `FrontierAnswers.TransitionAnswers` | crates/domain/src/frontier.rs:234-289 | by the rank of the phases: standing still succeeds and changes nothing, one phase forward succeeds, every other move is refused; a reveal is also refused with 65535 quadrants revealed, and then at the last revision |
| `Frontier.FrontierState.Transition` | crates/domain/src/frontier.rs:234-289 | updates lifecycle map, revealed list, lookup set and revision together, or fails and changes nothing |
| `Frontier.FrontierState.QuadrantsInState` | crates/domain/src/frontier.rs:196-211 | lists exactly the quadrants in that phase, row-major whatever the map order |
| `CandidateFrontier.DeriveCandidateFrontier` | crates/domain/src/candidate_frontier.rs:31-55 | marks exactly the Potential neighbours of the revealed region, or, if and only if the region touches the coordinate limit, fails and changes nothing |
| `CandidateFrontier.DerivesUnique` | crates/domain/src/candidate_frontier.rs:31-55 | the outcome of a derivation does not depend on iteration order |
| `FrontierReveal.EvaluateEligibility` | crates/domain/src/frontier_eligibility.rs:86-110 | fails exactly when a requirement is unknown, and otherwise lists the unsatisfied ones |
| `FrontierReveal.CommitAuthoritativeReveal` | crates/domain/src/frontier_reveal.rs:27-62 | all or nothing: opens the quadrant if and only if it is Prepared, every requirement is met and the ring can be derived; the exact outcome is given for every phase; anything else leaves the state as it was |
| `FrontierRuntimes.RunKeepsInvariant` | apps/world-server/src/frontier_runtime.rs:86-142 | along every run of runtime calls the revealed region is 4-connected without duplicates, every neighbour of it is non-Potential, and every Candidate or Prepared quadrant touches it |
| `FrontierRuntimes.RunGrows` | crates/domain/src/frontier.rs:234-289 | between any two moments of a run the revealed list only grows, and the revision and its length rise by the number of reveals |
| `FrontierRuntimes.ActsKeepsInvariant` | apps/world-server/src/frontier_runtime.rs:86-142 | each single call keeps the invariant and moves the revision only by revealing |
| `FrontierRuntimes.InitialInvariant` | apps/world-server/src/frontier_runtime.rs:21-42 | a rectangle with its derived ring satisfies the invariant |
| `FrontierRuntimes.ManifestValidIff` | apps/world-server/src/frontier_runtime.rs:171-185 | in every reachable state the manifest is valid if and only if generator version and quadrant size are |
| `FrontierRuntimes.ManifestShowsRevealedOnly` | apps/world-server/src/frontier_runtime.rs:171-185 | two manifests are equal if and only if the revealed sets and revisions are: neither reveal order nor private preparation shows |
| `FrontierRuntimes.FrontierRuntime.Manifest` | apps/world-server/src/frontier_runtime.rs:140-142 | always succeeds |
| `FrontierRuntimes.FrontierRuntime.RequestPreparation` | apps/world-server/src/frontier_runtime.rs:91-99 | succeeds exactly for an identity of this generator that the slots accept; a failure changes nothing |
| `FrontierRuntimes.FrontierRuntime.CompletePreparation` | apps/world-server/src/frontier_runtime.rs:101-109 | succeeds exactly when slots and frontier accept the artifact; a failure changes nothing |
| `FrontierRuntimes.FrontierRuntime.AbandonPreparation` | apps/world-server/src/frontier_runtime.rs:111-129 | cancel and fail: removes the reservation or changes nothing |
| `FrontierRuntimes.FrontierRuntime.CommitReveal` | apps/world-server/src/frontier_runtime.rs:131-138 | reveals if and only if the quadrant is Prepared, eligible and its ring fits; otherwise changes nothing |
| `FrontierSync.OnlyCurrentAckSyncs` | apps/world-server/src/frontier_sync.rs:80-110 | only acknowledging the very revision a connection waits for lifts its barrier; no acknowledgement touches another connection or moves a revision |
| `FrontierAnswers.BarrierLifecycle` | apps/world-server/src/frontier_sync.rs:57-110 | a connection's barrier through its life, call by call: registration, acknowledgements of the awaited, an older, a newer and the zero revision before and after the barrier lifts, and marking all again; with every answer |
| `FrontierSync.FrontierSyncRegistry.RegisterPending` | apps/world-server/src/frontier_sync.rs:57-70 | a new connection starts behind the barrier; zero revisions and registered connections are refused |
| `FrontierSync.FrontierSyncRegistry.MarkAllPending` | apps/world-server/src/frontier_sync.rs:72-78 | every registered connection waits for the new revision; revision zero changes nothing |
| `FrontierSync.FrontierSyncRegistry.ApplyAck` | apps/world-server/src/frontier_sync.rs:80-110 | the outcome and the one entry it may change, for every case |
| `FrontierDelivery.RunRevisionEmits` | apps/world-server/src/frontier_delivery.rs:98-162 | in any run of the tracker, for each revision tracked for a connection and until it is tracked again: the connection is sent at most `max_retries` retries numbered from one, then at most one timeout, after which nothing; and nothing after its acknowledgement |
| `DeliveryTiming.SentExactlyWhenDue` | apps/world-server/src/frontier_delivery.rs:98-162 | over any run, an evaluation sends an open delivery exactly what is due: the timeout once the acknowledgement timeout has passed since the revision was tracked; before that the next retry once the interval has passed since it was last sent, while retries are left; otherwise nothing; told from the instants of the events |
| `FrontierDelivery.RunIsPerConnection` | apps/world-server/src/frontier_delivery.rs:98-162 | over any run, in whatever order each evaluation visits the map, the notices sent to a connection are those of its own delivery |
| `FrontierDelivery.StepIsPerConnection` | apps/world-server/src/frontier_delivery.rs:126-162 | the same for one event: what the tracker emits for a connection is decided by that connection's delivery alone |
| `FrontierDelivery.RunSilentUntilTracked` | apps/world-server/src/frontier_delivery.rs:111-124 | from any moment of a run at which a connection has no delivery, it is sent nothing until it is tracked again |
| `FrontierDelivery.FrontierDeliveryTracker.Evaluate` | apps/world-server/src/frontier_delivery.rs:126-162 | evaluates every delivery exactly once, with one action at most for each |
| `FrontierDelivery.FrontierDeliveryTracker.Acknowledge` | apps/world-server/src/frontier_delivery.rs:111-120 | removes the delivery exactly when the revision matches |
| `FrontierBarrier.RunKeepsBarrier` | apps/world-server/src/session_runtime.rs:294-305 | in every run each registered connection waits for or holds the authoritative revision; tracked deliveries carry that revision; a synced connection has none |
| `FrontierBarrier.SyncedMeansAcknowledged` | apps/world-server/src/session_runtime.rs:499-541 | a connection past the barrier acknowledged the revision that is authoritative now, and nothing was revealed since |
| `FrontierBarrier.RevealClosesEveryBarrier` | apps/world-server/src/session_runtime.rs:774-783 | a reveal puts every connection behind the barrier and tracks the new revision for each |
| `FrontierBarrier.ActionsAreCurrent` | apps/world-server/src/session_runtime.rs:662-730 | every retry and timeout is about the authoritative revision and a connection still waiting |
| `SessionRuntimes.SessionRuntime.Admit` | apps/world-server/src/session_runtime.rs:250-448 | succeeds exactly when no route, session or mapping of the two numbers is taken, neither is zero and, in development, the character has a zone, no connection yet and enters the world; an admitted connection starts pending and tracked at the authoritative revision, also when its character is then refused; a refused admission leaves sender, snapshot route, session mapping, registry and barrier as they were; the rollback of a failed activation is unreachable |
| `SessionRuntimes.SessionRuntime.MoveIntent` | apps/world-server/src/session_runtime.rs:449-484 | a move is ingested if and only if its connection is past the barrier; otherwise nothing changes |
| `SessionRuntimes.SessionRuntime.RouteAuthorizedIntent` | apps/world-server/src/session_runtime.rs:1147-1212 | a queued intent is handed to its zone exactly when its session is active and its connection has acknowledged the revision authoritative now; a full zone drops it, an unknown zone, refused axes or a closed zone is an error |
| `SessionRuntimes.RoutedIff` | apps/world-server/src/world_router.rs:104-116 | an intent reaches its zone exactly when the zone is known, neither axis is -32768 and the zone has room; it is dropped exactly when the zone is full; each error exactly when |
| `SessionRuntimes.SessionRuntime.ManifestAck` | apps/world-server/src/session_runtime.rs:489-541 | the two consistency checks of presentation delivery never fire; fails closed exactly for a zero or future revision, is stale exactly for an older one and repeated exactly past the barrier; the barrier after each |
| `SessionRuntimes.SessionRuntime.DeliverPresentation` | apps/world-server/src/session_runtime.rs:904-1145 | which of the two consistency checks fires when, stated for any caller; past them, all contracts are sent exactly when all are held and every send goes through, and a failing send cuts the connection off |
| `PresentationDelivery.SendContracts` | apps/world-server/src/session_runtime.rs:929-1145 | sends terrain before policy before water for each revealed quadrant in the manifest's order, up to the first send that fails or the first quadrant whose contracts are not held, and all of them exactly when there is neither |
| `PresentationDelivery.ContractsStand` | apps/world-server/src/session_runtime.rs:929-1145 | where each contract stands among those sent, by index: quadrant after quadrant, terrain first, its policy next, its water last |
| `SessionRuntimes.SessionRuntime.Isolate` | apps/world-server/src/session_runtime.rs:873-902 | an isolated connection is out of barrier and tracker, and its session is closing; fails exactly when a bound character does not leave the world |
| `SessionRuntimes.SessionRuntime.Disconnect` | apps/world-server/src/session_runtime.rs:543-601 | takes the connection out of barrier, tracker and registry exactly when it is known and its character leaves the world, and otherwise stops before it touches the barrier; succeeds exactly when the session was also the expected one |
| `SessionRuntimes.SessionRuntime.EvaluateDelivery` | apps/world-server/src/session_runtime.rs:662-730 | every retry is resent to a registered sender at the authoritative revision unless the send fails, every timeout cuts its connection, and exactly the failed sends are forgotten: the divergence branch is unreachable |
| `SessionRuntimes.SessionRuntime.CommitReveal` | apps/world-server/src/session_runtime.rs:742-783 | opens the quadrant exactly when it is Prepared, its requirements are met and there is room; then every barrier closes at the new revision, and any other outcome leaves all of it alone |
| `Replay.ObserveRefines` | crates/core/src/replay.rs:26-56 | bit d of the window is set exactly when highest - d was accepted, before and after; every decision is the true one; an accepted sequence is new |
| `Replay.NeverAcceptedTwice` | crates/core/src/replay.rs:26-56 | in any run of observations no sequence is accepted twice |
| `Replay.DecisionsAreExact` | crates/core/src/replay.rs:26-56 | new highest, duplicate, out of order and too old are told apart exactly, at distance 64 |
| `Replay.ReplayWindow.Observe` | crates/core/src/replay.rs:26-56 | the class updates the word and the highest sequence as `Observed` says |
| `SessionIngress.EmittedInOrder` | crates/session/src/ingress.rs:98-117 | whatever arrives in whatever order: intents of one registration reach the bounded queue with strictly increasing sequences and one identity, and leave it in that order |
| `SessionIngress.EmittedOnlyWhileActive` | crates/session/src/registry.rs:145-173 | an intent is emitted only from a session active in the world, carries the identity it was bound to, and has a new highest sequence |
| `SessionIngress.AuthorizedIsAhead` | crates/session/src/state.rs:185-207 | an authorized sequence exceeds everything emitted before for that session |
| `SessionAdmission.AdmittedIff` | crates/session/src/ingress.rs:98-117 | over any run, a move is admitted if and only if its session is active, its sequence is above every one offered to the session while active, and the queue has room; it then stands last in the queue under the bound identity; otherwise the answer says why and the queue stays |
| `SessionAdmission.PhaseChanges` | crates/session/src/state.rs:128-183 | the phase changes there are: authentication with an account, binding to character and zone, activation, each from the phase before it only, and closing from any; everything else changes nothing |
| `SessionAdmission.RegistrationStarts` | crates/session/src/registry.rs:43-65 | a registration succeeds exactly when neither number is in use or zero, and starts a session that has not authenticated and was offered nothing |
| `SessionIngress.IndexNeverInconsistent` | crates/session/src/registry.rs:43-82 | session and connection index never disagree: a lookup fails only for an unknown connection |
| `SessionIngress.RunKeepsInvariant` | crates/session/src/registry.rs:43-173 | the invariant of registry, windows and queue holds after any operations |
| `SessionIngress.SessionIntentIngress.Register` | crates/session/src/registry.rs:43-65 | refuses a known session or connection and otherwise adds a fresh session to both indices |
| `SessionIngress.SessionIntentIngress.Restate` | crates/session/src/registry.rs:84-119 | a phase change moves exactly one session or nothing |
| `SessionIngress.SessionIntentIngress.TryIngestMove` | crates/session/src/ingress.rs:98-117 | the window advances even when the full queue then refuses the intent, as in the code |
| `Movement.IntegerSqrtFloor` | crates/simulation/src/movement.rs:205-217 | the Newton loop terminates at the exact floor root for every 64-bit value, and no operation overflows |
| `Movement.IntegerSqrtCeil` | crates/simulation/src/movement.rs:200-203 | the exact ceiling root |
| `Movement.NewtonStops` | crates/simulation/src/movement.rs:205-217 | a Newton step that does not decrease has reached a root not above the true one |
| `Movement.NormalizedWithinScale` | crates/simulation/src/movement.rs:183-198 | normalised axes never exceed full-scale magnitude |
| `Movement.NormalizedAxisRange` | crates/simulation/src/movement.rs:183-198 | each axis keeps its sign and stays in range |
| `Movement.ComputeNormalizedAxes` | crates/simulation/src/movement.rs:183-198 | the code with its loop computes the normalised axes, which are: an input within scale itself; any other less than two units on each axis, and never more, from the raw axis scaled by full scale over the true magnitude, and less than three units short of full magnitude; stated by squares, without a root |
| `Movement.NormalizedAxesNormalize` | crates/simulation/src/movement.rs:183-198 | the same of the specification, for every input |
| `Movement.LosesMoreThanTwoUnits` | crates/simulation/src/movement.rs:183-198 | three is the least whole bound of the magnitude: (23255, 23097) loses more than two units |
| `Movement.LosesMoreThanOneUnit` | crates/simulation/src/movement.rs:183-198 | two is the least whole bound of an axis: (23171, 23170) loses more than one unit |
| `Movement.FullDiagonal` | crates/simulation/src/movement.rs:247-256 | the full diagonal becomes (23169, 23169) |
| `Movement.TickNeverOverflows` | crates/simulation/src/movement.rs:150-181 | from a carried remainder, integration succeeds and leaves a remainder |
| `Movement.DisplacementLedger` | crates/simulation/src/movement.rs:150-181 | for any inputs: summed deltas times the denominator plus the final remainder equal the exact numerators plus the first remainder; from zero the displacement is within 1 mm of exact |
| `HeldDisplacement.HeldTicks` | crates/simulation/src/movement.rs:150-198 | k ticks of one input from rest carry the character, on each axis, as far as speed and time give for the raw input: within one millimetre within scale, and for any other at most the true direction's share and short of it by less than one millimetre and two units of speed |
| `HeldDisplacement.HeldSegment` | apps/protocol-client/src/prediction.rs:84-133 | the same of one predicted segment, held for its duration or the longest time an input is held |
| `Movement.MovementRemainder.Integrate` | crates/simulation/src/movement.rs:150-181 | the class advances the remainder as one tick, and on overflow leaves it |
| `CarriedDivision.RunLedger` | crates/simulation/src/movement.rs:172-181 | carried truncating division loses nothing |
| `CarriedDivision.TwoSteps` | crates/simulation/src/movement.rs:172-181 | two carried divisions of parts of one sign equal one division of the whole, whatever remainder they start from |
| `Prediction.Predict` | apps/protocol-client/src/prediction.rs:84-133 | the loop computes the displacement of carried divisions; it fails exactly when the accumulator or the target leaves its range, never in a numerator |
| `Prediction.NewPredictor` | apps/protocol-client/src/prediction.rs:69-82 | succeeds exactly when the timeout fits 64 bits in microseconds and is not nothing; an input is then held for the largest whole number of microseconds within the timeout ticks |
| `Prediction.PredictionRefinesTicks` | apps/protocol-client/src/prediction.rs:84-133 | holding one input for k ticks from a zero remainder, within the lifetime and with a tick rate dividing 10^6, predicts exactly the server's k-step sum |
| `Prediction.SplittingKeepsPrediction` | apps/protocol-client/src/prediction.rs:84-133 | cutting a segment of one intent anywhere in a replay leaves the prediction unchanged when the clamp does not bind |
| `PredictionAgreement.PredictedPositionIsAuthoritative` | crates/simulation/src/systems.rs:44-79 | the predicted position is the one the server's ticks put the character at, in free space |
| `Traversal.TraversalWorld.ResolveHorizontal` | crates/simulation/src/traversal.rs:85-123 | succeeds exactly from a legal start with a target in range; each leg ends at the farthest point whose swept path enters no expanded blocker; the end is legal, so the final check never fails |
| `Traversal.ResolvesIffWalks` | crates/simulation/src/traversal.rs:85-157 | where a move ends, told by walking unit steps over free points: first along x at the old y, then along y at the new x, each until its goal or one step before a point inside a grown blocker; this walk and no other |
| `Traversal.XLegComesFirst` | crates/simulation/src/traversal.rs:85-123 | the x a move ends at does not depend on how far it wants to go along y |
| `Traversal.LegalIff` | crates/simulation/src/traversal.rs:66-83 | legal ground: a positive radius, every growth within 64 bits, and a point inside no grown blocker |
| `Traversal.TraversalWorld.ResolveX` | crates/simulation/src/traversal.rs:125-140 | the leg along x |
| `Traversal.TraversalWorld.ResolveY` | crates/simulation/src/traversal.rs:142-157 | the leg along y |
| `Traversal.TraversalWorld.ValidatePlacement` | crates/simulation/src/traversal.rs:66-83 | legal exactly when no expanded blocker strictly contains the point and every expansion fits |
| `Traversal.NearestEdgeIsFarthest` | crates/simulation/src/traversal.rs:125-140 | the nearest stopping edge is the farthest clear point |
| `Traversal.BlockerOrderIrrelevant` | crates/simulation/src/traversal.rs:85-157 | order and repetition of blockers do not matter |
| `ZoneMovement.ZoneBodies.MovementTick` | crates/simulation/src/systems.rs:44-79 | one tick moves every body by its own input, in any order, and every character stays legally placed; it fails if and only if some body would leave the coordinates |
| `ZoneMovement.ZoneBodies.Spawn` | crates/simulation/src/zone.rs:187-214 | a character is placed if and only if the position is legal and the identity new |
| `Reconciliation.RunsStaySound` | apps/protocol-client/src/reconciliation.rs:137-234 | over any run in which ACKs begin after the first accepted send, pending inputs are strictly increasing, time-ordered, bounded and above the last ACK |
| `Reconciliation.SendKeepsSoundIff` | apps/protocol-client/src/reconciliation.rs:137-170 | a send keeps that for every input if and only if no ACK was taken before the first send |
| `Reconciliation.AckBeforeSendHappens` | apps/protocol-client/src/reconciliation.rs:137-234 | the failing case is reached from a new reconciler: a first snapshot that acknowledges an input not yet sent, then a send of it |
| `Reconciliation.SnapshotEffect` | apps/protocol-client/src/reconciliation.rs:172-234 | a rejected or ignored snapshot changes nothing; an applied one keeps exactly the inputs above its ACK and counts the rest |
| `ReplayMeaning.SendAnswers` | apps/protocol-client/src/reconciliation.rs:137-170 | a send is recorded exactly when there is room, its sequence is new and the clock did not go back; each refusal exactly when; the whole history after |
| `ReplayMeaning.SnapshotAnswers` | apps/protocol-client/src/reconciliation.rs:172-234 | a snapshot is applied exactly when it is of a later tick and its acknowledgement neither goes back nor names an unsent input; the last one again is ignored, an older one too, and every other is refused for one reason |
| `Reconciliation.ClientReconciler.RecordSentInput` | apps/protocol-client/src/reconciliation.rs:137-170 | the class records an input or refuses it unchanged |
| `Reconciliation.ClientReconciler.ApplyAuthoritativeSnapshot` | apps/protocol-client/src/reconciliation.rs:172-234 | the class applies a snapshot as the specification says |
| `Reconciliation.ClientReconciler.BuildReplayPlan` | apps/protocol-client/src/reconciliation.rs:235-276 | from any history: one segment for each pending input and their total, or the first input in the future, or the overflow of the total |
| `Reconciliation.PlanIsPartition` | apps/protocol-client/src/reconciliation.rs:235-276 | from a history whose inputs were sent in order, the plan partitions the time from the first pending input to now, and only an input that lies in the future stops it |
| `ReplayMeaning.PlanHoldsLatest` | apps/protocol-client/src/reconciliation.rs:235-276 | at every moment it covers, the plan holds the last input that was sent by then |
| `ReplayMeaning.PlanFollowsInputs` | apps/protocol-client/src/reconciliation.rs:235-276 | one segment for each pending input, from when it was sent |
| `HeldPrediction.AugmentedPlanIsPartition` | apps/protocol-client/src/held_prediction.rs:104-148 | at any time not before the baseline the augmented plan is gap-free, non-overlapping, ends at now and its total is now minus its first start |
| `ReplayMeaning.LeadFillsTheGap` | apps/protocol-client/src/held_prediction.rs:104-148 | the active input leads exactly when time lies between the baseline and the first pending input, or now, and for just that time |
| `HeldPrediction.HeldInputExtrapolator.ApplyAuthoritativeSnapshot` | apps/protocol-client/src/held_prediction.rs:54-102 | accepted exactly when the active sequence resolves to a sent non-zero input; a refusal changes nothing |
| `HeldPrediction.HeldInputExtrapolator.AugmentReplayPlan` | apps/protocol-client/src/held_prediction.rs:104-148 | computes the augmented plan, or overflow exactly when the durations do not fit |
| `HeldPrediction.HeldInputExtrapolator.RecordSentInput` | apps/protocol-client/src/held_prediction.rs:36-52 | keeps the history increasing and bounded |
| `HydrologyField.SignedBucket` | crates/terrain/src/hydrology.rs:388-392 | a bucket lies between its bounds |
| `Lakes.SelectLake` | crates/terrain/src/hydrology.rs:263-296 | the 3x3-region search returns the lake of the unbounded search over all regions of the plane, least by distance, hash, region y, region x |
| `Lakes.NineRegionsSuffice` | crates/terrain/src/hydrology.rs:263-296 | the best of the nine regions is the best of the plane |
| `Lakes.CoveringLakeIsNear` | crates/terrain/src/hydrology.rs:298-324 | a lake that covers a point has its centre in one of the nine regions around it |
| `Lakes.LakeShape` | crates/terrain/src/hydrology.rs:298-324 | centres keep 8 points from the region's edge and radii are 5 to 11 |
| `Lakes.SelectionUnique` | crates/terrain/src/hydrology.rs:263-296 | the unbounded search has one answer |
| `WaterLaws.LakeAtIff` | crates/terrain/src/hydrology.rs:298-324 | which hash bits draw a lake, its centre, radius and surface: every fourth hash draws one, centred at most 16 points from the middle of its region |
| `WaterLaws.SelectedLakeIsFirst` | crates/terrain/src/hydrology.rs:263-296 | the search gives the first lake of the plane that reaches the point, by distance, hash, southern and western region, told from the hashes |
| `Rivers.AtMostOneRiverIffInland` | crates/terrain/src/hydrology.rs:326-381 | at most one river covers a point, for every field, if and only if the point is not within reach of the clamps at the ends of the coordinates; the same among the three bands that the search visits |
| `Rivers.SearchExactIffInland` | crates/terrain/src/hydrology.rs:326-351 | the three-band search gives the answer of the search over all bands, for every field, if and only if the point is inland |
| `Rivers.RiverOfInland` | crates/terrain/src/hydrology.rs:326-351 | and then only the point's own band can give it |
| `Rivers.RiverStaysInBand` | crates/terrain/src/hydrology.rs:353-381 | a river keeps 16 points from the edges of its band |
| `Rivers.CenterStep` | crates/terrain/src/hydrology.rs:353-381 | the centre moves by at most one per row, also across anchors and under the clamp |
| `Rivers.RibbonConnected` | crates/terrain/src/hydrology.rs:353-381 | every river is 4-connected |
| `Rivers.SurfaceNeverRises` | crates/terrain/src/hydrology.rs:353-381 | the surface never rises as y grows |
| `Rivers.SelectRiver` | crates/terrain/src/hydrology.rs:326-351 | the loop computes that river |
| `WaterLaws.RiverAtIff` | crates/terrain/src/hydrology.rs:353-386 | which hash bits draw a river: clamped middle, meander between anchors 32 rows apart, width, and a surface that falls 25 to the row |
| `WaterLaws.SelectedRiverIsFirst` | crates/terrain/src/hydrology.rs:326-351 | the search over all bands gives the first river that reaches the point, by distance, hash and western band, told from the hashes |
| `WaterLaws.NearRiverIsFirst` | crates/terrain/src/hydrology.rs:326-351 | and the search over three bands the first of those three |
| `TerrainIntegration.SampleHydrology` | crates/terrain/src/hydrology.rs:130-146 | a sample is the first lake of the plane that reaches the point, cut 2000 deep; without one the first river of the three bands, cut 1000 deep, which inland is that of all bands; otherwise dry |
| `TerrainIntegration.SampledUnique` | crates/terrain/src/hydrology.rs:130-146 | a sample has one answer |
| `TerrainIntegration.ApplyHydrology` | crates/terrain/src/hydrology.rs:197-261 | refuses for each reason exactly when; succeeds exactly for a valid terrain of the right generator that lies on the lattice; each vertex is then lowered to its water's bed, by the sample at its global point, and each cell next to water is water and blocked and nothing else; the check of the result never fails |
| `TerrainIntegration.IntegrationLaw` | crates/terrain/src/hydrology.rs:212-255 | the same of the specification for any field of water, with every rule written out |
| `TerrainIntegration.OnlyLowers` | crates/terrain/src/hydrology.rs:217-241 | integration only lowers the ground, leaves dry ground alone, and carves wet ground to the depth below the surface |
| `TerrainIntegration.IntegrationIdempotent` | crates/terrain/src/hydrology.rs:197-261 | a second integration changes nothing |
| `TerrainIntegration.EastEdgeAgrees` | crates/terrain/src/hydrology.rs:148-195 | neighbours that agree on their shared east edge still agree on it |
| `TerrainIntegration.NorthEdgeAgrees` | crates/terrain/src/hydrology.rs:148-195 | neighbours that agree on their shared north edge still agree on it |
| `TerrainIntegration.IntegrationKeepsValid` | crates/contracts/src/terrain_authority.rs:46-100 | integration preserves contract validity |
| `TerrainIntegration.MarkCells` | crates/terrain/src/hydrology.rs:243-255 | a cell becomes water and blocked exactly when a corner is wet, and keeps its flags otherwise |
| `TerrainIntegration.CarveVertices` | crates/terrain/src/hydrology.rs:212-241 | vertices are sampled and lowered row by row, by the samples of `SampleHydrology` |
| `InventoryGrids.GridView.PlaceableIff` | crates/domain/src/items.rs:389-420 | placing is allowed exactly when the rectangle fits and is free, except that an empty rectangle may overhang a grid 255 wide or high, where the test saturates |
| `InventoryGrids.GridView.PlacingKeepsAgreement` | crates/domain/src/items.rs:422-451 | placing an unplaced id keeps cells and placements in exact agreement |
| `InventoryGrids.GridView.RemovingKeepsAgreement` | crates/domain/src/items.rs:453-471 | removing keeps the agreement |
| `InventoryGrids.GridView.RemovedMakesRoom` | crates/domain/src/items.rs:473-486 | once the check that ignores an item passes, placing it after removing it succeeds |
| `InventoryGrids.GridView.PlacingTwiceAgreesIff` | crates/domain/src/items.rs:422-451 | placing an id that is already placed keeps the agreement exactly when its old cells lie in the new rectangle |
| `InventoryGrids.InventoryGrid.CanPlaceAt` | crates/domain/src/items.rs:389-420 | Ok exactly when placeable; the error names the reason |
| `InventoryGrids.InventoryGrid.PlaceItem` | crates/domain/src/items.rs:422-451 | writes the cells of the rectangle and the placement, or changes nothing |
| `InventoryGrids.InventoryGrid.RemoveItem` | crates/domain/src/items.rs:453-471 | frees exactly the item's cells |
| `InventoryGrids.InventoryGrid.RotateOrMove` | crates/domain/src/items.rs:473-486 | atomic: moves the item or changes nothing, with the exact condition |
| `InventoryLedger.IntentBalances` | crates/simulation/src/loot.rs:52-319 | for every intent of every player: what all item maps and bags hold of a definition, plus what an overwriting store loses, is what they held before |
| `InventoryEffects.MergeEffect` | crates/simulation/src/loot.rs:131-173 | a merge succeeds exactly when both items are held, distinct, of one definition, at the expected revisions, and the target has room; then the target holds exactly 100 or the source is gone from items and grid, quantities add up, and nothing else changes; otherwise the answer says why |
| `InventoryEffects.SplitEffect` | crates/simulation/src/loot.rs:175-229 | a split takes the part from the source and places it as a new item at the asked place, exactly under its conditions; otherwise the answer says why and nothing changes |
| `InventoryEffects.MoveEffect` | crates/simulation/src/loot.rs:105-129 | a move or rotation puts the rectangle at the asked place exactly when it may lie there without the item itself; otherwise the answer says why and nothing changes |
| `InventoryEffects.EquipEffect` | crates/simulation/src/loot.rs:283-320 | equipping succeeds exactly for a held item at the expected revision whose slot is the asked one and free; the slot receives the item, which leaves the grid and stays among the items |
| `InventoryEffects.DropEffect` | crates/simulation/src/loot.rs:231-281 | a drop succeeds exactly when the item is held at the expected revision; it leaves the inventory for a new bag of the next number, which lies for 600 ticks |
| `InventoryEffects.LootEffect` | crates/simulation/src/loot.rs:52-103 | a loot succeeds exactly when the bag is there and in range, its first item of that id is at the expected revision and the item may be placed; the item is then the character's |
| `InventoryEffects.StrangerEffect` | crates/simulation/src/zone.rs:324-345 | an intent of an unknown player does nothing and is told nothing |
| `LedgerLosses.LosesIffOverwrites` | crates/simulation/src/zone.rs:340-470 | an intent loses quantity if and only if it passes the guards of its kind and its id or bag number is already in use by something: a condition read from the zone and the intent before the call |
| `LedgerLosses.SplitOntoHeldIdLoses` | crates/simulation/src/loot.rs:52-319 | an input that loses: a split into an id the player holds |
| `LedgerLosses.DropOntoUsedBagLoses` | crates/simulation/src/loot.rs:52-319 | an input that loses: a drop once the bag counter is saturated |
| `LedgerLosses.LootOntoHeldIdLoses` | crates/simulation/src/loot.rs:52-319 | an input that loses: a loot of an id the player holds |
| `InventoryLedger.FreshLosesNothing` | crates/simulation/src/zone.rs:340-470 | with a fresh split id, a fresh bag id and unique ids nothing is overwritten |
| `InventoryLedger.IntentKeepsUnique` | crates/simulation/src/loot.rs:52-319 | each item id stays in at most one place |
| `InventoryLedger.ItemsComeFromOrigins` | crates/simulation/src/loot.rs:52-319 | every item comes from the place that intent took it from; only a split makes a new one |
| `InventoryLedger.RefusalChangesNothing` | crates/simulation/src/zone.rs:340-470 | a refused intent changes nothing, but that a refused drop uses up a bag number |
| `InventoryLedger.IntentKeepsInvariant` | crates/simulation/src/zone.rs:314-470 | grids agree with their cells and hold only carried items, after every intent |
| `InventoryLedger.DecayBalances` | crates/domain/src/items.rs:297-320 | decay takes out exactly what the expired bags held |
| `InventoryEffects.DecayEffect` | crates/domain/src/items.rs:297-320 | a bag stays exactly while fewer ticks than it may lie have passed since it was dropped |
| `InventoryLedger.QueueConserves` | crates/simulation/src/zone.rs:314-500 | over any queue from any players the quantity of every definition is constant |
| `InventoryEffects.QueueInOrder` | crates/simulation/src/zone.rs:314-500 | the queue is handled in its order: the front first, and the rest from what the front left |
| `InventoryEffects.OneHandled` | crates/simulation/src/zone.rs:324-470 | an intent alone in the queue is handled, and its player told |
| `InventoryEffects.EventsInOrder` | crates/simulation/src/zone.rs:314-500 | and players are told in that order |
| `InventoryLedger.RunBalances` | crates/simulation/src/zone.rs:189-302 | over any run of steps, failed steps, characters that enter with fresh items and characters that leave, the quantity of every definition changes only by what decays, what is brought in and what is carried away |
| `InventoryLedger.JoinBalances` | crates/simulation/src/zone.rs:189-214 | a spawned character adds exactly what it carries |
| `InventoryLedger.PartBalances` | crates/simulation/src/zone.rs:216-233 | a despawned one takes away exactly what it carries |
| `InventoryLedger.PartKeepsInvariant` | crates/simulation/src/zone.rs:216-233 | and leaves the zone's invariant |
| `InventoryLedger.JoinKeepsInvariant` | crates/simulation/src/zone.rs:189-214 | a sound inventory of items unused in the zone keeps the invariant |
| `InventoryLedger.ZoneInventory.Spawn` | crates/simulation/src/zone.rs:189-214 | a character enters with its inventory exactly when its position is legal and it is not known; otherwise nothing changes |
| `InventoryLedger.ZoneInventory.Despawn` | crates/simulation/src/zone.rs:216-233 | a known character leaves with its inventory |
| `InventoryLedger.ZoneInventory.TickDecay` | crates/domain/src/items.rs:297-320 | removes exactly the expired bags |
| `InventoryLedger.ZoneInventory.HandleOne` | crates/simulation/src/zone.rs:324-470 | one intent does what `Handled` says and answers its outcome |
| `InventoryLedger.ZoneInventory.ProcessInventoryIntents` | crates/simulation/src/zone.rs:314-500 | decay first, then the queue in order, with one event per intent of a known player |
| `InventoryLedger.ZoneInventory.Step` | crates/simulation/src/zone.rs:276-302 | advances the tick unless it cannot, and then processes the queue; when the movement tick fails in between, the tick has advanced and the queue waits |
| `SlotSearch.SearchExactIff` | crates/domain/src/containers.rs:402-446 | for every item, empty ones too: the search finds the first legal position, row-major and unrotated first, and None when there is none, on every packed grid, if and only if no 8-bit sum in it wraps or an empty item fits at the origin |
| `SlotSearch.SearchExact` | crates/domain/src/containers.rs:402-446 | soundness, completeness and firstness under that condition |
| `SlotSearch.WrapsIntoFullGrid` | crates/domain/src/containers.rs:402-446 | otherwise a full grid is given a position it does not have |
| `SlotSearch.SmallGridsAreSafe` | crates/domain/src/containers.rs:402-446 | sides of at most 128 meet the condition |
| `FreeSlots.OverlapIffSharedCell` | crates/domain/src/containers.rs:132-146 | the collision test is exactly sharing a cell |
| `SlotSearch.FindFreeSlot` | crates/domain/src/containers.rs:402-446 | the nested loops compute that search |
| `ContainerPacking.InsertBalances` | crates/domain/src/containers.rs:344-400 | a quick insert adds exactly the item's quantity on Ok and exactly the merged part on Err |
| `ContainerPacking.InsertKeepsPacked` | crates/domain/src/containers.rs:344-400 | and keeps the grid in bounds and overlap-free |
| `ContainerPacking.InsertFindsSpaceIff` | crates/domain/src/containers.rs:344-400 | what is left over finds a place exactly when a legal one exists |
| `ContainerEffects.QuickInsertEffect` | crates/domain/src/containers.rs:344-400 | an insert refuses what the container does not admit; otherwise it fills stacks of the definition in their order, each before the next, up to the limit, and places the rest last at the first free spot, or refuses it and keeps the merged part |
| `ContainerEffects.MergesInOrder` | crates/domain/src/containers.rs:361-375 | merging fills stacks in order: none passes its limit, and one takes nothing while one before it has room |
| `ContainerPacking.MergedBalances` | crates/domain/src/containers.rs:361-375 | merging moves quantity between stacks of one definition |
| `ContainerPacking.MergeStacks` | crates/domain/src/containers.rs:361-375 | the merging loop, which stops at the stack that takes the rest |
| `ContainerPacking.SplitBalances` | crates/domain/src/containers.rs:448-510 | a split conserves every quantity; a failed split changes nothing |
| `ContainerPacking.SplitKeepsPacked` | crates/domain/src/containers.rs:448-510 | and keeps the grid packed |
| `ContainerEffects.SplitEffect` | crates/domain/src/containers.rs:448-510 | a split is about the first item of its id, takes the share from it into a new item placed last, and changes nothing else; each refusal exactly when |
| `ContainerEffects.SplitOfNothing` | crates/domain/src/containers.rs:448-510 | a split of an id that is not there fails and changes nothing |
| `SortLayouts.SortConservesIff` | crates/domain/src/containers.rs:512-551 | for every container: a sort keeps the items if and only if the container has no grid or its items, in the sort's order, have a layout in which each lies at the first position accepted among the ones before it |
| `SortLayouts.SafeSortConservesIff` | crates/domain/src/containers.rs:512-551 | where no 8-bit sum wraps that is a layout by first legal positions |
| `SortLayouts.SortLosesAnItem` | crates/domain/src/containers.rs:512-551 | a packed four by four grid of three items that sorting leaves with two |
| `SquareLayouts.SquaresAlwaysSort` | crates/domain/src/containers.rs:512-551 | a packed grid of squares of one side, single cells among them, is always sorted and loses nothing |
| `ContainerSorting.SortPermutesIffOk` | crates/domain/src/containers.rs:512-551 | a sort reports Ok exactly when it kept the items |
| `ContainerSorting.SortKeepsPacked` | crates/domain/src/containers.rs:512-551 | and leaves the grid packed either way |
| `ContainerSorting.StableSortedIsSorted` | crates/domain/src/containers.rs:521-528 | the sort order: ordered, and a permutation |
| `SortOrder.SortPlacesInOrder` | crates/domain/src/containers.rs:512-551 | after a sort the container holds, in placing order, the first of its items: all when it succeeds, those before the first that found no place when it fails; more cells before fewer, then earlier categories, then higher definitions, and alike items as they stood |
| `SortOrder.PlacingOrderUnique` | crates/domain/src/containers.rs:521-528 | there is only one such order |
| `ContainerSorting.DropBalances` | crates/domain/src/containers.rs:564-572 | a drop takes out exactly the item it returns |
| `ContainerEffects.DropEffect` | crates/domain/src/containers.rs:564-572 | a drop takes the first item of the id and leaves the others in their order |
| `DepositOutcome.DepositMatchingConservesIff` | crates/domain/src/containers.rs:574-612 | for every source and target: `deposit_matching` conserves every quantity if and only if the first item it moves that the target refuses merges in no part; with distinct ids it moves the source's items of a definition the target holds, in order |
| `DepositOutcome.ConservesIff` | crates/domain/src/containers.rs:574-612 | the same for a deposit by any list of ids, repeated ids included |
| `DepositOutcome.RefusesIffErr` | crates/domain/src/containers.rs:344-400 | refusal read before the call: a wrong category, or no place for what is left after merging |
| `DepositOutcome.HasPlaceIffLegal` | crates/domain/src/containers.rs:402-446 | in a packed grid in which no sum wraps, a place is a legal position |
| `DepositOutcome.MergesSomeIff` | crates/domain/src/containers.rs:361-375 | a part merges exactly when the item is admitted, stacks, is not empty and meets a stack of its definition with room |
| `DepositOutcome.DepositDuplicates` | crates/domain/src/containers.rs:574-612 | five deposited onto nine of at most ten in a full grid make fifteen of fourteen |
| `ContainerSorting.DepositBalances` | crates/domain/src/containers.rs:574-612 | source and target together hold what they held plus exactly what a failing insert merged before its item was pushed back whole |
| `ContainerEffects.DepositsMatching` | crates/domain/src/containers.rs:574-612 | a deposit goes through the ids of exactly those source items whose definition the target holds when it begins, in their order |
| `ContainerEffects.DepositMoves` | crates/domain/src/containers.rs:574-612 | each move inserts the first source item of the id and counts it; a failing insert puts it back at the end and ends the deposit |
| `ContainerSorting.DepositKeepsPacked` | crates/domain/src/containers.rs:574-612 | a deposit keeps both grids packed |
| `ContainerForest.CycleTestExact` | crates/domain/src/containers.rs:265-279 | attaching keeps the forest acyclic if and only if the bag is neither the target nor an ancestor of it |
| `ContainerForest.NoCycles` | crates/domain/src/containers.rs:265-279 | in a ranked forest no container is inside itself |
| `ContainerForest.WeightRankIndependent` | crates/domain/src/containers.rs:295-315 | the recursive weight is well defined: it depends on no order of visiting |
| `ContainerWeights.WeightMeaning` | crates/domain/src/containers.rs:295-342 | a container weighs its base weight, which no affix reduces, and what its affixes leave of the weight of its items and bags together; where each sum saturates or wraps |
| `ContainerForest.DepthIsChainLength` | crates/domain/src/containers.rs:281-293 | the depth is the number of steps from parent to parent up to a container without one |
| `ContainerForest.InsertNeverLowersWeight` | crates/domain/src/containers.rs:295-315 | an insert lowers the weight of no container in the forest when the 32-bit sum of the receiving items has room |
| `ContainerForest.NeverLowersWeightIff` | crates/domain/src/containers.rs:295-315 | for every container and insert: no weight in any forest falls if and only if the 32-bit sum of the items does not fall by wrapping, or the container weighs the same from the fallen sum on whatever its bags add (or it is its own parent, and in no forest) |
| `ContainerForest.PlainNeverLowersIff` | crates/domain/src/containers.rs:299-299 | for a container without weight or reduction of its own only the first can hold |
| `ContainerForest.WrappingInsertLowersWeight` | crates/domain/src/containers.rs:299-299 | a concrete insert that succeeds and makes the container weigh nothing |
| `ContainerForest.TierMonotone` | crates/simulation/src/encumbrance.rs:90-119 | more weight never gives a lighter tier, sprint or dodge back |
| `ContainerWeights.TierMeaning` | crates/domain/src/containers.rs:324-342 | the tiers by weight and capacity: Light below 51 percent, Medium below 81, Heavy below 101, whole percents being cut off |
| `ContainerTrees.CalculateContainerWeight` | crates/domain/src/containers.rs:295-315 | the recursion over the map, in any order, computes the weight and ends on every reachable forest |
| `ContainerTrees.CharacterContainerTree.AddContainer` | crates/domain/src/containers.rs:231-233 | a parentless container keeps the forest acyclic, even when it replaces another |
| `ContainerTrees.CharacterContainerTree.WouldCreateCycle` | crates/domain/src/containers.rs:265-279 | the walk ends and decides ancestry |
| `ContainerTrees.CharacterContainerTree.GetDepth` | crates/domain/src/containers.rs:281-293 | the walk ends and counts the containers around |
| `ContainerTrees.CharacterContainerTree.AttachToParent` | crates/domain/src/containers.rs:235-263 | attaches exactly when both exist, no cycle arises, nesting is allowed and the depth fits; otherwise changes nothing |
| `ContainerTrees.CharacterContainerTree.QuickInsert` | crates/domain/src/containers.rs:344-400 | the container's new items, and the forest around it unchanged |
| `ContainerTrees.CharacterContainerTree.DepositMatching` | crates/domain/src/containers.rs:574-612 | the two containers after the deposit, and the number transferred |
| `ContainerTrees.CharacterContainerTree.PickupItem` | crates/simulation/src/encumbrance.rs:57-68 | picking up never lightens the tier while the root's sum has room |
| `FrontierManifestCodec.Decode` | crates/contracts/src/frontier.rs:71-106 | accepts exactly the payloads in which a valid manifest is laid out field by field, at stated offsets and least significant byte first, and returns that manifest; a payload too short for the header is refused as such, and exactly then |
| `FrontierManifestCodec.Encode` | crates/contracts/src/frontier.rs:49-69 | succeeds exactly for a valid manifest, with the bytes of every field at its stated offset, least significant byte first |
| `FrontierManifestCodec.EncodingPrefixFree` | crates/contracts/src/frontier.rs:49-69 | encodings are injective and no encoding is a proper prefix of another, so every proper prefix or extension of one is rejected |
| `FrontierManifestCodec.EncodingLaidOut` | crates/contracts/src/frontier.rs:49-69 | the encoding of every manifest is laid out so |
| `FrontierManifestCodec.LayoutDetermines` | crates/contracts/src/frontier.rs:49-69 | and no other payload is |
| `FrontierManifestCodec.Validate` | crates/contracts/src/frontier.rs:108-147 | Ok exactly for a valid manifest, told refusal by refusal; an error names one that holds |
| `TerrainAuthorityCodec.DecodeWire` | crates/contracts/src/terrain_authority.rs:134-185 | accepts exactly the payloads in which a valid terrain contract is laid out field by field, at stated offsets and least significant byte first, and returns that terrain contract; a payload too short for the header is refused as such, and exactly then |
| `TerrainAuthorityCodec.EncodeWire` | crates/contracts/src/terrain_authority.rs:102-132 | succeeds exactly for a valid terrain contract, with the bytes of every field at its stated offset, least significant byte first |
| `TerrainAuthorityCodec.EncodingPrefixFree` | crates/contracts/src/terrain_authority.rs:102-132 | encodings are injective and no encoding is a proper prefix of another, so every proper prefix or extension of one is rejected |
| `TerrainAuthorityCodec.EncodingLaidOut` | crates/contracts/src/terrain_authority.rs:102-132 | the encoding of every terrain contract is laid out so |
| `TerrainAuthorityCodec.LayoutDetermines` | crates/contracts/src/terrain_authority.rs:102-132 | and no other payload is |
| `TerrainAuthorityCodec.Validate` | crates/contracts/src/terrain_authority.rs:46-100 | Ok exactly for a valid terrain contract, told refusal by refusal; an error names one that holds |
| `WaterSurfaceCodec.DecodeWire` | crates/contracts/src/water_surface_presentation.rs:171-225 | accepts exactly the payloads in which a valid water surface is laid out field by field, at stated offsets and least significant byte first, and returns that water surface; a payload too short for the header is refused as such, and exactly then |
| `WaterSurfaceCodec.EncodeWire` | crates/contracts/src/water_surface_presentation.rs:142-169 | succeeds exactly for a valid water surface, with the bytes of every field at its stated offset, least significant byte first |
| `WaterSurfaceCodec.EncodingPrefixFree` | crates/contracts/src/water_surface_presentation.rs:142-169 | encodings are injective and no encoding is a proper prefix of another, so every proper prefix or extension of one is rejected |
| `WaterSurfaceCodec.EncodingLaidOut` | crates/contracts/src/water_surface_presentation.rs:142-169 | the encoding of every water surface is laid out so |
| `WaterSurfaceCodec.LayoutDetermines` | crates/contracts/src/water_surface_presentation.rs:142-169 | and no other payload is |
| `WaterSurfaceCodec.Validate` | crates/contracts/src/water_surface_presentation.rs:98-140 | Ok exactly for a valid water surface, told refusal by refusal; an error names one that holds |
| `EnvironmentPresentationCodec.DecodeWire` | crates/contracts/src/environment_presentation.rs:110-146 | accepts exactly the payloads in which a valid environment policy is laid out field by field, at stated offsets and least significant byte first, and returns that environment policy; a payload too short for the header is refused as such, and exactly then |
| `EnvironmentPresentationCodec.EncodeWire` | crates/contracts/src/environment_presentation.rs:86-108 | succeeds exactly for a valid environment policy, with the bytes of every field at its stated offset, least significant byte first |
| `EnvironmentPresentationCodec.EncodingPrefixFree` | crates/contracts/src/environment_presentation.rs:86-108 | encodings are injective and no encoding is a proper prefix of another, so every proper prefix or extension of one is rejected |
| `EnvironmentPresentationCodec.EncodingLaidOut` | crates/contracts/src/environment_presentation.rs:86-108 | the encoding of every environment policy is laid out so |
| `EnvironmentPresentationCodec.LayoutDetermines` | crates/contracts/src/environment_presentation.rs:86-108 | and no other payload is |
| `EnvironmentPresentationCodec.Validate` | crates/contracts/src/environment_presentation.rs:50-84 | Ok exactly for a valid environment policy, told refusal by refusal; an error names one that holds |
| `WireBytes.ReadWritten` | crates/contracts/src/frontier.rs:156-214 | reading a field gives the value written |
| `WireBytes.WriteRead` | crates/contracts/src/frontier.rs:156-214 | and writing what was read gives the bytes back |
| `WireBytes.U16Field` | crates/contracts/src/frontier.rs:156-214 | byte i of a two-byte field is its digit of weight 256^i |
| `WireBytes.U64Field` | crates/contracts/src/frontier.rs:156-214 | the same of eight bytes |
| `WireBytes.I64Field` | crates/contracts/src/frontier.rs:156-214 | and of a signed number in two's complement |
| `TerrainAuthorityCodec.FlagBits` | crates/contracts/src/terrain_authority.rs:46-100 | the cell flags as five bits: which bytes are valid, and what each bit means |

## Left out

- QUIC transport, TLS, Tokio scheduling, tracing, configuration loading, PostgreSQL persistence and
  position buffering: input and output, or libraries outside the repository.
- BLAKE3 seeds and fingerprints, and the hydrology hash `mix64`: arbitrary functions here.
- Base terrain, biomes and the derivation of environment and water-surface contracts: any valid
  contract may be the base terrain, and the executor may produce any content in each run.
- Floating point: weapon statistics, encumbrance speed factors, and the interaction range, which is an
  arbitrary Boolean of each intent.
- `SelfMovementSnapshot` version 1 and the fixed-size hello, profile and acknowledgement codecs.
- Unequipping: an equipped item also stays in the item map, so it belongs to no quantity ledger.
- Opening a bag, mining, the development reveal gate, schemas of game data, caches and presentation
  smoothing.
- The spatial index of dropped bags by quadrant, and the dirty marks and snapshots that a movement tick
  sends.
- The tick of crates/simulation/src/character.rs, with its input timeout and sequence checks: unused,
  lib.rs compiles it as dead code.
- The report's counter of exhausted quadrants, and log messages.
- PreparationScheduling.PreparationScheduler.Evaluate: the worker stands still during one evaluation of the class; the interleavings inside it are those of `PreparationProtocol`, and `WorkerStepsDecide` says what they decide.
- PreparationScheduling.PreparationScheduler.Spawn: starts over slots that hold nothing in preparation.
- SessionRuntimes.SessionRuntime.DeliverPresentation: which sends succeed and which quadrants' contracts are held are inputs, as is how the zones' queues answer in `RouteAuthorizedIntent`.
- InventoryLedger.ZoneInventory.Spawn: whether the position is legal is an input; `ZoneMovement.ZoneBodies.Spawn` decides it.
- InventoryLedger.ZoneInventory.Step: whether the movement tick succeeds is an input; `ZoneMovement.ZoneBodies.MovementTick` decides it.
- SessionIngress.EmittedInOrder: speaks of one registration; a session id that is registered again after a disconnect starts a new window.
- Replay.ObserveRefines: the 64-bit word is a sequence of 64 bits, with the shift written out.
- InventoryLedger.IntentBalances: the grids inside a zone are values there; the array class is `InventoryGrids.InventoryGrid`.
- Traversal.TraversalWorld.ResolveHorizontal: error texts are reduced to which check failed.
- Prediction.PredictionRefinesTicks: integer roots of server and client are separate copies of the same code; the model has one.
