# CADGEN-AX protocol and algorithm proofs

Dafny 4.11 models of the parts of the desktop application where several processes, tasks or passes must agree, with
proofs of what they promise. `dafny verify dfyconfig.toml` checks everything.

- **Validation batches** (`ValidationRows`, `SqlSteps`, `SqlRepository`, `Lifecycle`, `LifecycleRuns`, `Recovery`,
  `BatchAnswers`, `BatchOutcomes`).
  A batch has a structural, a DFM and a VLM check and moves by compare-and-set calls of the application and of command
  line processes that share one database. Each transaction is one step on the tables; the constraints and triggers of
  the schema are guards of the step. Proofs are over all interleavings and restarts; what each call answers is stated on
  rows alone, for every state of the lifecycle.
- **Its in-memory twin** (`MemorySteps`, `Simulation`, `Divergence`). The same calls with shorter guards, related to the
  SQL ones call by call. The five calls and the one query where the two differ are named, and each difference is shown
  in a reachable state with the opposite answers.
- **Notification router** (`RouterSteps`, `RouterRuns`, `RouterAnswers`, `NotificationRouter`), **turn manager** (`TurnManager`,
  `AgentThreadManager`) and **process client** (`ProcessClient`, `CodexProcessClient`): state machines whose steps are
  sections of the code under one lock, and classes whose methods perform them.
- **STL welding and crease normals** (`StlWeld`, `StlNormals`), over the real numbers.
- **Dates** (`CivilDate`, `Timestamps`), **command lines** (`CommandLine`, `ShellQuote`), the **profile editor**
  (`DfmProfile`, `DfmProfileText`), the **transport normaliser** (`TransportPolicy`) and the **template renderer**
  (`PromptTemplate`, `PromptRefusals`).

Where a file of the application changes state, a class or a method with loops does the same and is proved equal to a
function on values (`SqlCreate`, `Promote`, `Parse`, `Normal`, ...); the lemmas are about those functions and their runs.
Text is a sequence of Unicode scalar values, absent values are `Option`, errors are constructors or `Refused`.

## What differs from what one would expect

- A settlement claim token is a millisecond timestamp. If two claims of one batch use the same token, the claimant that
  was released can settle (`LifecycleRuns.ReusedTokenRevivesStaleClaimant`); with fresh tokens it cannot.
- The two repositories answer a well-formed call differently in five cases (`Divergence`). Only memory accepts a batch
  whose run, revision or artifact is not stored, a check that starts on an unknown thread, the verdict succeeded for a
  batch that never started, and binding a refinement whose run has no external turn. Only SQL accepts a refinement
  request when `passed` is the number 0. They also disagree on which batch is the latest after the run has moved to
  another output revision. Otherwise they agree.
- Restart normalisation fails exactly if a running structural or DFM check is bound to a validation thread, because a
  queued check may not be. This cannot happen while no evaluation has the id of such a check
  (`Recovery.DisjointIdsMeanSafe`); otherwise it can (`Divergence.BoundCheckBlocksRestart`).
- After `finish_turn`, dropping the turn object unregisters its key once more. If another call has opened the same thread
  and turn in between, the drop closes the route of that running turn (`TurnManager.LateDropClosesReopenedRoute`); in
  all other cases it changes nothing (`TurnManager.FinishThenDropReleasesOnce`).
- The text order of timestamps ends with year 9999 (`Timestamps.OrderHoldsIff`).
- The session-state command is not read back when an identifier begins with two dashes
  (`ShellQuote.SessionStateRoundTripIff`).
- A profile value that is acceptable to the editor can still make the profile invalid: an empty value for a required
  setting, or a bed shape that cannot be read (`DfmProfile.UpdateThenParse`).

## Model

| member | source | states |
|---|---|---|
| ValidationRows.StampIdentityWorksIff | src-tauri/src/session_repository/save.rs:686-712 | writing batch id, check id and attempt into a contract fails exactly when the contract is no object or already claims another identity |
| BatchAnswers.StampedMembers | src-tauri/src/session_repository/save.rs:686-712 | the four identity members are written and every other member of the contract is kept |
| Lifecycle.StepKeepsInv | src-tauri/src/session_repository/save.rs:498-1124 | every call of every process, successful or refused, keeps the lifecycle invariant on batches, checks, attempts and runs |
| Lifecycle.ReachableInv | src-tauri/src/session_repository/save.rs:498-1124 | every interleaving of calls from the empty database satisfies that invariant |
| Lifecycle.ReachableLifecycle | src-tauri/src/session_repository/save.rs:498-1124 | succeeded or failed exactly if settled; a settlement claim means unsettled with three terminal checks; an effects claim means settled and unapplied; requested means succeeded and rejected; bound means requested and applied at the same moment |
| Lifecycle.ReachableTrio | src-tauri/src/session_repository/save.rs:498-684 | every batch owns exactly one check of each kind |
| LifecycleRuns.RowCommandMoves | src-tauri/src/session_repository/save.rs:780-1124 | a successful call moves the one row it names along one edge of the lifecycle and nothing else; a refused call changes nothing |
| LifecycleRuns.OtherCommandMoves | src-tauri/src/session_repository/save.rs:714-778 | all other calls leave a row alone, except that a check that starts moves its queued batch to running |
| LifecycleRuns.ExactlyOnce | src-tauri/src/session_repository/save.rs:835-1124 | over any run a batch is settled, applied or bound, and asked for refinement at most once each, and its row says whether it happened |
| LifecycleRuns.RunCausesOnce | src-tauri/src/session_repository/save.rs:835-1124 | the same from any state that satisfies the invariant |
| LifecycleRuns.StaleClaimantIsRefused | src-tauri/src/session_repository/save.rs:780-1124 | once a claim is gone, its token can no longer settle, release, request, bind or mark, whatever runs in between, unless somebody claims with the same token |
| LifecycleRuns.ReusedTokenRevivesStaleClaimant | src-tauri/src/session_repository/save.rs:780-942 | that freshness is needed: a token reused by a second claim lets the released claimant settle |
| LifecycleRuns.VerdictIsFinal | src-tauri/src/storage/migrations.rs:977-1034 | whatever runs later, a settled batch keeps its verdict and an applied batch its whole row |
| LifecycleRuns.FinishedCheckIsFinal | src-tauri/src/storage/migrations.rs:1095-1121 | whatever runs later, a succeeded or failed check keeps its whole row |
| LifecycleRuns.ReachableAttempts | src-tauri/src/session_repository/save.rs:546-684 | the attempts of a run and revision are exactly 1..n, each taken by one batch |
| LifecycleRuns.ReachableContracts | src-tauri/src/session_repository/save.rs:546-712 | every stored check carries its batch id, its own id and the attempt of its batch |
| LifecycleRuns.ClaimBlocksNewAttempts | src-tauri/src/session_repository/save.rs:498-546 | while the effects of a batch are claimed, no new attempt for its run and revision is created |
| LifecycleRuns.LatestIsStableForTheHolder | src-tauri/src/session_repository.rs:1291-1304 | while effects stay claimed, the answer to whether the batch is the latest cannot change |
| SqlRepository.Repository.CreateBatch | src-tauri/src/session_repository/save.rs:498-684 | the transaction that checks the arguments, allocates the attempt, stamps the contracts and inserts four rows, or refuses and changes nothing |
| SqlRepository.Repository.MaximumAttempt | src-tauri/src/session_repository/save.rs:546-600 | the largest attempt of a run and revision, zero if there is none |
| SqlRepository.Repository.StampRows | src-tauri/src/session_repository/save.rs:600-712 | the three contracts with their identity, or none if one of them cannot take it |
| SqlRepository.Repository.UpdateCheck | src-tauri/src/session_repository/save.rs:714-778 | compare-and-set of one check under the constraints and triggers of the schema, starting its batch in the same transaction; when it succeeds is BatchAnswers.UpdateCheckAnswer |
| SqlRepository.Repository.TryClaimSettlement | src-tauri/src/session_repository/save.rs:780-833 | claims an open, unclaimed batch with three terminal checks |
| SqlRepository.Repository.SettleBatch | src-tauri/src/session_repository/save.rs:835-903 | writes the verdict for the holder of the claim |
| SqlRepository.Repository.ReleaseBatchSettlement | src-tauri/src/session_repository/save.rs:905-942 | gives the settlement claim back |
| SqlRepository.Repository.MarkEffectsApplied | src-tauri/src/session_repository/save.rs:944-984 | marks the effects as applied for the holder of the claim |
| SqlRepository.Repository.TryClaimEffects | src-tauri/src/session_repository/save.rs:986-1021 | claims the effects of a settled, unapplied, unclaimed batch |
| SqlRepository.Repository.ReleaseBatchEffects | src-tauri/src/session_repository/save.rs:1023-1048 | gives the effects claim back |
| SqlRepository.Repository.RequestBatchRefinement | src-tauri/src/session_repository/save.rs:1050-1080 | asks for refinement once, on a succeeded and rejected batch |
| SqlRepository.Repository.BindBatchRefinement | src-tauri/src/session_repository/save.rs:1082-1124 | binds a requested refinement whose run has an external turn |
| BatchAnswers.CreateAnswer | src-tauri/src/session_repository/save.rs:498-684 | in every lifecycle state: a batch is created exactly if it and its three checks are new and pristine with one check of each kind, its run, revision and artifact are stored, nobody owns effects of the pair and no contract claims another identity; it gets the attempt after all others, and exactly these four rows are inserted |
| BatchAnswers.CreatedIsTheLatest | src-tauri/src/session_repository/save.rs:498-684 | the created batch is the latest of its run and no other batch of the pair is |
| BatchAnswers.UpdateCheckAnswer | src-tauri/src/session_repository/save.rs:714-778 | in every lifecycle state: a check update is saved exactly if the stored row has the expected status, the immutable columns agree, the columns fit the status, its thread is registered for it, and the status stays open or moves from queued to running or failed, from running to succeeded or failed, or back to queued for a structural or DFM check; then exactly this row is stored and a queued batch starts with it |
| BatchAnswers.ClaimSettlementAnswer | src-tauri/src/session_repository/save.rs:780-833 | the claim is given exactly on an unsettled, unclaimed batch of the session all of whose checks succeeded or failed; a blank token is refused |
| BatchAnswers.SettleAnswer | src-tauri/src/session_repository/save.rs:835-903 | the verdict is written exactly for the holder of the claim, with a report object on a started batch or as failed without a report |
| BatchAnswers.ReleaseSettlementAnswer | src-tauri/src/session_repository/save.rs:905-942 | the claim is given back exactly by its holder |
| BatchAnswers.MarkAppliedAnswer | src-tauri/src/session_repository/save.rs:944-984 | the effects are marked exactly by their owner, which gives them up with it |
| BatchAnswers.ClaimEffectsAnswer | src-tauri/src/session_repository/save.rs:986-1021 | effects are given exactly on a settled batch of the session that nobody owns and that is not applied |
| BatchAnswers.ReleaseEffectsAnswer | src-tauri/src/session_repository/save.rs:1023-1048 | effects are given back exactly by their owner |
| BatchAnswers.RequestRefinementAnswer | src-tauri/src/session_repository/save.rs:1050-1080 | refinement is requested exactly by the owner of the effects, once, on a report that says passed is false or the number 0; a passed report is refused |
| BatchAnswers.BindRefinementAnswer | src-tauri/src/session_repository/save.rs:1082-1124 | a requested refinement is bound exactly by the owner of the effects once the run has an external turn |
| BatchAnswers.LinkRevisionAnswer | src-tauri/src/storage/migrations.rs:1036-1046 | the output revision of a run moves exactly while nobody owns effects of a batch of the run |
| BatchAnswers.SaveEvaluatorAnswer | src-tauri/src/storage/migrations.rs:1126-1153 | a validation thread is stored exactly for an evaluation or a VLM check of its session |
| BatchAnswers.BlankIff | src-tauri/src/session_repository/save.rs:780-1124 | what the guards call blank is a text of Unicode white space only |
| MemorySteps.InMemoryRepository.CreateBatch | src-tauri/src/session_repository.rs:359-434 | the in-memory create with its own, shorter guards |
| MemorySteps.InMemoryRepository.UpdateCheck | src-tauri/src/session_repository.rs:436-474 | the in-memory compare-and-set of a check |
| MemorySteps.InMemoryRepository.TryClaimSettlement | src-tauri/src/session_repository.rs:476-518 | the in-memory settlement claim |
| MemorySteps.InMemoryRepository.SettleBatch | src-tauri/src/session_repository.rs:520-549 | the in-memory settlement, which rechecks neither status nor checks |
| MemorySteps.InMemoryRepository.RequestBatchRefinement | src-tauri/src/session_repository.rs:551-586 | the in-memory refinement request |
| MemorySteps.InMemoryRepository.BindBatchRefinement | src-tauri/src/session_repository.rs:588-617 | the in-memory bind, which does not recheck status and report |
| MemorySteps.InMemoryRepository.ReleaseBatchSettlement | src-tauri/src/session_repository.rs:619-641 | the in-memory release of a settlement claim |
| MemorySteps.InMemoryRepository.MarkEffectsApplied | src-tauri/src/session_repository.rs:643-669 | the in-memory effects mark |
| MemorySteps.InMemoryRepository.TryClaimEffects | src-tauri/src/session_repository.rs:671-695 | the in-memory effects claim |
| MemorySteps.InMemoryRepository.ReleaseBatchEffects | src-tauri/src/session_repository.rs:697-717 | the in-memory release of an effects claim |
| MemorySteps.InMemoryRepository.IsLatestBatch | src-tauri/src/session_repository.rs:726-743 | an error for an unknown batch, else whether it is of the session and has no newer attempt |
| Simulation.StepSimulates | src-tauri/src/session_repository.rs:359-717 | on every state of the lifecycle and well-formed call both repositories give the same reply and rows, except where a named extra guard of one of them fails; then exactly that one refuses |
| Simulation.RunSimulates | src-tauri/src/session_repository.rs:359-717 | over a whole run without such calls the two repositories stay equal |
| Simulation.LatestAgrees | src-tauri/src/session_repository.rs:726-743 | the two latest-batch answers differ exactly when the run has moved to another output revision |
| Simulation.ClaimInTwoSectionsIsAtomic | src-tauri/src/session_repository.rs:476-518 | a settlement claim that counts under the check lock and writes later under the batch lock does what it would do in one step at that moment |
| Divergence.UngroundedCreateDiverges | src-tauri/src/session_repository.rs:359-434 | on the empty tables a batch without its run, revision and artifact is refused by SQL and accepted in memory |
| Divergence.UnknownThreadDiverges | src-tauri/src/session_repository.rs:436-474 | after a run, a check that starts on an unknown thread is refused by SQL and accepted in memory |
| Divergence.UnstartedVerdictDiverges | src-tauri/src/session_repository.rs:520-549 | after a run, a verdict succeeded for a batch that never started is refused by SQL and accepted in memory |
| Divergence.UnboundTurnDiverges | src-tauri/src/session_repository.rs:588-617 | after a run, binding without an external turn of the run is refused by SQL and accepted in memory |
| Divergence.NumericRejectionDiverges | src-tauri/src/session_repository.rs:551-586 | after a run, a refinement request on a report with passed equal to the number 0 is accepted by SQL and refused in memory |
| Divergence.MovedRevisionDiverges | src-tauri/src/session_repository.rs:726-743 | after a run that moved to another output revision, a batch is the latest in memory and not in SQL |
| Divergence.BoundCheckBlocksRestart | src-tauri/src/session_service.rs:271-301 | a run after which an interrupted check is bound to a thread, so that a restart fails |
| Recovery.SessionService.NormalizeAfterRestart | src-tauri/src/session_service.rs:271-355 | on a state of the lifecycle normalisation succeeds exactly if no interrupted check is bound to a thread; then running structural and DFM checks are queued without a start, all other checks are as they were and batches have lost exactly their claims, in the snapshot and in the repository; if it fails, every claim stays |
| Recovery.DisjointIdsMeanSafe | src-tauri/src/storage/migrations.rs:1126-1153 | no interrupted check is bound to a thread while no evaluation has the id of a structural or DFM check |
| Recovery.SessionService.RequeueChecks | src-tauri/src/session_service.rs:271-301 | exactly if none is bound to a thread, every running structural and DFM check gets status queued and no start with all other columns kept, and no other row changes |
| Recovery.SessionService.ReleaseSettlements | src-tauri/src/session_service.rs:302-327 | every settlement claim is released and nothing else changes |
| Recovery.SessionService.ReleaseEffectClaims | src-tauri/src/session_service.rs:328-354 | every effects claim is released and nothing else changes |
| Recovery.RestartedColumns | src-tauri/src/session_service.rs:286-353 | the restarted state column by column: every running structural or DFM check has status queued and no start, its other columns as they were; every other check is equal; every batch is equal but for its two claims, which are gone |
| Recovery.AfterRestartIsUnique | src-tauri/src/session_service.rs:286-353 | these columns leave only one state |
| Recovery.RestartIsARun | src-tauri/src/session_service.rs:271-355 | a restart that succeeds is a run of ordinary calls, so everything that holds over runs holds across restarts |
| Recovery.RestartFacts | src-tauri/src/session_service.rs:271-355 | it leaves no claim and no running structural or DFM check, keeps the invariant and every finished check |
| Recovery.FinishChecks | src-tauri/src/session_repository/save.rs:714-778 | any set of checks can be brought to a terminal status without touching another check or batch |
| Recovery.CanFinish | src-tauri/src/session_repository/save.rs:714-1048 | no state is stuck: every batch can still reach effects-applied |
| BatchOutcomes.CheckCanSucceed | src-tauri/src/session_repository/save.rs:714-778 | from every lifecycle state an unfinished check can be saved as succeeded with any report, touching no other check and starting its batch |
| BatchOutcomes.CanSucceed | src-tauri/src/session_repository/save.rs:714-903 | an unsettled batch with an unfinished check can still be settled as succeeded with any report object, by any claimant |
| BatchOutcomes.RestartLosesNoCheck | src-tauri/src/session_service.rs:286-293 | a check that a restart interrupted can still succeed afterwards, on its contract |
| RouterSteps.StepKeepsOk | src-tauri/src/notification_router.rs:173-391 | every call keeps the router invariant: sequence numbers increase per channel, pending terminal ids are those of the buffer, registrations and channels are fresh |
| RouterSteps.New | src-tauri/src/notification_router.rs:173-208 | a router exists exactly for capacities that are positive with the pending buffer no larger than a route |
| RouterRuns.OneTerminalPerRegistration | src-tauri/src/notification_router.rs:343-391 | a channel is sent at most one terminal notification, and a route is marked terminal exactly if its own channel was sent one |
| RouterRuns.PromotionIsAllOrNothing | src-tauri/src/notification_router.rs:281-326 | promotion succeeds exactly for a valid free key, a live handle and a buffer of that turn only; otherwise nothing changes; it never fails on channel capacity |
| RouterRuns.DeadHandleStaysDead | src-tauri/src/notification_router.rs:281-341 | a promoted, cancelled or lost handle never touches a newer registration |
| RouterRuns.UsedHandleIsDead | src-tauri/src/notification_router.rs:256-341 | using a handle kills it, and a new handle is none of the earlier ones |
| RouterRuns.OnceTerminalKeepsTerminal | src-tauri/src/notification_router.rs:343-391 | the filter that drops later terminal notifications keeps one if there is one |
| RouterRuns.PromotedReceiverSeesTheFilter | src-tauri/src/notification_router.rs:256-391 | what a promoted receiver consumed plus what it still queues is, in order and with increasing sequence numbers, all error-free notifications of its key since the pending route began, with terminal ones after the first removed |
| RouterAnswers.NothingIsLost | src-tauri/src/notification_router.rs:256-391 | a receiver that is promoted in time and whose queue has room whenever a notification of its turn arrives is sent every one of them, in order, up to repeated ends of the turn: none is lost between begin and promotion nor after it |
| RouterAnswers.FilterKeeps | src-tauri/src/notification_router.rs:343-391 | up to repeated ends means: everything up to the first end of the turn, and after it all that ends no turn |
| RouterAnswers.ExactRouteAnswer | src-tauri/src/notification_router.rs:351-368 | a notification for an exact route is appended to its channel and answered exact exactly if it is no repeated end of the turn, the channel is open and holds fewer unread ones than the route capacity; suppressed exactly for a repeated end; closed exactly if the channel is closed; else full; nothing else changes |
| RouterAnswers.PendingRouteAnswer | src-tauri/src/notification_router.rs:369-384 | a notification for a turn without an exact route is buffered for its pending thread exactly if it is no repeated end of its turn and the buffer has room; suppressed exactly for a repeated end; else the buffer is full; nothing else changes |
| RouterAnswers.ElsewhereAnswer | src-tauri/src/notification_router.rs:343-391 | every other message changes no queue and is invalid, global or an orphan, exactly by what can be parsed of it |
| RouterAnswers.RegisterAnswer | src-tauri/src/notification_router.rs:218-231 | a route opens exactly for a free key without blank parts, on a new, empty, open channel, and the turn has not ended; else the reason is reported |
| RouterAnswers.BeginAnswer | src-tauri/src/notification_router.rs:256-279 | a pending route begins, empty and under a number above all waiting ones, exactly for a thread that is not blank and has none; else the reason is reported |
| RouterAnswers.PromoteAnswer | src-tauri/src/notification_router.rs:281-326 | a promotion hands over the whole buffer as the unread notifications of a new, open channel, and the turn has ended exactly if its end is in the buffer; every refusal names its reason, a mismatch the first other turn |
| RouterAnswers.CancelAnswer | src-tauri/src/notification_router.rs:328-341 | cancelling with a live handle removes its own pending route and counts what it drops |
| RouterAnswers.UnregisterAnswer | src-tauri/src/notification_router.rs:233-241 | after unregistering no message of the key is sent, and it is reported whether there was a route |
| RouterAnswers.FailAllAnswer | src-tauri/src/notification_router.rs:246-254 | after a lost connection every message of a turn is an orphan, and the dropped routes are counted |
| RouterAnswers.ClosedReceiverAnswer | src-tauri/src/notification_router.rs:355-363 | once the receiver is gone, its route takes nothing more and no other route is affected |
| RouterAnswers.ReadingDrains | src-tauri/src/notification_router.rs:218-231 | reading as often as there are unread notifications returns them oldest first |
| NotificationRouter.Router.Create | src-tauri/src/notification_router.rs:173-208 | an empty router, or a refusal exactly for the capacities that the code refuses |
| NotificationRouter.Router.RegisterRoute | src-tauri/src/notification_router.rs:218-231 | opens a fresh channel for a free key, not marked terminal |
| NotificationRouter.Router.UnregisterRoute | src-tauri/src/notification_router.rs:233-244 | drops the route and its terminal mark |
| NotificationRouter.Router.FailAllRoutes | src-tauri/src/notification_router.rs:246-254 | drops everything and reports how much |
| NotificationRouter.Router.BeginPendingRoute | src-tauri/src/notification_router.rs:256-279 | opens an empty buffer under a fresh registration, consuming a number even when it is refused |
| NotificationRouter.Router.FindMismatch | src-tauri/src/notification_router.rs:281-326 | the first buffered notification of another turn |
| NotificationRouter.Router.MoveQueue | src-tauri/src/notification_router.rs:281-326 | moves the buffer into the new channel, oldest first |
| NotificationRouter.Router.PromotePendingRoute | src-tauri/src/notification_router.rs:281-326 | turns a pending route into an exact one |
| NotificationRouter.Router.CancelPendingRoute | src-tauri/src/notification_router.rs:328-341 | removes the pending route of a live handle only |
| NotificationRouter.Router.RouteNotification | src-tauri/src/notification_router.rs:343-391 | the routing step on the maps, with every outcome and error; which one is due when is RouterAnswers.ExactRouteAnswer, PendingRouteAnswer and ElsewhereAnswer |
| TurnManager.ActKeepsMOk | src-tauri/src/agent_thread_manager.rs:292-578 | every step of every task keeps leases and routes exact |
| TurnManager.TurnResourcesAreExact | src-tauri/src/agent_thread_manager.rs:292-578 | the active scopes are the scopes of the live leases, no two share session and plane, and a call that returned an error holds no lease and no route it opened, the routes being gone before the lease |
| TurnManager.StartAnswer | src-tauri/src/agent_thread_manager.rs:1205-1223 | after any run, a call gets the lease exactly if session and owner are not blank and nobody holds a lease for the session and plane; else it returns at once; nothing else changes |
| TurnManager.NoRouteWithoutOwner | src-tauri/src/agent_thread_manager.rs:292-578 | every exact route belongs to a bound or running turn and every pending one to a call that waits or is about to cancel it |
| TurnManager.FinishThenDropReleasesOnce | src-tauri/src/agent_thread_manager.rs:93-109 | once finish_turn is done, the drop releases no lease, and touches the router exactly if its key was opened again meanwhile |
| TurnManager.LateDropClosesReopenedRoute | src-tauri/src/agent_thread_manager.rs:93-109 | from any idle router and for any valid key: a run after which the drop of a finished turn closes the route of another, running turn |
| TurnManager.MarkLoadedKeepsMOk | src-tauri/src/agent_thread_manager.rs:1243-1260 | marking loads the thread on its connection and forgets exactly the threads of other connections, so all loaded threads belong to the connection that was marked last |
| AgentThreadManager.ThreadManager.StartTurn | src-tauri/src/agent_thread_manager.rs:292-578 | with notifications arriving meanwhile, a start succeeds exactly under the listed conditions, adds one lease and one route, and an error leaves both as they were |
| AgentThreadManager.ThreadManager.OpenRoute | src-tauri/src/agent_thread_manager.rs:320-437 | from the pending route to the bound turn, with every error path |
| AgentThreadManager.ThreadManager.ReadEarly | src-tauri/src/notification_router.rs:343-391 | what the reader routes while a call waits changes no route, only buffers and channels |
| AgentThreadManager.ThreadManager.PromoteAndBind | src-tauri/src/agent_thread_manager.rs:360-437 | promotion with whatever was buffered, and binding; cancelled or unregistered on error |
| AgentThreadManager.ManagedTurn.FinishTurn | src-tauri/src/agent_thread_manager.rs:673-711 | nothing is released unless the record is saved; then route and lease are |
| AgentThreadManager.ManagedTurn.Release | src-tauri/src/agent_thread_manager.rs:93-109 | unregisters the key and releases the lease once |
| ProcessClient.ActKeepsOk | src-tauri/src/codex_process_client.rs:138-334 | every atomic step of callers, initialiser, reader and shutdown keeps the connection invariant |
| ProcessClient.SingleFlight | src-tauri/src/codex_process_client.rs:138-167 | at most one initialize per connection, exactly one if anyone won the race, and all callers get the same result |
| ProcessClient.CellIsSetOnce | src-tauri/src/codex_process_client.rs:138-167 | the spawned task never finds the cell already set |
| ProcessClient.NobodyStaysParked | src-tauri/src/codex_process_client.rs:138-167 | once notified, every parked caller is ready to run |
| ProcessClient.EveryCallerReturns | src-tauri/src/codex_process_client.rs:138-167 | in any run after the notification, a caller that takes as many own steps as it has left, at most three, has returned with the result in the cell |
| ProcessClient.CallerGetsThrough | src-tauri/src/codex_process_client.rs:138-167 | after the notification every own step brings a caller closer to its result |
| ProcessClient.OthersDoNotDelay | src-tauri/src/codex_process_client.rs:138-167 | and no step of anyone else moves it away |
| ProcessClient.FutureBeforeCheck | src-tauri/src/codex_process_client.rs:157-166 | because the future is created before the cell is checked, cell and notification in between do not leave the caller parked |
| ProcessClient.GenerationsAreFresh | src-tauri/src/codex_process_client.rs:283-334 | a new connection has a generation no earlier one had, and a reader of another connection than the one in the slot changes nothing |
| ProcessClient.DeadConnectionIsReplaced | src-tauri/src/codex_process_client.rs:264-334 | the end of the reader whose connection is in the slot empties the slot, and so does a shutdown; whoever comes next opens a connection of a larger generation that no earlier one had, with nothing done on it |
| ProcessClient.DeadConnectionStaysOut | src-tauri/src/codex_process_client.rs:283-334 | in any run, a connection that is out of the slot never returns to it |
| ProcessClient.LiveConnectionIsShared | src-tauri/src/codex_process_client.rs:283-289 | while a connection is in the slot, everyone who comes joins it |
| ProcessClient.CellIsTheResponse | src-tauri/src/codex_process_client.rs:148-155 | over any run, the result in the cell of a connection is the response that arrived while its one request was outstanding |
| ProcessClient.FirstCallerParks | src-tauri/src/codex_process_client.rs:138-167 | on an empty slot the first caller opens the next connection, sends its only request and parks |
| ProcessClient.ParkedCallerGetsTheResponse | src-tauri/src/codex_process_client.rs:148-166 | the response wakes it and it returns with that response |
| ProcessClient.LaterCallerGetsTheResult | src-tauri/src/codex_process_client.rs:138-142 | whoever comes when the result is there returns with it at the first look, without another request |
| CodexProcessClient.CodexClient.EnsureStarted | src-tauri/src/codex_process_client.rs:283-334 | hands out the live connection, or opens the next generation if the process can be spawned; else nothing changes |
| CodexProcessClient.CodexClient.LookAtCell | src-tauri/src/codex_process_client.rs:138-142 | returns the stored result, else goes on to compete |
| CodexProcessClient.CodexClient.CompareExchange | src-tauri/src/codex_process_client.rs:143-156 | exactly the first caller wins and sends the only request |
| CodexProcessClient.CodexClient.CreateFuture | src-tauri/src/codex_process_client.rs:161-162 | remembers the notifications so far |
| CodexProcessClient.CodexClient.LookAgain | src-tauri/src/codex_process_client.rs:163-165 | returns the stored result, else parks on the future |
| CodexProcessClient.CodexClient.CompleteInitialization | src-tauri/src/codex_process_client.rs:148-155 | sets the empty cell, then makes every parked caller ready |
| CodexProcessClient.CodexClient.ReaderEnded | src-tauri/src/codex_process_client.rs:437-445 | empties the slot if it holds the reader's own connection, and leaves it alone if not |
| CodexProcessClient.CodexClient.TakeForShutdown | src-tauri/src/codex_process_client.rs:264-267 | empties the slot and hands out the connection whose process is to be killed |
| StlWeld.CloseMeansNeighbour | ui/src/stlPreviewGeometry.ts:173-206 | points within the tolerance lie in neighbouring cells, so 27 cells are enough |
| StlWeld.WithinMeans | ui/src/stlPreviewGeometry.ts:200-203 | within the tolerance means that the squared coordinate differences add up to at most its square |
| StlWeld.BuildTrianglePeers | ui/src/stlPreviewGeometry.ts:226-237 | two vertices are peers exactly if they are different corners of a triangle |
| StlWeld.PeersAreSymmetric | ui/src/stlPreviewGeometry.ts:226-237 | peerhood is symmetric and irreflexive |
| StlWeld.SearchCell | ui/src/stlPreviewGeometry.ts:194-206 | one cell: the oldest eligible representative of the cell, or none exactly if the cell holds none |
| StlWeld.FindMatch | ui/src/stlPreviewGeometry.ts:184-210 | the 27-cell search finds the first eligible representative in the order of cells and age, exactly if a full scan of all representatives would find any |
| StlWeld.OpenGroup | ui/src/stlPreviewGeometry.ts:211-217 | a vertex without a match opens a group, and the welding invariant holds |
| StlWeld.JoinGroup | ui/src/stlPreviewGeometry.ts:218-221 | a matched vertex joins its group, and the welding invariant holds |
| StlWeld.WeldVertices | ui/src/stlPreviewGeometry.ts:173-224 | the groups partition the vertices, every vertex is within tolerance of its representative, no group holds two corners of a triangle, any two representatives within tolerance are joined by a triangle edge, and every vertex joined the first group that was eligible when it came, or opened one because none was |
| StlNormals.CollapsesIffRepeatsAVertex | ui/src/stlPreviewGeometry.ts:82-90 | merging collapses a triangle exactly if the triangle repeats a source vertex |
| StlNormals.SmoothNormalFacesItsFace | ui/src/stlPreviewGeometry.ts:108-120 | a smoothed normal has a dot product of at least one with its own unit face normal |
| StlNormals.SmoothSumPicks | ui/src/stlPreviewGeometry.ts:109-112 | the sum is the coordinate-wise sum at exactly the positions whose normal exceeds the crease value |
| StlNormals.OneMoreNormal | ui/src/stlPreviewGeometry.ts:110-112 | wherever a normal comes in, it adds itself if it lies within the crease angle and nothing if it does not |
| StlNormals.PushFaceNormals | ui/src/stlPreviewGeometry.ts:82-106 | the first loop stops at the first bad triangle and says why, or leaves each group the normals of the triangles that touch it, in order |
| StlNormals.AddSmooth | ui/src/stlPreviewGeometry.ts:109-112 | adds up exactly the adjacent normals whose dot product with the face exceeds the crease value, each as often as it occurs |
| StlNormals.CreateGeometry | ui/src/stlPreviewGeometry.ts:43-136 | succeeds exactly if every triangle has three different source vertices and an area; the normal of a corner is the sum of the normals of exactly those triangles that meet its merged vertex with a dot product above the crease value, its own among them; the zero-normal error is unreachable |
| CivilDate.CivilFollowsTheCalendar | src-tauri/src/cli/support.rs:633-645 | for every day number, the day after is the calendar successor of the date |
| CivilDate.EpochIsDayZero | src-tauri/src/cli/support.rs:633-645 | day 0 is 1970-01-01 |
| CivilDate.CivilIsValid | src-tauri/src/cli/support.rs:633-645 | every day number gives a date of the calendar |
| CivilDate.CountingUndoesCivil | src-tauri/src/cli/support.rs:633-645 | counting days by years, months and days recovers the day number |
| CivilDate.CivilUndoesCounting | src-tauri/src/cli/support.rs:633-645 | every date of the calendar comes from its day number and from no other |
| CivilDate.LaterDaysAreLaterDates | src-tauri/src/cli/support.rs:633-645 | later day numbers give later dates |
| CivilDate.PartsAreFound | src-tauri/src/cli/support.rs:636-639 | the divisions find year and day of the era, for every position in 400 years |
| CivilDate.YearCastIsHarmlessIff | src-tauri/src/cli/support.rs:644 | the cast of the year to 32 bits is harmless exactly between the first and the last day of the 32-bit years |
| Timestamps.TimestampsAreOrdered | src-tauri/src/cli/support.rs:593-631 | later moments have later texts, to the end of year 9999 |
| Timestamps.FiveDigitYearsSortFirst | src-tauri/src/cli/support.rs:601-608 | one millisecond after year 9999 the text sorts before |
| Timestamps.OrderHoldsIff | src-tauri/src/session_repository/load.rs:738 | text order is time order up to a moment exactly if the moment is within year 9999 |
| Timestamps.PaddedIsOrdered | src-tauri/src/cli/support.rs:593-608 | zero padding makes text order the order of numbers |
| Timestamps.TimestampReadsBack | src-tauri/src/cli/support.rs:593-631 | to the end of year 9999 a timestamp has the layout YYYY-MM-DDTHH:MM:SS.mmmZ, and reading it back by the calendar gives the same millisecond |
| CommandLine.ParseArgs | src-tauri/src/cli/support.rs:178-228 | the loop computes the parse with all its errors |
| CommandLine.PrintedOptionsParse | src-tauri/src/cli/support.rs:178-228 | well-formed options in any order and either spelling mean what they say |
| CommandLine.ParsedArgsArePrinted | src-tauri/src/cli/support.rs:178-228 | whatever is accepted is a list of well-formed options |
| CommandLine.AcceptedIff | src-tauri/src/cli/support.rs:178-228 | the accepted argument lists are exactly the well-formed ones |
| CommandLine.RefusedIff | src-tauri/src/cli/support.rs:178-228 | an argument list is refused with an error exactly if it is well-formed options up to a mistake of that kind: a missing value, a repeated key, an empty key or value around the equals sign, two bare dashes, or a positional word |
| CommandLine.MeaningIs | src-tauri/src/cli/support.rs:178-228 | every key of well-formed options has the value of the one option that sets it |
| ShellQuote.QuotedArgumentIsOneWord | src-tauri/src/modeling_plane/prompt.rs:179-187 | the shell reads a quoted argument back as one word, character by character |
| ShellQuote.CommandIsWords | src-tauri/src/modeling_plane/prompt.rs:85-96 | a command with quoted options reaches the program as its name and those arguments |
| ShellQuote.WordsParseIff | src-tauri/src/cli/support.rs:178-228 | options printed as two words come back exactly if no value begins with two dashes |
| ShellQuote.SessionStateRoundTripIff | src-tauri/src/modeling_plane/prompt.rs:75-87 | the session-state command, read by the shell and by the option parser, gives the three values back exactly if neither identifier begins with two dashes |
| ShellQuote.CommandExistsIff | src-tauri/src/modeling_plane/prompt.rs:67-88 | the command exists exactly for a request that is not blank, an absolute path and values, the revision included, that are neither blank nor hold a NUL or a line break |
| DfmProfile.ParseDfmProfile | ui/src/dfmProfile.ts:82-133 | the loops compute entries and errors in order |
| DfmProfile.ErrorFreeIff | ui/src/dfmProfile.ts:82-133 | a profile has no errors exactly if every line is blank, a comment or a setting, no key is set twice, a bed shape can be read and every required key is set to something |
| DfmProfile.ValuesComeFromLines | ui/src/dfmProfile.ts:82-133 | without such errors, an entry has a value exactly if a line sets it |
| DfmProfile.UpdateDfmProfileValue | ui/src/dfmProfile.ts:157-170 | the loop replaces in every line that names the key and refuses any count but one |
| DfmProfile.SplitUndoesJoin | ui/src/dfmProfile.ts:157-170 | splitting undoes joining of lines |
| DfmProfile.SeenKeysAreNamedOnce | ui/src/dfmProfile.ts:82-133 | without errors, a key is an entry exactly if one line names it, and no more |
| DfmProfile.UpdatedLinesRead | ui/src/dfmProfile.ts:157-170 | reading the updated lines gives the same keys in the same order with one value changed |
| DfmProfile.UpdateThenParse | ui/src/dfmProfile.ts:157-170 | for an error-free profile and one of its keys the update succeeds, and parsing gives the changed entry and no error exactly if the new value is acceptable |
| DfmProfile.UpdateChangesOneLine | ui/src/dfmProfile.ts:157-170 | exactly one line changes, and in it only what follows the first equals sign |
| DfmProfile.SecondUpdateOverwrites | ui/src/dfmProfile.ts:157-170 | a second update of the same key overwrites the first one exactly |
| DfmProfileText.TrimIsUnique | ui/src/dfmProfile.ts:88-97 | trimming removes the ECMAScript white space at both ends and nothing else, and there is one way to do so |
| DfmProfileText.LinesBetweenBreaks | ui/src/dfmProfile.ts:86 | the lines of a profile are those between its breaks, line feeds, carriage returns and pairs of both mixed at will |
| DfmProfileText.SettingIff | ui/src/dfmProfile.ts:88-101 | a line is a setting exactly if it is a name of letters, digits, underscore, dot and dash, an equals sign and a value, each between white space |
| DfmProfileText.SkippedIff | ui/src/dfmProfile.ts:89-90 | a line is skipped exactly if it is blank or a comment after # or ; |
| DfmProfileText.NoSeparatorIff | ui/src/dfmProfile.ts:91-95 | key and value are missing exactly on a line that is not skipped and has no equals sign or begins with one |
| DfmProfileText.BadKeyIff | ui/src/dfmProfile.ts:96-101 | a key is invalid exactly if the text before the first equals sign, between white space, is no name |
| DfmProfileText.ProfileAnswer | ui/src/dfmProfile.ts:82-133 | which entries a profile has and which errors: every error with its line, a repetition even if the first line was refused, and of the five needed settings those that no entry sets or one sets to nothing |
| DfmProfileText.UpdateAnswer | ui/src/dfmProfile.ts:157-170 | an update succeeds exactly if one line names the key, and else reports how many do |
| TransportPolicy.NormalizeTransportValue | src-tauri/src/agent_gateway.rs:727-784 | the recursive normaliser with its two flags |
| TransportPolicy.NormalFits | src-tauri/src/agent_gateway.rs:727-784 | every result is bounded in depth, number and text length and has only the marker under sensitive keys |
| TransportPolicy.UnchangedIffFits | src-tauri/src/agent_gateway.rs:727-784 | exactly the values of that shape are left unchanged |
| TransportPolicy.NormalIsIdempotent | src-tauri/src/agent_gateway.rs:727-784 | normalising twice changes nothing more, at every depth |
| TransportPolicy.NoFlagIffClean | src-tauri/src/agent_gateway.rs:727-784 | neither flag is raised exactly for values within all bounds and without a sensitive key, which pass unchanged |
| TransportPolicy.ItemsArePointwise | src-tauri/src/agent_gateway.rs:748-763 | each of the first items is normalised on its own, in place, and a flag is raised exactly if some item raises it |
| TransportPolicy.MembersArePointwise | src-tauri/src/agent_gateway.rs:764-781 | the same for members, where a sensitive key keeps its name, gets the marker and raises the redaction flag only |
| TransportPolicy.MembersFit | src-tauri/src/agent_gateway.rs:764-781 | the kept members are the first ones, under their own keys and in order |
| TransportPolicy.PrefixKeepsSensitivity | src-tauri/src/agent_gateway.rs:786-804 | a sensitive key stays sensitive behind any prefix |
| TransportPolicy.NormalAnswer | src-tauri/src/agent_gateway.rs:673-784 | the result level by level: from depth 12 a marker; of a text the first 4096 characters and a marker; of a collection the first 64 parts, each normalised one level down or hidden behind its sensitive key; and both flags exactly |
| TransportPolicy.SensitiveIff | src-tauri/src/agent_gateway.rs:786-804 | a key is sensitive exactly if its letters and digits end in one of the eight words |
| TransportPolicy.SquashPerCharacter | src-tauri/src/agent_gateway.rs:786-791 | letters and digits of a key are kept, capitals lowered by 32, everything else dropped, character by character |
| PromptTemplate.PlaceholderOccurrences | src-tauri/src/prompt_template.rs:91-119 | the first scan counts every placeholder or reports the first error |
| PromptTemplate.ParseIff | src-tauri/src/prompt_template.rs:91-119 | the first scan accepts exactly the well-formed templates, each read in one way |
| PromptTemplate.FillTemplate | src-tauri/src/prompt_template.rs:69-88 | the second scan fills the template; its error branches are unreachable |
| PromptTemplate.RenderStrictTemplate | src-tauri/src/prompt_template.rs:3-89 | the renderer with all its refusals |
| PromptTemplate.FinishRendering | src-tauri/src/prompt_template.rs:35-89 | the checks of the template against the declared names, and the second scan |
| PromptTemplate.RenderIff | src-tauri/src/prompt_template.rs:3-89 | a render succeeds exactly if declared names, values and placeholders are the same names, each once, and the result is the template with each placeholder replaced, values not scanned again |
| PromptTemplate.RenderingItselfIsIdentity | src-tauri/src/prompt_template.rs:69-88 | rendering each name to its own placeholder gives the template back |
| PromptRefusals.RenderFailsIff | src-tauri/src/prompt_template.rs:3-89 | a render is refused with an error exactly if that error is due: the first mistake among the declared names, else among the given values, else a missing value, else the first mistake in the template, else an undeclared placeholder, else a declared one that does not occur exactly once |
| PromptRefusals.ScanFailsIff | src-tauri/src/prompt_template.rs:91-119 | the first scan fails with an error exactly if the text is a well-formed template up to a closing delimiter without an opening one, an opening one without a closing one, or an invalid name |
| PromptRefusals.DeclarationFailsIff | src-tauri/src/prompt_template.rs:9-17 | declared names are refused exactly for the first that is no name or a repetition |
| PromptRefusals.ProvisionFailsIff | src-tauri/src/prompt_template.rs:19-33 | given values are refused exactly for the first whose name is no name, not declared or a repetition |
| PromptRefusals.NameIff | src-tauri/src/prompt_template.rs:121-135 | a name is one or more ASCII capitals, digits and underscores |

## Left out

- Lifecycle.StepKeepsInv: rows are never deleted, because deleting a session takes all its rows along at once.
- RouterSteps.StepKeepsOk: numbering a notification and dispatching it is one step, so there is one reader at a time;
  the code takes the number before the lock, and two readers could dispatch in another order than they numbered.
- AgentThreadManager.ThreadManager.StartTurn: checking the rest of the input is one answer; loading and checking the run,
  activating the thread and the connection are another, and a connection lost meanwhile is left to the interleavings of
  `TurnManager`.
- AgentThreadManager.ThreadManager.OpenRoute: the status of the thread record is not kept.
- AgentThreadManager.ThreadManager.PromoteAndBind: the status of the thread record is not kept.
- AgentThreadManager.ManagedTurn.FinishTurn: loading, comparing and saving the thread record is one answer.
- StlNormals.PushFaceNormals: face normals are given, as unit vectors or as absent for a triangle without area.
- StlNormals.CreateGeometry: the tolerance and the face normals are given; the diagonal, scaling the summed normals to
  unit length and the validation of the mesh arrays are not modelled. Geometry is over the real numbers.
- DfmProfile.ParseDfmProfile: whether a `bed_shape` can be read is a parameter; category and value type of an entry,
  which are computed from key and value alone, are not kept.
- SQLite, migrations, connections, row mapping and the other tables: a transaction is one atomic step; the run,
  evaluation, thread and artifact rows that guards read are written by arbitrary steps of the environment, and
  evaluations and validation threads are only added.
- The validation coordinator, the evaluator and other callers: any caller may issue any call at any time.
- Writers that run during restart normalisation; the order in which it visits rows is arbitrary.
- Error texts: an error is a constructor, `Refused` or `NotClaimed`.
- Poisoned locks: a lock is always acquired.
- The wrap-around of the 64-bit counters of router and client: they are natural numbers.
- Extracting identifiers from notifications: a notification comes with its parsed identifiers or cannot be parsed.
- The global and orphan broadcast channels and their lag: the reply says which one was used.
- Thread activation, reconciliation and history of the turn manager: the answers of service and transport are inputs.
- Futures of `start_turn` that are dropped while they wait: only calls that return are covered.
- The requests and responses of the process client other than `initialize`.
- A reader that ends late fails the routes of a newer connection as well; this is a step of the model and nothing
  stronger is claimed.
- The clock: a moment is a parameter, and two calls may happen in the same millisecond.
- Shell expansions: a line with an unquoted character that needs any other rule of the shell is not read at all. Paths
  are absolute in the POSIX sense.
- Which declared name a template error mentions first; the names themselves are in the errors only where the order of
  the arguments decides.
- The wrapper that hides reasoning content and appends the policy member to a transport event: it is not idempotent by design.
- JSON object members are a sequence in the order of the map; that keys differ is not needed.
