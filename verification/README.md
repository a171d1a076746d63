# AkuSupervisor: a verified model of its stateful cores

AkuSupervisor starts, stops and watches a set of local services that depend on one another, streams
their output to live viewers, and lets agents propose changes to the service table that a human has
to approve. This project models the parts of it whose behaviour is decided by state and algorithms
rather than by the operating system, and proves what they promise over all inputs and all runs.

- **Dependency planning** (`DependencyGraph`, `Exploration`, `StartPlanning`, `ShutdownPlanning`,
  `DependencyIssues`, `StartupBudget`, `BatchOrdering`, `DependencyAwareControl`). One reference, an
  unmemoised depth-first search over a plain graph (`Exploration.Explore`), specifies the memoised
  start planner, the three-colour cycle finder, and the command line's own re-implementation. Shutdown
  order is specified by a greedy relation that has at most one solution, and one exactly when the graph is
  acyclic: the lexicographically least dependents-first order. `DependencyAwareControl.DependencyAware.Mutate`
  is specified by the script of calls it intends, run against a wrapped control that answers arbitrarily.
- **Live logs** (`LineFraming`, `LiveLogs`, `LiveLogHub`, `LiveLogClient`, `LiveLogCoverage`,
  `LiveLogLosses`). Byte chunks become lines, lines go into a doubly bounded ring and into bounded subscriber
  queues with gap accounting, and viewers resume by cursor.
- **Request and lifecycle state machines** (`Lifecycle`, `ServiceRuntime`, `Idempotency`,
  `CooperativeOperations`, `Registration` with `RegistrationAuthority`). Each has a pure step function, an
  invariant, theorems over every run or interleaving, and a class with the original's fields whose methods
  are proved to take exactly those steps. Callbacks, file writes, clocks and checks outside the model answer
  arbitrarily.
- **Byte-level readers** (`Bytes`, `ChunkedBody`, `AuditTail`). The chunked transfer decoder (section 7.1
  of RFC 9112) and the incremental follower of the registration audit.

Four findings are stated as theorems rather than assumed away.

- Every chunking of a log stream shows the lines of the whole stream if and only if no 64 KiB window of it
  lacks a newline (`LineFraming.EveryChunkingSplitsIff`). The chunking makes no difference at all if and
  only if such windows occur only in the unterminated end (`LineFraming.ChunkingNeverMattersIff`).
- A reconnecting viewer never receives a number twice (`LiveLogClient.NoLineTwice`), but it can miss a line
  that the ring still holds: a hub reset moves the cursor past the replay behind it, and a gap moves it to
  the line behind the gap, so a hang-up right there orphans them. `LiveLogCoverage.ClosingOrphansExactly`
  says that nothing else is orphaned; `LiveLogLosses.ResetThenHangupLosesReplay` and
  `LiveLogLosses.GapThenHangupLosesLine` give a run for each.
- A committed registration draft loses that status only through the confirmation of a copy read while the
  draft was still merely prepared (`Registration.CommittedIsUndoneExactlyBy`), and
  `Registration.OvertakenApprovalReopens` gives a run in which the same draft then writes the configuration
  a second time; without overtaken approvals it cannot happen (`Registration.CommittedIsFinal`).
- An idempotent request is replayed for exactly as long as fewer than 1024 other ids were stored after it
  (`Idempotency.RepeatsAreReplayed`).

Where the code and its comments differ, the model follows the code: the planners' comments say that
unrelated services "retain" their order (src/application/dependency_control.rs:121-123, 179-180), while
what the code computes is the prefix law of `StartPlanning.StartOrderPrefix` and the lexicographic minimum
of `ShutdownPlanning.GreedyIsLeast`.

Every lemma carries `{:induction false}`: each induction is written out in the body. `hide` statements
keep definitions a proof does not need away from the solver. `dafny verify dfyconfig.toml` checks the
whole project.

## Model

| member | source | states |
|---|---|---|
| Exploration.ExploreSucceedsIff | src/application/dependency_control.rs:152-177 | the reference search succeeds exactly when every service reachable from the requests is registered and no reachable service lies on a cycle; otherwise its fault is a real missing service or closed walk below some request |
| Exploration.RevisitAddsNothing | src/application/dependency_control.rs:158-163 | skipping a finished service is sound: searching it again from any path succeeds and lists nothing new |
| StartPlanning.StartVisit.Visit | src/application/dependency_control.rs:152-177 | one memoised visit appends to the order exactly what the reference search lists and the order lacks, or fails with the reference's fault; it terminates on every graph |
| StartPlanning.StableStartOrder | src/application/dependency_control.rs:129-150 | the planner equals the duplicate-free reference order, errors included |
| StartPlanning.StartOrderSucceedsIff | src/application/dependency_control.rs:129-177 | planning succeeds if and only if everything reachable is registered and cycle-free; a failure names a reachable unregistered id or a reachable service that lies on a cycle, and it is that of the first request that cannot be planned |
| StartPlanning.StartOrderIsPlan | src/application/dependency_control.rs:129-177 | a plan has no duplicates, puts every dependency before its dependents, and contains exactly the reachable services |
| StartPlanning.StartOrderPrefix | src/application/dependency_control.rs:120-150 | for every k, the services reached from the first k requests form a prefix of the plan |
| StartPlanning.TargetComesLast | src/application/dependency_control.rs:78-101 | a plan for one service ends with it, so all others are its dependencies |
| StartPlanning.DeclaredOrderCounts | src/application/dependency_control.rs:152-177 | a service is planned right behind the plan for its dependencies, taken in the order it declares them |
| StartPlanning.AppendsInOrder | src/application/dependency_control.rs:138-150 | one more request appends those services of its own plan that are not planned yet, in that order |
| StartPlanning.LastSnapshotCounts | src/application/dependency_control.rs:133-136 | planning knows exactly the ids of the snapshots, each with what its last snapshot declares |
| ShutdownPlanning.StableShutdownOrder | src/application/dependency_control.rs:186-243 | with complete dependencies the result is the least dependents-first order or reports a genuine cycle; otherwise it names the first unregistered declaration; no dependent count goes below zero |
| ShutdownPlanning.DrainReady | src/application/dependency_control.rs:213-243 | the ready-list loop takes at every step the first available service, and stops short only on a cycle |
| ShutdownPlanning.ShutdownSucceedsIff | src/application/dependency_control.rs:186-243 | on complete graphs planning succeeds if and only if the graph is acyclic, and the result is a permutation with every dependent before its dependencies |
| ShutdownPlanning.GreedyIsLeast | src/application/dependency_control.rs:179-243 | the plan is lexicographically least: any other shutdown order agrees with it up to a place where the plan has the service that comes earlier among the snapshots |
| ShutdownPlanning.GreedyIsUnique | src/application/dependency_control.rs:179-243 | only one order satisfies the shutdown specification |
| DependencyIssues.CycleSearch.Visit | src/adapters/config.rs:658-690 | one three-colour visit finds a cycle exactly when the reference search of the registered subgraph does, and returns that cycle |
| DependencyIssues.DependencyCycleOf | src/adapters/config.rs:657-702 | the finder over all services returns the first cycle of the reference search, or none |
| DependencyIssues.CycleFinderIsExact | src/adapters/config.rs:657-702 | a returned walk is closed and follows dependency edges; none is returned exactly when the registered graph is acyclic |
| DependencyIssues.ServiceIssues | src/adapters/config.rs:621-647 | the issues of one service, declaration by declaration in order, each list spelled out; each self or unknown declaration once per occurrence, each repeated one once less |
| DependencyIssues.ValidateServiceDependencies | src/adapters/config.rs:617-655 | issues of services earlier in key order come first and a cycle comes last; an issue is reported if and only if it holds of the configuration |
| DependencyIssues.CleanIffWellFormed | src/adapters/config.rs:617-702 | no issue holds if and only if all dependencies are registered, none is repeated and there is no cycle |
| DependencyIssues.CleanConfigurationPlans | src/adapters/config.rs:617-702 | a configuration without issues makes start planning succeed for every registered request, and shutdown planning succeed |
| StartupBudget.CollectRelevant | src/adapters/config.rs:399-418 | the worklist ends on cyclic graphs too, with exactly the reachable ids, and meets each unknown one once |
| StartupBudget.ValidateLaunchReadiness | src/adapters/config.rs:399-436 | ready if and only if something was requested and all reachable services are registered with usable paths; otherwise the unknown reachable ids once each, then the path issues of the reachable services in key order, as the issues' positions say; each of the three issues is reported exactly when it holds |
| StartupBudget.ReadinessCoversPlan | src/adapters/config.rs:399-436 | the readiness check inspects exactly the services of the start plan |
| StartupBudget.BudgetVisit.Visit | src/cli.rs:1953-1970 | a visit charges each service it adds to the shared visited set once, saturating, and fails only on a missing service below it |
| StartupBudget.DependencyStartupBudgetMs | src/cli.rs:1949-1973 | the budget is the sum over all reachable services, cut off at the largest 64-bit value, whatever the sharing or the cycles |
| StartupBudget.BudgetIsPlanTotal | src/cli.rs:1949-1973 | for a plannable target the budget is the sum of all prerequisite and startup deadlines over exactly its start plan, cut off at the largest 64-bit value |
| BatchOrdering.RequestedVisit.Visit | src/cli.rs:1891-1918 | the command line's visit equals the reference search of the requested subgraph |
| BatchOrdering.OrderForStart | src/cli.rs:1823-1839 | start and restart batches equal the start plan of the requested subgraph |
| BatchOrdering.OrderForStop | src/cli.rs:1840-1888 | stop batches equal the shutdown plan of the requested subgraph |
| BatchOrdering.OrderMutationServiceIds | src/cli.rs:1794-1889 | unknown ids are rejected first, then an empty request; otherwise the batch is planned on the requested services and the direct edges between them |
| BatchOrdering.SnapshotsDescribeRequestedGraph | src/cli.rs:1794-1889 | that subgraph is what the server's planners would see for snapshots of the requested services |
| BatchOrdering.BatchIsPermutation | src/cli.rs:1794-1889 | each distinct requested id appears exactly once, an accepted request fails exactly when the requested services form a cycle, and of two requested services one of which declares the other, stopping takes the dependent first and starting the dependency |
| DependencyAwareControl.DependencyAware.Mutate | src/application/dependency_control.rs:65-118 | stop is one mutation; start and restart take snapshots and plan, and a failing plan is answered with its kind and service; otherwise the calls made are in order and the answer is the last call's: first one preflight, in plan order, of each planned service whose snapshot has no root process and of a restart target, then one announcement if the plan has several services, then the dependencies' starts and the action; all up to the first failure, whose error gets the context of its call |
| DependencyAwareControl.ScriptMutations | src/application/dependency_control.rs:91-118 | the script's mutations start each dependency in plan order and then apply the action to the target |
| DependencyAwareControl.ScriptPreflights | src/application/dependency_control.rs:78-96 | every preflight precedes every mutation; preflighted are exactly the planned services whose last snapshot has no root process, and a restart target, each once |
| DependencyAwareControl.RunIsSafe | src/application/dependency_control.rs:65-118 | for arbitrary answers: the mutations made are a prefix of the planned ones and all of them on success, a failed preflight leaves none, and no mutation happens before all preflights did |
| DependencyAwareControl.RunIsOrderly | src/application/dependency_control.rs:65-118 | for arbitrary answers, read off the calls made: which services are preflighted, announced and mutated, in which order, where the run stops and what is answered |
| LineFraming.FrameConserves | src/adapters/service_logs.rs:460-486 | cutting a buffer loses and reorders no byte; the leftover has no newline and is under 64 KiB |
| LineFraming.FeedConserves | src/adapters/service_logs.rs:251-271 | the same over any run of publishes |
| LineFraming.CloseConserves | src/adapters/service_logs.rs:251-292 | after closing, the emitted pieces spell out the whole stream |
| LineFraming.SplitIs | src/adapters/service_logs.rs:463-469 | the lines of a whole stream: each ends at a newline and loses one carriage return before it; a non-empty end without a newline is a line too |
| LineFraming.DenseFeed | src/adapters/service_logs.rs:251-292 | without a newline-free 64 KiB window, every chunking shows exactly the lines of the whole stream, CR LF split across chunks included |
| LineFraming.SparseBreaks | src/adapters/service_logs.rs:470-476 | with such a window there is a chunking that shows something else |
| LineFraming.EveryChunkingSplitsIff | src/adapters/service_logs.rs:251-292 | hence every chunking shows exactly the lines of the whole stream if and only if there is no such window |
| LineFraming.FeedIsFrame | src/adapters/service_logs.rs:251-271 | if such windows occur only in the unterminated end, publishing in chunks gives what publishing at once gives |
| LineFraming.LongLineMatters | src/adapters/service_logs.rs:470-476 | a terminated line of 64 KiB or more, cut inside by a chunk boundary, gives one line more than publishing at once |
| LineFraming.LongEndShown | src/adapters/service_logs.rs:470-475 | a stream of 64 KiB or more without a newline is shown 64 KiB at a time, each part with the truncation note |
| LineFraming.ChunkingNeverMattersIff | src/adapters/service_logs.rs:251-292 | any two chunkings of a stream show the same if and only if no newline ends a line of 64 KiB or more |
| LiveLogs.LiveServiceState.TakeCompleteLines | src/adapters/service_logs.rs:460-486 | the draining loop returns the framed lines and keeps the framed leftover; the other stream's buffer is untouched |
| LiveLogs.LiveServiceState.PushRing | src/adapters/service_logs.rs:538-550 | after every push the ring is the retained suffix of all lines pushed, within 1000 lines and 1 MiB, and the byte counter its exact text size |
| LiveLogs.RetainedIsLongestSuffix | src/adapters/service_logs.rs:538-550 | the retained suffix has at most 1000 lines and 1 MiB of text, and every longer suffix breaks a bound |
| LiveLogs.LiveServiceState.Deliver | src/adapters/service_logs.rs:494-532 | a line of the other stream leaves a single-stream subscriber alone; otherwise one or two attempts to send, before each of which the receiver may have taken entries or hung up, come to this: the pending gap and then the line as far as the free places in the queue of 256 reach, the rest counted as dropped; a subscriber is removed exactly if its receiver is gone at an attempt, and every exact account stays exact |
| LiveLogs.LiveServiceState.PublishEvent | src/adapters/service_logs.rs:488-536 | every subscriber gets its offer, disconnected ones go, the ring and all accounts stay right; each surviving subscriber was sent only lines of its stream, and each of these since it joined was sent, lies within a gap it was told of, or is pending |
| LiveLogs.MatchingIs | src/adapters/service_logs.rs:67-72 | a selection of both streams keeps every line, one of a single stream exactly that stream's lines |
| LiveLogs.AccountsHeard | src/adapters/service_logs.rs:488-536 | an exact account means: only lines of the chosen stream were sent, and each of these was sent, reported within a gap or is pending |
| LiveLogs.OfferAccounts | src/adapters/service_logs.rs:488-536 | whatever the channel does: lines sent, dropped counts reported in gaps and the pending count always add up to the matching lines, and each entry sits at its right position |
| LiveLogs.OfferToIdle | src/adapters/service_logs.rs:496-532 | with an idle receiver the free places at the start decide what is sent and what is dropped |
| LiveLogs.OfferDuringAccounts | src/adapters/service_logs.rs:488-536 | the same while the receiver goes on between the attempts |
| LiveLogHub.LiveLogHub.Publish | src/adapters/service_logs.rs:251-271 | numbers the framed lines consecutively, pushes and offers them while the receivers go on as they like, keeps the leftover, and touches no other service; every subscriber has heard the lines of its stream in one of the three ways; unknown services are ignored |
| LiveLogHub.LiveLogHub.CloseStream | src/adapters/service_logs.rs:273-292 | the same with the leftover flushed |
| LiveLogHub.LiveLogHub.PublishReads | src/platform/windows/process_tree.rs:829-840 | over any interleaving of chunks read from both streams of a service, the lines pushed for each stream are those its chunks feed, and its leftover is theirs |
| LiveLogHub.LiveLogHub.PumpStream | src/platform/windows/process_tree.rs:829-845 | a stream that starts fresh, is read in any chunks and closed pushes exactly the output of those chunks, whatever the other stream does in between |
| LiveLogHub.LiveLogHub.Subscribe | src/adapters/service_logs.rs:341-407 | rejects unknown services and a ninth subscriber; otherwise registers a fresh empty queue that no other subscriber shares and answers, after a reset for a cursor of another hub, lines of the chosen stream from the ring in order: exactly those after a cursor of this hub, otherwise the newest ones up to the tail, which is cut to 1000 |
| LiveLogHub.InitialLinesAreRight | src/adapters/service_logs.rs:360-400 | the replay is in order and drawn from the ring; for a cursor of this hub it is exactly the selected lines after the cursor, otherwise exactly the last selected lines up to the requested tail |
| LiveLogHub.LiveLogHub.Reconcile | src/adapters/service_logs.rs:193-249 | given the services seen in the first critical section and whatever the hub has become since: wanted services with state are untouched, subscribers included; wanted ones not seen hold exactly the lines of their files; all others are gone; the result is the wanted set if and only if no wanted service was dropped in between |
| LiveLogHub.LiveLogHub.Unsubscribe | src/adapters/service_logs.rs:409-416 | removes that subscriber and nothing else |
| LiveLogClient.AdvanceLiveLogCursor | src/cli.rs:1460-1478 | an event moves the cursor to its hub and never back: exactly the numbers up to the event's are newly at or below it; a heartbeat changes nothing |
| LiveLogClient.CursorIsLargest | src/cli.rs:1460-1478 | over any events of one hub the cursor ends at the largest number seen there |
| LiveLogClient.StaysInOrder | src/adapters/service_logs.rs:341-407 | publishing, the second try of a line behind its gap, removing and registering the service, connecting with the current cursor, receiving, heartbeats and hang-ups all keep what the connection owes newer than everything received |
| LiveLogClient.HalvesAreOneOffer | src/adapters/service_logs.rs:500-527 | a gap sent into the last place, the receiver going on, and the second try of the line are together the offer to a receiver that goes on in between |
| LiveLogClient.NoLineTwice | src/cli.rs:1460-1478 | over every run with any number of reconnects to one hub and any removals and registrations of the service, received numbers strictly increase, so none arrives twice; what the open connection still owes follows in order |
| LiveLogCoverage.EveryLineIsAccountedFor | src/cli.rs:1395-1478 | over every such run with a fixed selection: a selected line at or below the cursor and not due any more was received if and only if its number was not reported in a gap, left out of a replay, or orphaned by the end of a connection |
| LiveLogCoverage.ClosingOrphansExactly | src/adapters/control_http.rs:419-453 | ending a connection orphans exactly the replay still due behind a received hub reset, or the line behind a gap received last, and otherwise nothing |
| LiveLogCoverage.ResumingLeavesOut | src/adapters/service_logs.rs:360-380 | resuming by cursor leaves out exactly the selected lines after it that the ring no longer holds |
| LiveLogLosses.ResetThenHangupLosesReplay | src/adapters/service_logs.rs:380-392 | a run in which a viewer cut off right behind a hub reset never gets the replay, although the ring holds it |
| LiveLogLosses.GapThenHangupLosesLine | src/adapters/service_logs.rs:496-527 | a run in which a viewer cut off right behind a gap never gets the line that triggered it, although the ring holds it and no gap reported it |
| ServiceRuntime.ServiceRuntime.Advance | src/domain/lifecycle.rs:21-65 | a lifecycle move is made exactly when the transition relation allows it, listed here by target, and is otherwise refused with both states named; all states ever held form a legal path |
| ServiceRuntime.ServiceRuntime.ApplyHealthNow | src/application/service_runtime.rs:94-113 | an owned service that was running or unhealthy is running afterwards if healthy and otherwise unhealthy; nothing else changes, in any other state nothing at all, and it never fails |
| ServiceRuntime.ServiceRuntime.ReconcileExitWith | src/application/service_runtime.rs:140-168 | releases the owner exactly on a confirmed exit, to stopped if termination was pending and to failed otherwise; only the callback's own error is returned |
| ServiceRuntime.ServiceRuntime.Start | src/application/service_runtime.rs:177-210 | spawns exactly when nothing is owned, through starting to running with the new owner or to failed without one; only the spawn error is returned, never a transition error |
| ServiceRuntime.ServiceRuntime.Stop | src/application/service_runtime.rs:219-270 | stops the owner and releases it exactly if the stop completed; ends stopped, terminating or failed by the answer; without an owner a failure is cleared; never takes the defensive branch |
| ServiceRuntime.ServiceRuntime.Restart | src/application/service_runtime.rs:280-346 | spawns the replacement only after the old tree is gone and otherwise keeps the old one, with the state each answer leads to; never a transition or poisoned error |
| ServiceRuntime.OperationAccounts | src/application/service_runtime.rs:94-346 | each operation keeps the service settled and its owner equal to what the callbacks alone imply |
| ServiceRuntime.SpawnsMinusReleases | src/application/service_runtime.rs:94-346 | trees spawned minus trees confirmed gone is one while a tree is owned and zero otherwise |
| ServiceRuntime.EveryRunHasOneOwner | src/application/service_runtime.rs:94-346 | over every sequence of operations and callback answers: the service settles, spawn is never called beside an owned tree, stops and observations address the owner |
| ServiceRuntime.SettledIffReachable | src/application/service_runtime.rs:94-346 | the settled states (never starting or stopping; stopped without, running, unhealthy or terminating with an owner) are exactly the reachable ones |
| ServiceRuntime.LastHealthDecides | src/application/service_runtime.rs:94-111 | over every run: until a stop, a restart or an exit, the last health answer alone decides whether a running service is running or unhealthy, and its tree stays the same |
| Idempotency.IdempotencyStore.LookUp | src/adapters/control_http.rs:1036-1044 | an id inserted among the last 1024 is replayed for the same target and body and refused for others; any other id is a miss |
| Idempotency.IdempotencyStore.Store | src/adapters/control_http.rs:1046-1064 | the eviction loop ends; afterwards the store lists exactly the last 1024 insertions once each; a held id keeps its first entry |
| Idempotency.RememberedIs | src/adapters/control_http.rs:1046-1064 | an id among the last 1024 insertions is not inserted again, any other is |
| Idempotency.KnownForTheWindow | src/adapters/control_http.rs:1029-1065 | an insertion is found while fewer than 1024 came after it, and not afterwards unless its id was inserted again |
| Idempotency.RouteMutation | src/adapters/control_http.rs:884-943 | a request whose id is among the last 1024 insertions never asks the control: the same input gets the stored answer, other input a conflict; any other request, one without an id included, asks the control once exactly if its target names a mutation, and is stored exactly if it also has an id |
| Idempotency.HandlePost | src/adapters/control_http.rs:383-418 | service routes use the shared store; other targets get an empty one, so they are never a conflict and leave nothing behind |
| Idempotency.ParsesExactly | src/adapters/control_http.rs:994-1009 | a target is accepted exactly when it is /v1/services/, a non-empty slash-free id, and /start, /stop or /restart, and it then means that action on that id |
| Idempotency.RepeatsAreReplayed | src/adapters/control_http.rs:884-943 | over every run: within the window a repeat gets the first answer with no second mutation, other input to a service route gets a conflict; past it, an unreused id is treated as new |
| CooperativeOperations.CooperativeOperationManager.Insert | src/application/cooperative_operations.rs:220-231 | the eviction loop ends and gives the specified registry |
| CooperativeOperations.CooperativeOperationManager.BeginReserve | src/application/cooperative_operations.rs:67-102 | replays equal input, refuses other input and a busy slot with nothing changed, else reserves the slot for a new running operation with nothing recorded yet, listed last; at most the oldest operation makes room |
| CooperativeOperations.CooperativeOperationManager.WorkerSpawnFailed | src/application/cooperative_operations.rs:104-114 | withdraws exactly the reservation, the newest entry, and frees the slot |
| CooperativeOperations.CooperativeOperationManager.UpdateProgress | src/application/cooperative_operations.rs:188-204 | stage and message are the update's, an id it leaves out keeps its value, nothing else changes |
| CooperativeOperations.CooperativeOperationManager.FinishExecution | src/application/cooperative_operations.rs:150-186 | a success completes the operation with the outcome's ids and message, an error fails it with category and message while known ids survive; no other operation changes and the slot is freed |
| CooperativeOperations.EvictsAtMostOne | src/application/cooperative_operations.rs:221-227 | a full registry gives up exactly its oldest operation, any other none |
| CooperativeOperations.KeepsInv | src/application/cooperative_operations.rs:67-204 | every step of every thread keeps slot, threads, statuses and listing consistent |
| CooperativeOperations.OneAtATime | src/application/cooperative_operations.rs:67-204 | over every interleaving: at most one running operation, it is the active and newest one, exactly one thread stands behind it, the order lists the registry once each, and no retained request had two workers |
| CooperativeOperations.SlotIsAlwaysFreed | src/application/cooperative_operations.rs:104-186 | finishing or a failed spawn always clears the slot, a finished operation is retained as such, and no step evicts the running one |
| CooperativeOperations.OutcomeIsKept | src/application/cooperative_operations.rs:150-186 | over every interleaving: after a worker ends its operation is completed exactly on success, with the outcome's ids and message, and otherwise failed with category and message, known ids kept; the record stays so while the operation is retained |
| Registration.ValidateProposal | src/adapters/registration.rs:887-960 | fails exactly when the service exists for a registration or not for another operation, or when a definition is missing or unwanted, with the error of that case; otherwise the result changes that one service to the given definition or removes it, and is valid exactly without a sensitive key or other issue |
| Registration.MatchesExactly | src/adapters/registration.rs:967-989 | a repeated request matches the stored draft exactly when it asks for the same proposal hash again |
| Registration.StoredDraftAnswers | src/adapters/registration.rs:290-299 | with the lock free, a stored draft is the answer exactly if the base revisions agree and proposing the request again on the draft's base gives its proposal hash, otherwise the request id is refused; nothing changes |
| Registration.PrepareRepeats | src/adapters/registration.rs:281-378 | over every interleaving: a request once prepared is answered with its stored draft whenever the lock is free, and that draft still offers what was first answered |
| Registration.CommitDecides | src/adapters/registration.rs:524-597 | in every reachable state a commit is decided by the draft's status and expiry, the configuration and the outside verdicts alone: checking the recorded change again never fails by itself |
| RegistrationAuthority.RegistrationAuthority.GetDraft | src/adapters/registration.rs:385-408 | returns a draft only with its schema, location, identity, hash, revision and phrase intact |
| RegistrationAuthority.RegistrationAuthority.PrepareChange | src/adapters/registration.rs:281-378 | a stored draft answers for its request id, with itself exactly when the request asks for it again and with nothing written; otherwise the first failed check on lock, configuration and request is the answer, or a new draft of exactly that change is stored, prepared now for thirty minutes; a failed write stores nothing |
| RegistrationAuthority.RegistrationAuthority.ApproveWithConfirmation | src/adapters/registration.rs:467-499 | a prepared draft is approved exactly if it is unexpired and its phrase was typed, an approved one is recovered by its phrase, and every other reply names the first reason; the draft is written exactly when it is newly approved and the write succeeds |
| RegistrationAuthority.RegistrationAuthority.StartCommit | src/adapters/registration.rs:524-597 | the commit up to its first file write: each reply with its exact condition on the stored draft, the configuration and the verdicts, and what is left to write |
| RegistrationAuthority.RegistrationAuthority.WriteConfiguration | src/adapters/registration.rs:598-598 | the configuration becomes the draft's after-configuration, or the write fails and nothing but the lock changes |
| RegistrationAuthority.RegistrationAuthority.WriteCommittedDraft | src/adapters/registration.rs:599-604 | the draft write, which may fail after the configuration was written, and the audit behind it |
| Registration.KeepsInv | src/adapters/registration.rs:281-605 | every step keeps all drafts well formed, single-service and confirmed before they count as approved |
| Registration.EveryWriteIsAuthorised | src/adapters/registration.rs:524-605 | in every interleaving each configuration write turns the draft's base revision into exactly its after-configuration, differing in that service only, for an approved unexpired draft whose own phrase was typed before expiry |
| Registration.CommitWritesExactlyWhen | src/adapters/registration.rs:524-605 | a commit writes the configuration if and only if the lock is free, the draft is approved and unexpired, the configuration is its base and not already its result, the service is stopped where needed and validation is clean |
| Registration.CommitCompletes | src/adapters/registration.rs:524-605 | an undisturbed commit puts the after-configuration in place with one write and, if the draft write succeeds, closes that draft and no other |
| Registration.RetryFinishes | src/adapters/registration.rs:524-605 | asked again, a finished commit has nothing to write, and one whose draft write failed writes only the draft while it is unexpired |
| Registration.CommittedIsUndoneExactlyBy | src/adapters/registration.rs:467-499 | a committed draft loses that status exactly when an overtaken copy, read while prepared, is confirmed in time |
| Registration.CommittedIsFinal | src/adapters/registration.rs:467-605 | with approvals that are not overtaken, committed drafts stay committed and never write the configuration again |
| Registration.OvertakenApprovalReopens | src/adapters/registration.rs:467-605 | otherwise there is a run in which one draft writes the configuration twice |
| ChunkedBody.DecodeChunkedBody | src/adapters/http_response.rs:37-75 | the loop ends, slices in range and equals the recursive decoder, errors included |
| ChunkedBody.DecodeIsExact | src/adapters/http_response.rs:37-75 | a body decodes to d if and only if it encodes a chunk list with payload d |
| ChunkedBody.LineDecides | src/adapters/http_response.rs:41-73 | the first size line and what follows it decide: each error with its exact condition, the end exactly if CR LF follows alone or the trailers end with an empty line, and otherwise the data in front of the rest's decoding |
| ChunkedBody.SizeLineIs | src/adapters/http_response.rs:46-52 | a size line is read as a size exactly if it is white space, perhaps a plus sign, hexadecimal digits of that 64-bit value, white space, and nothing or what a semicolon starts |
| ChunkedBody.HexDigitIs | src/adapters/http_response.rs:51-52 | the sixteen digits in both cases, most significant first |
| Bytes.ValidUtf8Iff | src/adapters/http_response.rs:46-47 | a line counts as UTF-8 exactly if it encodes a list of Unicode scalar values (section 3 of RFC 3629) |
| Bytes.WhiteSpaceIs | src/adapters/http_response.rs:51-51 | what is trimmed are exactly the encoded characters with the White_Space property |
| ChunkedBody.FramingOverhead | src/adapters/http_response.rs:37-75 | payload length plus five bytes per chunk plus five never exceeds the encoded length |
| ChunkedBody.StandardRoundTrip | src/adapters/http_response.rs:37-75 | decoding inverts every encoding of section 7.1 of RFC 9112 with non-empty chunks, any spelling of sizes, white space before the extensions, any extensions without CR LF, and any trailer section; exactly those with a size line that is not UTF-8 are refused as not ASCII |
| ChunkedBody.PlainRoundTrip | src/adapters/http_response.rs:37-75 | in particular any list of non-empty parts, encoded with plain hexadecimal sizes, decodes to their concatenation |
| Bytes.FindCrlf | src/adapters/http_response.rs:41-45 | finds the first CR LF, or there is none |
| AuditTail.RegistrationAuditTail.Poll | src/adapters/registration_events.rs:81-145 | the answer and the new offset for every file state: missing, unreadable, truncated, unopenable, incomplete, malformed; of the unread bytes one window of 256 KiB is looked at up to its last newline, and the offset moves there exactly if all its lines were acceptable |
| AuditTail.RegistrationAuditTail.ReadEvents | src/adapters/registration_events.rs:123-141 | the events of all lines if each is at most 16 KiB, parses and has version 1; otherwise what is wrong with the first that is not |
| AuditTail.RecordsByLine | src/adapters/registration_events.rs:123-127 | the lines read are the runs between newlines without the empty ones |
| AuditTail.PollDelivers | src/adapters/registration_events.rs:81-145 | on a well-formed file a poll never fails, delivers exactly the records it moves past, stops at a line start, and moves on if and only if a complete line is waiting |
| AuditTail.EachLineOnce | src/adapters/registration_events.rs:81-145 | over every interleaving of appends and polls each complete non-empty line is delivered once, in order and whole, and one poll per unread byte is enough to drain the file |

## Left out

- ShutdownPlanning.StableShutdownOrder: requires distinct snapshot ids, because the registry keys services by id (src/application/service_registry.rs:587-591) and cannot report one twice.
- ShutdownPlanning.DrainReady: stands for the ready-list loops of both the server planner and the command line, which are the same code written twice.
- StartupBudget.ValidateLaunchReadiness: the findings of the directory and executable checks of one service are a parameter.
- StartupBudget.DependencyStartupBudgetMs: the operation and restart margins added around the budget (src/cli.rs:1920-1947) are not modelled.
- LiveLogHub.LiveLogHub.Reconcile: the lines read from log files between its two critical sections are a parameter, as are their modification times' effect on stream order; the order in which loaded services are numbered, replay flags and timestamps are not modelled.
- LiveLogHub.LiveLogHub.Publish: text is bytes; the lossy conversion to UTF-8 happens per line and is not modelled. Sequence numbers do not saturate.
- LiveLogClient.NoLineTwice: speaks of numbers, not of texts: a service registered again gets the lines of its log files under fresh numbers. Events are those of one hub; after a change of hub numbering starts over behind a reset.
- Idempotency.RouteMutation: authorization, body decoding, request-id syntax and the shutdown and cooperative routes in front of the lookup are not modelled, nor is the dashboard's use of the shared store (src/adapters/control_http.rs:316-331); replies carry no status code.
- CooperativeOperations.CooperativeOperationManager.BeginReserve: the final read of the snapshot after the worker was spawned is not modelled; the constant target and action fields are omitted.
- RegistrationAuthority.RegistrationAuthority.PrepareChange: identifier syntax and the second existence check (unreachable under the lock) are not modelled; structural and file-system checks are one verdict per call, the audit append another.
- RegistrationAuthority.RegistrationAuthority.StartCommit: the observed lifecycle is a verdict per call; reading the configuration cannot fail to parse. The lock file left behind by a crash corresponds to a pending commit that takes no further step.
- RegistrationAuthority.RegistrationAuthority.ApproveWithConfirmation: the phrase carries the whole proposal hash where the original uses its last twelve hex digits.
- Registration.EveryWriteIsAuthorised: fingerprints, proposal hashes and draft ids are injective; drafts are written only by the protocol, and the configuration is edited by hand only while no commit is in progress.
- AuditTail.EachLineOnce: record decoding is a function of the line; the file does not change between the length check and the read of one poll.
- ChunkedBody.DecodeChunkedBody: bodies are no longer than the largest 64-bit size, as for any buffer in memory.
- Head parsing and body selection of responses (src/adapters/http_response.rs:7-35), request reading, sockets, threads, heartbeats and clocks.
- Lock poisoning, and saturation of 64-bit counters other than the startup budget.
- Bounded log-file tails, file replacement, JSON, and SHA-256 itself.
- Restart policy, port checks, operator holds, the reconciliation setters and the observation that follows a commit.
- Token handling, origin checks, redaction, the dashboard and the MCP adapters.
