# Auto-router: a verified model of its stateful core

This project models the parts of the auto-router whose promises are about whole runs rather than single calls,
and proves those promises in Dafny 4.11. `dafny verify dfyconfig.toml` checks everything.

| files | what they model |
|---|---|
| `Admission`, `AdmissionFairness`, `AdmissionGate`, `AdmittedDispatch` | the runtime admission gate: a state machine of its atomic sections, invariants and fairness over every run, the objects that implement it, and the dispatches that use it |
| `FleetPlanner`, `FleetReconciliation` | loadout planning, the reconciliation transaction, the report fence |
| `EventOutbox`, `EventDispatcher`, `EventDelivery` | the durable outbox, its dispatcher, and delivery over every interleaving |
| `MemoryEvents`, `MemoryQuery` | the event-sourced memory store and its budgeted query |
| `Failover`, `FailoverInterleaving` | the failover loop with its quota, load, reservation and breaker books, alone and among others |
| `AttemptLedger`, `ReceiptStore`, `LoadBackoff`, `CircuitBreaker` | bounded-use ledgers and limiters under a clock |
| `Qualification` | failure classification, evidence statistics and role derivation |
| `Prelude` | options and results, strings in code-point order, a stable sort |

Objects that the program updates in place are classes here, and their methods are proved against functions on
values; the properties are then proved of those functions, over arbitrary sequences of steps.

## How the program is read

- **One event loop.** No critical section of the gate awaits while it holds its lock, so each is one atomic step.
  A waiter that was granted a slot but has not been resumed is its own state; timeouts and cancellations may meet it.
- **Transactions.** A database transaction is a function that either installs a new state or, on a raise, leaves the
  old one. Tables are maps or sequences, and a digest or a verified token is the content it stands for.
- **Time, randomness and the network** are inputs of the steps. Clocks are integers. Scores are real numbers; rates
  and confidences are rounded to thousandths, half to even, on exact values.
- **Counters** that are read with a default of zero and lowered to no less than zero are multisets.

## Where the code does something other than one might expect

- *Plan-time reservations leak.* `plan` reserves the top candidate of every stage that has candidates
  (`src/auto_router/policy.py:125-140`), but `_execute` gives a reservation back only when it enters the stage
  (`src/auto_router/main.py:779-782`). `Failover.ReservationsReturnExactly` proves that the counts return to what they
  were if and only if no candidate ahead of a stage with candidates answers or meets a bound,
  `Failover.UnenteredStagesStayReserved` says what is left otherwise, and `Failover.AnsweredEarlyLeaks` is an instance.
- *An exact-model plan takes a reservation it never made.* `plan` returns before reserving
  (`src/auto_router/policy.py:126-128`), yet `_execute` lowers the count. By `Failover.ExactPlanReturnsExactly` the
  counts stay as they were if and only if nobody has a reservation of that model; `Failover.ExactPlanTakesAnothers` is
  the instance in which another request loses the one it has just made.
- *An expired token's attempts are forgotten.* `acquire` drops the record of its own token once it has expired, so
  from then on every acquire is numbered 1. `AttemptLedger.AttemptsAreNumbered` states both halves, and
  `AttemptLedger.ExpiredTokenStartsOver` is an instance. The caller has checked the expiry a moment earlier.
- *A pruned idempotency key is free again* (`EventDelivery.KeyReturnsIffPruned`, with the instance
  `EventDelivery.PrunedKeyIsStoredAgain`), and an event whose identifier belongs to a row with another key is dropped
  although an identifier is returned (`EventOutbox.EnqueueStoresUnless`, `EventOutbox.TakenIdentifierIsDropped`).
- *Nodes without a name* may be planned for but have no rows (`FleetPlanner.NamelessNodeIsPlanned`), so an assignment on
  one is stored without any of its edges (`FleetReconciliation.AssignmentIsLinkedIffNamed`,
  `FleetReconciliation.EveryHistoryKeepsAssignments`).
- *Status 409* is listed among the retryable ones, but it counts as delivered before that list is consulted
  (`EventDispatcher.RepeatedExactly`).
- *An unrecognised failure is not named empty.* `classify_failure` promises `empty_usable_content` for a shape it does
  not recognise. `Qualification.EmptyExactly` proves when that is the answer for a row that declares nothing: exactly
  when the row holds no text at all and neither timed out nor was cut short; an unrecognised row gets
  `context_not_grounded`, and `Qualification.UnrecognisedIsNotEmpty` is such a row. It also names
  `wrong_response_field` when that flag is false as well as when it is true (`Qualification.WrongFieldEitherWay`).

## Model

| member | source | states |
|---|---|---|
| Admission.RunInv | src/auto_router/admission.py:75-170 | every run keeps the gate's accounts: `active` is the number of unreleased leases, grants not yet picked up included, and is within the slots; the queue is within its limit; requests wait only while every slot is taken; acquired = live + released and enqueued = handed over + timed out + cancelled while pending + waiting |
| Admission.StepInv | src/auto_router/admission.py:88-170 | each atomic section keeps all of it, in particular that every unreleased lease has exactly one owner, a caller or one suspended waiter |
| Admission.ReleaseHandsOver | src/auto_router/admission.py:147-170 | a release either frees its slot, when nobody waits, or hands it to the waiter least by (rank, sequence) |
| Admission.LeaseReleaseInv | src/auto_router/admission.py:46-50 | releasing a lease keeps the gate sound, and only the first release of a lease has an effect |
| Admission.CancelGrantedInv | src/auto_router/admission.py:128-139 | a cancellation that meets a grant gives the slot back: one more release takes effect |
| Admission.GrantIsPrivate | src/auto_router/admission.py:116-139 | the lease granted to a suspended waiter is live and held by nobody else |
| Admission.Removal | src/auto_router/admission.py:141-145 | removing a waiter keeps all others, in order |
| AdmissionFairness.ReachableInv | src/auto_router/admission.py:59-170 | the invariant holds in every state reachable from a new gate |
| AdmissionFairness.QuiescentGateIsIdle | src/auto_router/admission.py:156-170 | when no call is suspended and every lease given out was released, nothing is active or queued |
| AdmissionFairness.TimeoutKeepsTheSlot | src/auto_router/admission.py:116-127 | a timeout that races a grant returns the granted lease and counts no timeout; one that does not removes its waiter, keeps the others in order with their outcomes, and moves no slot or lease |
| AdmissionFairness.CancelReturnsTheSlot | src/auto_router/admission.py:128-139 | a cancellation that races a grant frees the slot or passes it on; it is never lost |
| AdmissionFairness.NoOvertaking | src/auto_router/admission.py:147-154 | in any step, whoever is granted a slot came before everyone who still waits, by rank and then by arrival |
| AdmissionFairness.BoundedWaiting | src/auto_router/admission.py:147-170 | if nothing more urgent arrives, a waiter with k ahead of it is served, or has left, within k + 1 effective releases |
| AdmissionGate.Lease.Release | src/auto_router/admission.py:46-50 | the lease object performs exactly the release step of the state machine, once |
| AdmissionGate.RuntimeGate.Enter | src/auto_router/admission.py:79-109 | the first section of acquire performs the arrival step: refusal with 503 or 429, a lease, or a queued waiter |
| AdmissionGate.RuntimeGate.TimedOut | src/auto_router/admission.py:116-127 | the timeout section performs the timeout step and returns the lease of a granted waiter |
| AdmissionGate.RuntimeGate.WasCancelled | src/auto_router/admission.py:128-139 | the cancellation section performs the cancel step, releasing a lease that was granted |
| AdmissionGate.RuntimeGate.Resumed | src/auto_router/admission.py:111-115 | a resumed waiter gets the lease its future holds |
| AdmissionGate.RuntimeGate.Release | src/auto_router/admission.py:156-170 | release on the objects is the release of the state machine |
| AdmissionGate.RuntimeGate.NextWaiter | src/auto_router/admission.py:147-154 | the search returns the least pending waiter and takes only it off the queue |
| AdmissionGate.RuntimeGate.RemoveWaiter | src/auto_router/admission.py:141-145 | removes exactly the waiter, and nothing when it is not queued |
| AdmissionGate.InvariantSuffices | src/auto_router/admission.py:75-170 | what the methods above require of the state follows from the invariant: an ordered queue of pending waiters, a live lease behind every grant, a slot behind every live lease, and no suspended waiter whose future was dropped |
| AdmittedDispatch.ActIsGateStep | src/auto_router/main_live.py:167-227 | every move of a dispatch is at most one step of the gate |
| AdmittedDispatch.DispatchesAreFenced | src/auto_router/main_live.py:173-190 | over every interleaving a provider is called only while holding a lease and after a fence check that followed the grant; a lease has no effective release while it is live and exactly one once it is not |
| AdmittedDispatch.AllCallsEndedGateIdle | src/auto_router/main_live.py:189-226 | when all dispatches and streams have ended, however they ended, the gate is idle again |
| FleetPlanner.BuildCandidates | scripts/build_fleet_loadouts.py:307-348 | the list built by the loops is the stable sort, best key first, of the loaded models of eligible nodes |
| FleetPlanner.PickBest | scripts/build_fleet_loadouts.py:351-368 | the search returns the first allowed candidate, and none only if none is allowed |
| FleetPlanner.PickResilientIs | scripts/build_fleet_loadouts.py:371-389 | the pick is the best allowed candidate on another node, and shares a node with an earlier pick only if no allowed candidate is elsewhere |
| FleetPlanner.PlanPicksTheBest | scripts/build_fleet_loadouts.py:392-436 | primary, reviewer and fallback are each the best of those they may be taken from |
| FleetPlanner.PlanIsDistinct | scripts/build_fleet_loadouts.py:426-436 | the picks are pairwise distinct (node, model) pairs, all of them candidates |
| FleetPlanner.CandidateIsRow | scripts/build_fleet_loadouts.py:315-318 | a candidate on a named node is a persisted model row |
| FleetPlanner.PlanMatchesRows | scripts/build_fleet_loadouts.py:392-455 | every pick on a named node is a row of the snapshot persisted with the plan |
| FleetPlanner.NamelessNodeIsPlanned | scripts/build_fleet_loadouts.py:311-318 | a node without a name is picked as primary, although it has no persisted row |
| FleetReconciliation.PredecessorIsNewest | scripts/build_fleet_loadouts.py:644-667 | in a chain of snapshots the ordered query finds the newest one |
| FleetReconciliation.WriteSnapshot | scripts/build_fleet_loadouts.py:837-1118 | the transaction refuses exactly when the checks do, with their reason, and otherwise leaves the committed graph |
| FleetReconciliation.Store.Persist | scripts/build_fleet_loadouts.py:709-1133 | a refused request leaves the database as it was; an accepted one reports the version and predecessor under which it was committed |
| FleetReconciliation.Store.Publish | scripts/build_fleet_loadouts.py:1136-1189 | the file is written exactly when the publisher's snapshot is ready, current and of its version; otherwise it is untouched |
| FleetReconciliation.CommitChain | scripts/build_fleet_loadouts.py:838-896 | a commit appends to the chain: consecutive versions, one current snapshot, the newest, each naming the one before |
| FleetReconciliation.CommitTopology | scripts/build_fleet_loadouts.py:898-1117 | after a commit the mutable node and model rows are exactly those of the new current snapshot |
| FleetReconciliation.EveryHistoryIsSound | scripts/build_fleet_loadouts.py:837-1189 | every run of reconcilers and publishers from an empty start keeps chain, topology and report sound together |
| FleetReconciliation.FenceIsNewest | scripts/build_fleet_loadouts.py:1156-1173 | owning the fence means being the newest committed snapshot |
| FleetReconciliation.FileNeverGoesBack | scripts/build_fleet_loadouts.py:1144-1189 | however late or repeated publishers are, the version in the report file never decreases |
| FleetReconciliation.RegressedExactly | scripts/build_fleet_loadouts.py:683-699 | the check accepts a count exactly when at least (1 - f) of the previous one is left |
| FleetReconciliation.GradualDrops | scripts/build_fleet_loadouts.py:670-706 | along n commits without an override both counts keep at least (1 - f)^n of where they started |
| FleetReconciliation.GradualDropsNeverReachZero | scripts/build_fleet_loadouts.py:670-706 | for f below 1 a positive count never reaches zero that way |
| FleetReconciliation.EveryHistoryIsGuarded | scripts/build_fleet_loadouts.py:837-847 | each commit of every history passed the check against the commit just before it |
| FleetReconciliation.AssignmentIsLinkedIffNamed | scripts/build_fleet_loadouts.py:1034-1099 | whatever the scores of each profile, a committed assignment is stored, with all its edges if its node has a name and none of them otherwise |
| FleetReconciliation.EveryHistoryKeepsAssignments | scripts/build_fleet_loadouts.py:837-1189 | in every history no edge dangles, the current snapshot's assignments have all their edges exactly when their node has a name, and named assignments of all snapshots keep their observations |
| FleetReconciliation.NamelessIsLost | scripts/build_fleet_loadouts.py:724-726 | an assignment on a node without a name is stored and gets no edge |
| EventOutbox.Outbox.Enqueue | src/auto_router/event_outbox.py:43-71 | an insert that ignores collisions, answered with the identifier stored under the key |
| EventOutbox.Outbox.MarkDelivered | src/auto_router/event_outbox.py:102-112 | exactly the rows with the identifier become delivered |
| EventOutbox.Outbox.MarkFailed | src/auto_router/event_outbox.py:114-125 | exactly the rows with the identifier count one more attempt and become retry or dead |
| EventOutbox.Outbox.PruneTerminal | src/auto_router/event_outbox.py:142-186 | the pruned table, with the numbers of rows deleted of each terminal status |
| EventOutbox.EnqueueStoresUnless | src/auto_router/event_outbox.py:46-71 | after an enqueue the key is in the table unless the identifier belonged to another key |
| EventOutbox.TakenIdentifierIsDropped | src/auto_router/event_outbox.py:46-71 | an event whose identifier belongs to another key leaves the table as it was |
| EventOutbox.PruneKeepsNewest | src/auto_router/event_outbox.py:142-186 | a prune touches no other status and deletes a row only if as many newer ones as it keeps remain |
| EventOutbox.DropCounts | src/auto_router/event_outbox.py:153-185 | rows deleted are rows of that status, and counts of other statuses stay |
| EventDispatcher.Dispatcher.DispatchOne | src/auto_router/event_dispatcher.py:145-205 | posts one event and records the verdict on the response or transport failure |
| EventDispatcher.Dispatcher.DispatchPending | src/auto_router/event_dispatcher.py:114-143 | a cycle reports on each event of the batch in order; a dry run or a missing sink changes nothing |
| EventDelivery.BatchIsOldest | src/auto_router/event_outbox.py:73-86 | a batch holds distinct active rows, none newer than an active row left out, and falls short of its limit only when nothing is left out |
| EventDispatcher.RepeatedExactly | src/auto_router/event_dispatcher.py:173-197 | a post is repeated exactly when the sink was not reached or answered with a retryable status other than 409, and an attempt is left |
| EventDelivery.DispatchIsARun | src/auto_router/event_dispatcher.py:139-143 | the loop of an uninterrupted cycle is the run of its posts |
| EventDelivery.RunKeeps | src/auto_router/event_dispatcher.py:114-205 | in every interleaving of cycles, enqueues and prunes, active rows count their own posts and the cycle in flight agrees with the table |
| EventDelivery.PostsAreCapped | src/auto_router/event_dispatcher.py:153-174 | no event is posted more often than the attempt cap, or once if the cap is not positive |
| EventDelivery.TerminalIsFinal | src/auto_router/event_outbox.py:73-125 | over any run a row keeps its identity and, once delivered or dead, stays exactly as it is, unless a prune that found it delivered or dead removed it; so active rows are never removed |
| EventDelivery.KeyReturnsIffPruned | src/auto_router/event_outbox.py:142-186 | after any run that does not enqueue the key itself, a second event with the key and a new identifier is stored if and only if the first one was pruned |
| EventDelivery.PrunedKeyIsStoredAgain | src/auto_router/event_outbox.py:43-186 | an event delivered and pruned is stored once more when its key is enqueued again |
| EventDelivery.PostsArePaidFor | src/auto_router/event_dispatcher.py:160-174 | posts made and attempts left are together at most the attempts there were and one allowance for each arrival |
| EventDelivery.CycleDrains | src/auto_router/event_dispatcher.py:114-143 | a cycle without arrivals lowers the sum of remaining attempts by at least the size of its batch |
| EventDelivery.NoBudgetNoBacklog | src/auto_router/event_dispatcher.py:160-174 | when the sum is zero no event is active |
| EventDelivery.NoStarvation | src/auto_router/event_dispatcher.py:166-172 | with batches of at least L and arrivals no older than it, an active event is posted within 1 + floor(attempts left ahead of it / L) cycles |
| MemoryEvents.MemoryStore.IngestRecord | src/auto_router/memory_store.py:44-104 | ingest answers and changes the tables as the event semantics says |
| MemoryEvents.MemoryStore.RecordLifecycle | src/auto_router/memory_store.py:106-139 | a lifecycle event adjusts its memory; for an unknown memory everything is rolled back |
| MemoryEvents.MemoryStore.RecordOutcome | src/auto_router/memory_store.py:141-174 | the loop adjusts each named memory exactly once, however often it is named |
| MemoryEvents.RunAgrees | src/auto_router/memory_store.py:71-103 | over every log the filter columns agree with the stored record and confidence stays in [0, 1] |
| MemoryEvents.ApplyAgrees | src/auto_router/memory_store.py:485-499 | each request keeps that agreement |
| MemoryEvents.RedeliveryChangesNothing | src/auto_router/memory_store.py:462-483 | redelivering accepted events, up to their creation time, any number of times anywhere later in a log leaves the same tables |
| MemoryEvents.RedeliveryAnswers | src/auto_router/memory_store.py:51-61 | originals are answered as without the redeliveries, and redeliveries as not new |
| MemoryEvents.OnlyNewsCount | src/auto_router/memory_store.py:462-483 | the tables of any log are those of its new requests alone: what was refused or known already leaves no trace |
| MemoryEvents.AnswersExactly | src/auto_router/memory_store.py:51-122 | from the history alone: a request is new exactly when none was new under its key and, for a lifecycle event, its memory was ingested before; otherwise a taken key answers by whether the content is the same |
| MemoryEvents.MemoriesAreIngested | src/auto_router/memory_store.py:71-103 | a memory is stored exactly when a request was accepted that ingested it |
| MemoryEvents.UsesAreTallied | src/auto_router/memory_store.py:124-173 | until it is ingested again, a memory's reuses and contradictions are the accepted events that named it, one each |
| MemoryQuery.Sift | src/auto_router/memory_store.py:200-224 | the loop splits the rows into candidates and excluded rows with their reason |
| MemoryQuery.Render | src/auto_router/memory_store.py:369-391 | the loop renders up to the first line that does not fit |
| MemoryQuery.Retrieve | src/auto_router/memory_store.py:176-267 | the context returned: ranked and cut matches, rendered text, estimate and full trace |
| MemoryQuery.FetchedAreWanted | src/auto_router/memory_store.py:178-192 | filtering by columns is filtering by records, in both directions |
| MemoryQuery.MatchesAreBest | src/auto_router/memory_store.py:215-234 | the matches are the best `limit` of the records that qualify, best first |
| MemoryQuery.TiesKeepFetchOrder | src/auto_router/memory_store.py:225-232 | matches with equal keys keep the order in which they were fetched |
| MemoryQuery.TraceAccountsForRows | src/auto_router/memory_store.py:196-254 | every fetched row has exactly one entry in the trace |
| MemoryQuery.RenderedIsLongest | src/auto_router/memory_store.py:375-390 | a non-empty prefix of the matches fits the budget if and only if it is no longer than the rendered one |
| MemoryQuery.BudgetIsKept | src/auto_router/memory_store.py:372-391 | the text has at most four characters a token of budget, so the estimate is within the budget |
| MemoryQuery.SelectedAreCharged | src/auto_router/memory_store.py:245-254 | rendered matches are charged the tokens of their own line, other selected ones none |
| MemoryQuery.MatchesAreDistinct | src/auto_router/memory_store.py:190-234 | the matches of one query are different memories |
| Failover.Router.Reserve | src/auto_router/policy.py:125-140 | planning reserves the top candidate of each stage that has one; an exact-model plan none |
| Failover.Router.Try | src/auto_router/main.py:788-937 | one candidate: the checks in order, in-flight balanced, quota held only on success, one breaker entry a dispatch |
| Failover.Router.Execute | src/auto_router/main.py:757-945 | the nested loops answer as the plan's verdict says, leave in-flight counts alone, hold quota only for the winner, and record one entry for each dispatch |
| Failover.WinnerIsFirst | src/auto_router/main.py:783-892 | the winner is the first candidate in plan order that could be dispatched and answered |
| Failover.RefusalIsExact | src/auto_router/main.py:784-945 | 504 exactly when deadline or attempt bound is met with a candidate left; 503 exactly when all were tried in vain |
| Failover.AttemptsAreBounded | src/auto_router/main.py:784-787 | no more candidates are considered than the bound allows |
| Failover.OneSuccess | src/auto_router/main.py:833-921 | the breaker hears of one success, last, if the request was served, and of none otherwise |
| Failover.UnenteredStagesStayReserved | src/auto_router/main.py:773-782 | planning and executing a request leaves behind exactly the reservations of the stages never entered |
| Failover.ReservationsReturnExactly | src/auto_router/policy.py:129-140 | for every plan and environment, reservation counts return to what they were if and only if no candidate ahead of a stage with candidates answers, meets the deadline or meets the attempt bound |
| Failover.ExactPlanReturnsExactly | src/auto_router/policy.py:125-128 | executing an exact-model plan leaves the counts alone if and only if nobody has a reservation of the model; otherwise it takes one away |
| Failover.ExactPlanTakesAnothers | src/auto_router/main.py:779-782 | it can take away the reservation another request has just made |
| Failover.AnsweredEarlyLeaks | src/auto_router/main.py:773-782 | a request answered by the first of two stages leaves the second reserved |
| FailoverInterleaving.BooksFollowRequests | src/auto_router/main.py:783-937 | over every interleaving of requests at their awaits: in-flight counts are the requests dispatching to each owner, quota is held for those with a candidate in hand and for winners, the breaker was told once of each dispatch done with, and every request that ended got the answer it would have got alone |
| FailoverInterleaving.AllEndedBooksClose | src/auto_router/main.py:829-921 | when all requests have ended nothing is in flight and quota is held for the winners alone |
| FailoverInterleaving.RequestsEnd | src/auto_router/main.py:783-945 | no request stalls: it ends within four of its own sections for each candidate and four more, whatever the others do |
| AttemptLedger.Ledger.Acquire | src/auto_router/executor_auth.py:199-215 | drops expired records, then refuses or counts one more attempt |
| AttemptLedger.AttemptsAreNumbered | src/auto_router/executor_auth.py:204-215 | while a token lives, acquires succeed exactly below the maximum and are numbered 1, 2, 3, ...; from its expiry on they are numbered 1 |
| AttemptLedger.NeverMoreThanMaximum | src/auto_router/executor_auth.py:204-215 | a token that lives through a run is granted no more attempts than its largest maximum |
| AttemptLedger.ExpiredTokenStartsOver | src/auto_router/executor_auth.py:204-215 | a token for one attempt is refused a second before its expiry and granted one at it |
| ReceiptStore.Store.ReserveOneUse | src/auto_router/joyner_ling_receipt_candidate.py:239-275 | the transaction, statement by statement; every denial and outage leaves both tables as they were |
| ReceiptStore.RunKeepsMaxima | src/auto_router/joyner_ling_receipt_candidate.py:254-259 | over every run the high-water row is the greatest generation among the principal's receipts |
| ReceiptStore.TableRecordsAccepted | src/auto_router/joyner_ling_receipt_candidate.py:246-253 | the receipt table is exactly the record of what was accepted |
| ReceiptStore.AcceptedExactly | src/auto_router/joyner_ling_receipt_candidate.py:239-260 | a reservation is accepted exactly when the database answers, the token was not accepted before, and no greater generation was accepted for the principal |
| ReceiptStore.OnceAndForward | src/auto_router/joyner_ling_receipt_candidate.py:239-260 | a token is accepted at most once, and accepted generations never decrease for a principal |
| LoadBackoff.Backoff.InBackoff | src/auto_router/model_placement.py:382-390 | prunes the stamps and answers whether enough recent ones are left |
| LoadBackoff.Backoff.RecordLoadResult | src/auto_router/model_placement.py:393-398 | a success clears the placement, a failure adds a stamp |
| LoadBackoff.Backoff.ReconcileLoads | src/auto_router/model_placement.py:410-454 | the loop over the loads needed skips, backs off or tries each, in order |
| LoadBackoff.PruningIsInvisible | src/auto_router/model_placement.py:382-390 | although stamps are dropped lazily, the table answers as the whole streak of failures would |
| LoadBackoff.SkippedExactly | src/auto_router/model_placement.py:382-390 | a load is skipped exactly when the window holds `count` failures since the last success |
| LoadBackoff.FailuresAreSpread | src/auto_router/model_placement.py:368-398 | any `count` + 1 consecutive failures of a placement without a success between them span at least the backoff |
| LoadBackoff.ReconcileIsSequential | src/auto_router/model_placement.py:401-454 | reconciles produce exactly the logs of which that bound is proved |
| CircuitBreaker.Breaker.IsAllowed | src/auto_router/circuit_breaker.py:27-38 | the answer, and the clearing of a circuit whose cooldown is over |
| CircuitBreaker.Breaker.RecordFailure | src/auto_router/circuit_breaker.py:44-51 | one more failure, and the opening of a circuit at the threshold |
| CircuitBreaker.Breaker.ResetCircuits | src/auto_router/circuit_breaker.py:65-78 | clears one owner or all and returns how many |
| CircuitBreaker.CircuitSummarizes | src/auto_router/circuit_breaker.py:8-50 | the stored state summarises the failures since the last success, reset or clearing |
| CircuitBreaker.RefusedExactly | src/auto_router/circuit_breaker.py:27-50 | an owner is refused exactly when a threshold of failures was recorded since then and the time is before the latest failure plus its own delay |
| CircuitBreaker.FullThresholdAfterClearing | src/auto_router/circuit_breaker.py:34-37 | after a clearing a full threshold of new failures is needed before the next refusal |
| Qualification.AnnotationSettles | src/auto_router/benchmark_qualification.py:423-471 | a row passes exactly when it succeeded and declares no failure; annotating is idempotent; a mode outside the vocabulary is only ever a declared one |
| Qualification.HighestLevel | src/auto_router/benchmark_qualification.py:625-633 | the loop finds a level of a passing row that no passing row exceeds |
| Qualification.EvaluateRoleFloor | src/auto_router/benchmark_qualification.py:644-693 | a role passes exactly when no reason is found, and each reason is given exactly when its condition fails |
| Qualification.DeriveRole | src/auto_router/benchmark_qualification.py:735-755 | the role is the strictest whose floor is passed |
| Qualification.FloorsNest | src/auto_router/benchmark_qualification.py:66-119 | passing a stricter floor implies passing every laxer one, so a role is at least as good as another exactly when that floor is passed |
| Qualification.RoleIsUnordered | src/auto_router/benchmark_qualification.py:696-732 | the role does not depend on the order of the rows |
| Qualification.ThroughputIsAdvisory | src/auto_router/benchmark_qualification.py:705-732 | tokens per second and time to first token reach the statistics only as medians, everything else in them agrees, and so does the role |
| Qualification.AdviceVaries | src/auto_router/benchmark_qualification.py:725-731 | rows that differ in throughput alone have different statistics, so the independence above is not empty |
| Qualification.EmptyExactly | src/auto_router/benchmark_qualification.py:426-463 | a row that declares nothing is named empty exactly when it holds no text and neither timed out nor was cut short; an unrecognised one is named ungrounded |
| Qualification.UnrecognisedIsNotEmpty | src/auto_router/benchmark_qualification.py:426-463 | a row of no recognised shape that is not named empty |
| Qualification.WrongFieldEitherWay | src/auto_router/benchmark_qualification.py:459-462 | the flag for a wrong response field counts whichever way it is set |
| Qualification.GoodEvidenceNeverHurts | src/auto_router/benchmark_qualification.py:696-755 | adding a passing, correctly grounded row anywhere never lowers the role, rounding included |

## Left out

- The map of gates by runtime and its configuration conflicts (`src/auto_router/admission.py:192-239`): one gate is modelled.
- Streams whose body is never iterated, and cancellation inside `_execute`: the program does not clean up there.
- `--dry-run`, which writes the report without the fence, and snapshots from before statuses existed: the graph starts empty.
- Identifiers made by `uuid4` are assumed new; `node:model` strings are pairs, because the strings can collide.
- Scores of candidates, memories and policy, and the text of a memory's line: parameters, so results hold for any of them.
- Delta, loadout and profile nodes of the graph, and all attributes that are written but never read.
- Event payloads and envelopes, HTTP, JSON, signatures, SQL and Cypher as languages, logging and metrics.
- Interference of other requests with plan-time reservations: the other books are proved over every interleaving, the reservations for one request at a time.
- Usage records and route-decision events of `_execute`, which are written but never read back.
- Clearing circuits of models in backoff, unloads and plan computation in `src/auto_router/model_placement.py`.
- Claim checks before a reservation (`src/auto_router/joyner_ling_receipt_candidate.py:98-189`): single-branch checks.
- FleetReconciliation.Store.Publish: a commit that is lost after the file was written is modelled; a file write that itself fails is not.
- EventDelivery.NoStarvation: counts whole cycles; time within a cycle is not modelled.
