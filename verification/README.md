# The durable task control plane, context selection and compaction: a verified model

This project models three cores of the web-buddy package and proves what they promise.

**The task control plane** (`packages/web-buddy/src/agents/`). A session is a dependency graph of
tasks, changed by transactions that each commit one snapshot and one event. `Reducers` holds the
eleven reducers and the store's fence with their branches and error codes; `Runs` puts them in any
order, with any identifiers, times and outcomes, so `Reachable` covers every interleaving of
scheduler, runtime and main agent. `Invariants`, `EventLog`, `LogRules`, `Measures`, `Fencing` and
`Guarantees` prove the state invariant, that the log determines the snapshot, lease fencing over
whole runs, bounded work, dependency safety and freedom from deadlock; `Outcomes` says field by field
what each committed transaction does, `Acceptance` when each is accepted and what every refusal code
means, both without the functions the reducers are made of; `Stalling` says when a blocked
task is released and when it is stuck; `ActionBindings` is the check that keeps a task's source action in the past. `StoreMachine` refines a
transaction into the writes the store makes, down to single characters of the appended line, with
crashes at every point and during recovery; `Json` and `JsonPrefix` supply what it rests on, a JSON
printer and parser for which torn text never decodes; `JsonShape` and `LogText` say what is printed,
and what reading, repairing and extending do to any text. `TaskGraphStore`, `NotificationQueue` and
`Scheduler` are the classes with their mutable fields and loops; `SerialChain` is the promise chain
one microtask at a time; `OutboxDelivery` couples queue and outbox across restarts.

**Budgeted context selection**: `ContextSelector` is the selection with its loops, `SelectionLaws`
what it guarantees, `SelectionRules` rules on input and result alone that have exactly one solution,
`SelectionAcceptance` when the selection succeeds and that it is that solution, `ContextEnvelope` the
separately written validator that accepts every envelope built from it, `EnvelopeRules` exactly which
envelopes it accepts, `CanonicalJson` and `SpawnDigest` the digest input.

**Conversation compaction** (`packages/web-buddy/src/context/`): `Messages` groups messages at tool
calls, `BoundaryLaws` says message by message what survives, `Compaction` chooses the retained tail,
`MicroCompaction` shrinks old tool results.

Some findings, proved as stated:

- The recovery check of a resume fails in two ways, with no other transaction in between
  (`Scheduler.AgentTaskScheduler.Resume`). A scheduler already told to abort the session does nothing in its
  tick, and the check fails if and only if some lease is over. Otherwise it fails only for a lease that the
  caller's `resumedAt` finds over and the scheduler's own clock did not when the tick began, and the resume
  certainly fails if that clock still does not when the tick ends: with NotRecovered, unless the tick itself threw,
  which it does only for a runner that could not be set up or a queue filled from elsewhere. Inputs: `AbandonedLease.ResumeAfterAbort`,
  `AbandonedLease.ResumeAheadOfTheClock`.
- Cancelling a running task is refused with LEASE_EXPIRED exactly when its lease has run out at the time of
  the request. Aborting a session stops at the first such task with the same error: the tasks before it are
  stopped, it and those after it are as they were, and a scheduler that was told to abort no longer recovers
  the lease either (`SchedulerSteps.RequestStep`, `Scheduler.AgentTaskScheduler.AbortSession`; inputs:
  `AbandonedLease.CancelAfterTheLease`, `AbandonedLease.AbortAfterTheLease`).
- Not every blocked task waits for something. A task spawned on blockers that are all completed already is
  blocked all the same, and nothing else makes a task stuck in that way: while every waiting task has a blocker
  that is not completed, a committed transaction ends that if and only if it is such a spawn
  (`Stalling.StuckExactly`; over runs, `Stalling.StuckRunsExactly`; the input is `StuckSession.SpawnGetsStuck`).
  A stuck task is released only by the success of some run; in a session where nothing runs or is pending that
  takes the spawn of a task without blockers first.
- The two completion gates block the same graphs. On an open gate they give different answers if and only if the
  verification is current and names no evidence: the first refuses it and the second accepts it
  (`Readiness.BothGatesAgree`; the input is `Readiness.EmptyEvidence`). The declared types of both evidence lists
  are non-empty (`packages/web-buddy/src/agents/async-task-prompt.ts:61`,
  `packages/web-buddy/src/agents/async-task-runtime.ts:88`), so only a caller outside the type checker can pass it.
- Micro-compaction shortens every content it rewrites if and only if the size options leave room for the marker
  in the shortest such content (`MicroCompaction.ShrinksExactly`); the defaults do, both sizes 0 do not.

`dafny verify dfyconfig.toml` checks the whole project.

## Model

| member | source | states |
|---|---|---|
| `Dag.SearchDecidesAcyclicity` | packages/web-buddy/src/agents/task-graph.ts:898-914 | The depth-first search, started at every task, finishes and returns normally exactly when the `blocks` relation has no cycle. |
| `Dag.CycleSearch.Visit` | packages/web-buddy/src/agents/task-graph.ts:900-910 | The closure over the two mutable sets does what the specified search does, including the state of both sets afterwards. |
| `Dag.CheckAcyclic` | packages/web-buddy/src/agents/task-graph.ts:898-914 | The whole check, with its mutable sets, answers true exactly for acyclic graphs. |
| `Dag.AddingNodeClosesCycle` | packages/web-buddy/src/agents/task-graph.ts:724-739 | Adding one node to an acyclic graph closes a cycle exactly when one of its successors reaches, or is, one of its predecessors. |
| `GraphLinks.CycleErrorCondition` | packages/web-buddy/src/agents/task-graph.ts:724-739 | `addAgentTaskV2` raises DAG_CYCLE if and only if some task in the new one's `blocks` reaches, or is, one in its `blockedBy`; with known references it raises nothing else. |
| `GraphLinks.SyncOfAddition` | packages/web-buddy/src/agents/task-graph.ts:925-938 | In a consistent graph the link completion appends the new identifier to exactly the named tasks and changes nothing else. |
| `GraphLinks.AddTaskKeepsLinkedGraph` | packages/web-buddy/src/agents/task-graph.ts:724-739 | An accepted addition leaves identifiers unique, `blocks` and `blockedBy` exact inverses between known tasks, and no cycle. |
| `TaskGraph.RunnableIsSortedSelection` | packages/web-buddy/src/agents/task-graph.ts:859-866 | The runnable list holds exactly the pending, due tasks all of whose blockers are completed, each once. Along it the priority never rises, among equal priorities the older task comes first, and among those the smaller identifier. |
| `Sorting.SortIgnoresInputOrder` | packages/web-buddy/src/agents/task-graph.ts:859-866 | Sorting by a strict total order gives the same sequence for every arrangement of the same elements. |
| `Invariants.ReduceKeeps` | packages/web-buddy/src/agents/task-scheduler.ts:118-196 | Every reducer (spawn, claim, progress, success, failure, abort, lease recovery, both cancellations, acknowledgement, action clock) keeps the state invariant and only moves tasks, attempt records and outbox entries forward. |
| `Invariants.ReduceKeepsLinks` | packages/web-buddy/src/agents/task-graph.ts:724-739 | Every reducer keeps the links inverse, closed and acyclic. |
| `Guarantees.TaskStatesAreSound` | packages/web-buddy/src/agents/task-scheduler.ts:268-330 | In every reachable state: running exactly while leased, one record per attempt within the allowed number, at most the last record open and only while running, completed exactly when the last attempt succeeded, outputs only then and all under that attempt and lease, and waiting tasks always have an attempt left. |
| `Fencing.CommitCondition` | packages/web-buddy/src/agents/task-graph-store.ts:153-217 | A transaction commits exactly what its reducer built; the store adds one refusal, LEASE_EXPIRED, for outcomes later than the lease. |
| `Fencing.ClosedLeaseIsRefused` | packages/web-buddy/src/agents/task-scheduler.ts:699-728 | An outcome under a lease whose record has left `running` is refused, whatever it reports. |
| `Guarantees.ClosedLeaseIsPowerless` | packages/web-buddy/src/agents/task-scheduler.ts:416-519 | Over whole runs: once a lease is closed, no outcome under it changes the session in any continuation. |
| `Guarantees.CommitsUnlessLate` | packages/web-buddy/src/agents/task-graph-store.ts:177-217 | In every reachable state a transaction commits if and only if its reducer succeeds and its lease has not run out. |
| `Guarantees.EndedTasksAreFinal` | packages/web-buddy/src/agents/task-scheduler.ts:416-519 | Completed, failed and killed are absorbing: in every continuation only the links of such a task can change. |
| `Measures.ReduceUsesRank` | packages/web-buddy/src/agents/task-scheduler.ts:462-499 | Every status change strictly lowers a rank that only spawning raises. |
| `Measures.ReduceMeasures` | packages/web-buddy/src/agents/task-scheduler.ts:268-330 | No transaction exceeds the queue or capacity limits, and exactly the claims add to the attempts. |
| `Guarantees.WorkIsBounded` | packages/web-buddy/src/agents/task-scheduler.ts:283-287 | In every run, status changes number at most two per allowed attempt and two per task, and claims at most the sum of the allowed attempts. |
| `Guarantees.LimitsHold` | packages/web-buddy/src/agents/task-scheduler.ts:599-602 | In every reachable state the unfinished tasks fit the queue limit and the running tasks of each class the scheduler's limit. |
| `Guarantees.AttemptNeedsCompletedBlockers` | packages/web-buddy/src/agents/task-scheduler.ts:280-281 | Only a claim of that task starts an attempt, and only when every blocker is completed in the very same snapshot. |
| `Guarantees.DeadBlockerBlocksForever` | packages/web-buddy/src/agents/task-graph.ts:859-866 | A task that has not started and has a failed or killed blocker is never claimed in any continuation. |
| `Guarantees.NoDeadlock` | packages/web-buddy/src/agents/task-scheduler.ts:955-967 | With nothing running, failed, killed or held by hand, after the dependency refresh either all tasks are completed or some pending task has all blockers completed. |
| `Stalling.StuckExactly` | packages/web-buddy/src/agents/task-graph.ts:685-722 | While every waiting task has a blocker that is not completed, a committed transaction ends that if and only if it spawns a task that names blockers, all of them completed. |
| `Stalling.StuckRunsExactly` | packages/web-buddy/src/agents/task-graph.ts:685-722 | From a reachable session without a stuck task, no point of a continuation has one if and only if the continuation accepts no such spawn. |
| `Stalling.StuckStep` | packages/web-buddy/src/agents/task-scheduler.ts:955-967 | A stuck task stays stuck through every committed transaction except a success, its own cancellation and the spawn of a task that is to run before it; and no transaction makes a task of the session stuck. |
| `Stalling.SpawnedStuck` | packages/web-buddy/src/agents/task-graph.ts:685-722 | In every session the spawned task is stuck from the start if and only if it names blockers and all of them are completed; an idle session then stays idle. |
| `StuckSession.SpawnGetsStuck` | packages/web-buddy/src/agents/task-graph.ts:685-722 | A concrete reachable session without a stuck task, in which the admissible spawn of a task behind the completed one is accepted and leaves it stuck. |
| `Stalling.OnlySuccessReleases` | packages/web-buddy/src/agents/task-scheduler.ts:416-460 | Every committed transaction other than a success leaves a blocked task blocked, or is the cancellation that kills it. |
| `Stalling.ReleasedExactly` | packages/web-buddy/src/agents/task-scheduler.ts:955-967 | A task waiting for its dependencies becomes pending in a committed transaction if and only if that is a success and all its blockers are completed afterwards. |
| `Stalling.IdleEndsExactly` | packages/web-buddy/src/agents/task-scheduler.ts:416-460 | Where nothing is pending or running, a committed transaction changes that if and only if it spawns a task without blockers. |
| `Stalling.IdleForever` | packages/web-buddy/src/agents/task-scheduler.ts:955-967 | Along every continuation without such a spawn nothing ever becomes pending or runs, whatever blockers are completed. |
| `Guarantees.SpawnIsIdempotent` | packages/web-buddy/src/agents/async-task-runtime.ts:355-410 | In every continuation a spawn under a known idempotency key changes nothing and is answered with that task or, for another digest, with a conflict. |
| `EventLog.EventExplainsSnapshot` | packages/web-buddy/src/agents/task-graph.ts:868-896 | Every transaction changes status, attempt, outputs, clock and outbox exactly as its one event says. |
| `Guarantees.LogDeterminesSnapshot` | packages/web-buddy/src/agents/task-graph-store.ts:75-110 | In every reachable state the log is numbered 1, 2, 3, ... with chained revisions, folding it reproduces the snapshot's projection, and a task's attempt is the number of its claims. |
| `LogRules.CommitIsLegal` | packages/web-buddy/src/agents/task-graph-store.ts:177-217 | The event of every committed transaction is legal after the events before it. |
| `LogRules.AttemptsAreClaims` | packages/web-buddy/src/agents/task-scheduler.ts:268-330 | The attempt of a task equals its `task_claimed` events. |
| `LogRules.OneEnding` | packages/web-buddy/src/agents/task-scheduler.ts:416-519 | A task has at most one ending event, and has one exactly when it has ended. |
| `LogRules.NothingAfterTheEnd` | packages/web-buddy/src/agents/task-scheduler.ts:416-519 | After its ending event a task appears in the log only to acknowledge its notification. |
| `LogRules.RunEventsRespectTheirLease` | packages/web-buddy/src/agents/task-graph-store.ts:203-215 | Every event of a run follows the claim that granted its lease with no closing event between, at or before the expiry recorded there; `task_lease_expired` comes at or after it. |
| `LogRules.OutboxIsAnnouncedMinusAcknowledged` | packages/web-buddy/src/agents/task-scheduler.ts:229-254 | A notification is in the outbox exactly when an ending event announced it, and pending exactly when no acknowledgement is in the log; the kept receipt is the logged one. |
| `Guarantees.OutboxHoldsExactlyTheAnnounced` | packages/web-buddy/src/agents/task-scheduler.ts:149-160 | Each task has at most one outbox entry, and has one exactly when it ended otherwise than by `task_killed`. |
| `Guarantees.ClockCountsDistinctActions` | packages/web-buddy/src/agents/async-task-runtime.ts:458-511 | The action clock is its initial value plus the number of distinct accepted action identifiers. |
| `Guarantees.FreshnessIsDecided` | packages/web-buddy/src/agents/async-task-safety.ts:7-28 | Assessing a result at commit never throws, and says stale exactly when the clock has moved past the task's source. |
| `Outcomes.CommitHasOutcome` | packages/web-buddy/src/agents/task-scheduler.ts:118-330 | Every committed transaction has its outcome, stated field by field on its task, the other tasks, locks, outbox, clock and event, without the functions of the reducers; the rows below are the parts of it. |
| `Outcomes.ClaimHasOutcome` | packages/web-buddy/src/agents/task-scheduler.ts:268-330 | A claimed task runs its next attempt under a lease of the given identifier and owner, from the time of the claim for the task's lease duration, granted at the new revision; the event carries that lease. |
| `Outcomes.SuccessHasOutcome` | packages/web-buddy/src/agents/task-scheduler.ts:416-460 | A success completes the task, closes its last record, numbers the artifacts from 1 under the run with the freshness assessed at commit, announces it once, and leaves every waiting task pending if all its blockers are completed and waiting for the others if not. |
| `Outcomes.FailHasOutcome` | packages/web-buddy/src/agents/task-scheduler.ts:462-499 | After a failure the task is pending if and only if the runner asks for a retry and an attempt is left: then it is due at the given time, the event is `task_retry_scheduled` and nothing is announced. Otherwise it has failed, the event is `task_failed`, and exactly one notification announces it. The error is the runner's under its mapped code. |
| `Outcomes.AbortHasOutcome` | packages/web-buddy/src/agents/task-scheduler.ts:501-519 | An aborted run kills its task, as SESSION_ABORTED if that was the reason to stop and as CANCELLED otherwise, and announces nothing. |
| `Outcomes.RecoveryHasOutcome` | packages/web-buddy/src/agents/task-scheduler.ts:532-586 | The outcome of a lease recovery: as for `SchedulerSteps.RecoverStep`, for every committed recovery. |
| `Outcomes.CancelHasOutcome` | packages/web-buddy/src/agents/task-scheduler.ts:128-160 | A cancellation before the run kills the task, with its request and error, and announces it once. |
| `Outcomes.RequestHasOutcome` | packages/web-buddy/src/agents/task-scheduler.ts:173-183 | A request to stop is recorded on the running task and in the event, and changes nothing else. |
| `Outcomes.ReceiptHasOutcome` | packages/web-buddy/src/agents/task-scheduler.ts:229-254 | An acknowledgement gives its receipt to exactly one pending outbox entry, the one under its identifier. |
| `Outcomes.SpawnHasOutcome` | packages/web-buddy/src/agents/task-graph.ts:685-739 | A spawned task is as asked for, without repeated or own identifiers among its links, in the order given, blocked if it names blockers; each task it names gets its identifier appended to the inverse list, and no other task changes. |
| `Outcomes.LeasesAreOnRecord` | packages/web-buddy/src/agents/task-scheduler.ts:283-311 | In every reachable session each lease lasts for the task's own duration from the start of its last attempt, and is the lease in the claim event of its revision. |
| `Acceptance.CommitAccepts` | packages/web-buddy/src/agents/task-scheduler.ts:268-287 | Every transaction commits if and only if a condition on the task it names holds: for a claim, pending, no browser writes, all blockers completed, due, an attempt left, a free slot among the rivals of its class, a runner set up and no abort; for a report, the present lease and a time up to its expiry; for a spawn, a free identifier and key, room in the queue, known links and no loop. |
| `Acceptance.RefusalIsJustified` | packages/web-buddy/src/agents/task-scheduler.ts:693-709 | Every refusal code says something that is the case of the task, the graph or the time. |
| `Acceptance.StoreAccepts` | packages/web-buddy/src/agents/task-graph-store.ts:153-217 | Of any change, whoever proposes it, the store accepts exactly one step of revision and event number by one event that moves the clock only as a browser action, creates a new task, claims a pending one, or belongs to the run that the task is in and comes up to the expiry of its lease. |
| `Acceptance.RecoveryAccepts` | packages/web-buddy/src/agents/task-graph-store.ts:229-238 | A write-ahead file is installed exactly when the snapshot has its revision already or is one such step behind it. |
| `ActionBindings.ResolveActionBinding` | packages/web-buddy/src/agents/async-task-runtime.ts:970-1003 | The loop over the inputs accepts exactly the bindings that name a safe, past action sequence and the one the owned input artifacts carry, if they carry one. |
| `ActionBindings.AcceptedStaysAdmissible` | packages/web-buddy/src/agents/async-task-runtime.ts:970-1003 | A binding accepted against the clock of a reachable session makes the spawn admissible in every continuation of it. |
| `Runs.RunKeepsInv` | packages/web-buddy/src/agents/task-graph-store.ts:75-110 | The whole invariant (graph, links, log, limits, counts) holds after every run from the empty graph. |
| `Readiness.CompletionReadiness` | packages/web-buddy/src/agents/async-task-runtime.ts:643-686 | Blocks exactly on unfinished required tasks and on those that had to succeed and did not; otherwise accepts exactly owned, current, non-empty evidence. |
| `Readiness.ObstaclesAreListed` | packages/web-buddy/src/agents/async-task-runtime.ts:647-660 | The two lists hold exactly the required tasks that have not ended, and those that had to succeed and failed or were killed. |
| `Readiness.BuildMainCompletionReadiness` | packages/web-buddy/src/agents/async-task-prompt.ts:200-250 | The second implementation blocks on the same identifiers, sorted, and accepts owned, current evidence, even none. |
| `Readiness.BothGatesAgree` | packages/web-buddy/src/agents/async-task-prompt.ts:200-250 | Both gates block the same graphs on the same identifiers; on an open gate one accepts and the other refuses if and only if the verification is current and names no evidence, and what both accept is the same. |
| `Readiness.EmptyEvidence` | packages/web-buddy/src/agents/async-task-runtime.ts:666-672 | On a new session the empty verification is refused by the first gate and accepted by the second. |
| `Readiness.OnlySpawnCloses` | packages/web-buddy/src/agents/async-task-runtime.ts:643-686 | From an open gate a committed transaction closes it if and only if it spawns a required task. |
| `Readiness.OpenGateStaysOpen` | packages/web-buddy/src/agents/async-task-runtime.ts:643-686 | Along every continuation without such a spawn an open gate stays open. |
| `Json.RoundTrip` | packages/web-buddy/src/agents/task-graph-store.ts:246-299 | The parser reads the printed text of any value back to that value and exactly the text after it. |
| `Json.ParsePrinted` | packages/web-buddy/src/agents/task-graph-store.ts:282-299 | Parsing inverts printing on every value with distinct keys. |
| `JsonPrefix.NoPrefixParses` | packages/web-buddy/src/agents/task-graph-store.ts:264-280 | No strict, non-empty prefix of a printed object is valid JSON: a torn line never decodes. |
| `EventLines.LogReadsBack` | packages/web-buddy/src/agents/task-graph-store.ts:282-299 | Reading the log text yields the documents of exactly the logged events, in order. |
| `EventLines.RepairGivesWholeLog` | packages/web-buddy/src/agents/task-graph-store.ts:264-280 | Whatever prefix of the last line is on disk, the tail repair leaves the lines before it, or the whole line if its document was complete. |
| `EventLines.PlanIsExact` | packages/web-buddy/src/agents/task-graph-store.ts:246-262 | After the repair a new event is appended, an event already there is left alone, and neither is refused. |
| `LogText.ReadsEveryLine` | packages/web-buddy/src/agents/task-graph-store.ts:282-299 | For every text: reading throws if and only if a line that ends in a newline is neither blank nor readable, and otherwise returns the documents of exactly the readable lines, in order. |
| `LogText.RepairExactly` | packages/web-buddy/src/agents/task-graph-store.ts:264-280 | For every text: whole lines stay, and of an unfinished last line blanks stay, a document gets its newline and anything else is dropped. |
| `LogText.PlanTells` | packages/web-buddy/src/agents/task-graph-store.ts:246-262 | For any documents: a new one is appended if and only if none has its identifier or its number, skipped if and only if the first with its identifier is the same to the letter, and refused otherwise. |
| `LogText.EventIsDocumented` | packages/web-buddy/src/agents/task-scheduler.ts:638-663 | The logged document carries the event's identifier, number, session, graph, time, both revisions and payload. |
| `JsonShape.PrintIsCompact` | packages/web-buddy/src/agents/task-graph-store.ts:259 | The only blanks in printed JSON are those inside strings. |
| `JsonShape.EscapesAreShortest` | packages/web-buddy/src/agents/task-graph-store.ts:331 | The seven characters with an escape of their own get it, other control characters four lower-case digits, and everything else stands for itself (section 3.2.2.2 of RFC 8785). |
| `TaskGraphStore.ReadEventLog` | packages/web-buddy/src/agents/task-graph-store.ts:282-299 | The line loop reads what the specification reads, and throws on an unreadable line other than an unterminated last one. |
| `StoreMachine.MoveKeepsInv` | packages/web-buddy/src/agents/task-graph-store.ts:75-126 | From any instant every step, torn append, crash or recovery step leads to another good instant, and only the write-ahead commit changes the specified session. |
| `StoreMachine.HistoryIsSerial` | packages/web-buddy/src/agents/task-graph-store.ts:75-126 | Crash atomicity: after any history of steps, torn appends, crashes and repeated recoveries the session is exactly the serial effect of the transactions whose reducers ran. |
| `StoreMachine.CreatedInv` | packages/web-buddy/src/agents/task-graph-store.ts:53-63 | The machine right after `create` of an empty graph is at a good instant. |
| `StoreMachine.EveryHistoryRecovers` | packages/web-buddy/src/agents/task-graph-store.ts:75-126 | From that creation on, recovery after any history succeeds and leaves snapshot and log file exactly at the serial effect of the transactions whose reducers ran. |
| `StoreMachine.NeverStuck` | packages/web-buddy/src/agents/task-graph-store.ts:112-126 | No step of installing or recovering a transaction throws, at any instant of any history. |
| `StoreMachine.ReadyIsExact` | packages/web-buddy/src/agents/task-graph-store.ts:105-126 | Whenever the store is ready, snapshot and log file are exactly the session, and the file reads back event by event. |
| `StoreMachine.RecoveryIsExact` | packages/web-buddy/src/agents/task-graph-store.ts:112-126 | Uninterrupted recovery from any instant succeeds and leaves exactly the committed session. |
| `TaskGraphStore.FileTaskGraphStore.Create` | packages/web-buddy/src/agents/task-graph-store.ts:53-63 | Writes any graph if the session has none, and refuses otherwise without changing the session; from the empty graph on, the files are those of a session of its own. |
| `TaskGraphStore.FileTaskGraphStore.Recover` | packages/web-buddy/src/agents/task-graph-store.ts:112-126 | Never throws; leaves snapshot and log equal to the committed session, and the files alone where there is no session. |
| `TaskGraphStore.FileTaskGraphStore.Load` | packages/web-buddy/src/agents/task-graph-store.ts:65-73 | Returns the committed graph, whatever a crash left behind, and nothing without a session. |
| `TaskGraphStore.FileTaskGraphStore.ReadEvents` | packages/web-buddy/src/agents/task-graph-store.ts:105-110 | Returns the documents of exactly the committed events, and the empty list without a session. |
| `TaskGraphStore.FileTaskGraphStore.AppendEvent` | packages/web-buddy/src/agents/task-graph-store.ts:246-262 | Repairs the tail, then appends, skips or refuses as specified. |
| `TaskGraphStore.FileTaskGraphStore.Transact` | packages/web-buddy/src/agents/task-graph-store.ts:75-103 | With a fault at any of the three points the transaction is committed; a refused one changes nothing; either way the files stay recoverable. Without a session it is refused with GRAPH_NOT_FOUND. |
| `SerialChain.ChainIsSerial` | packages/web-buddy/src/agents/task-graph-store.ts:128-138 | Over every interleaving: operations never overlap, start in the order they were entered, and the state is that of the ended ones applied one after the other, failing ones included. |
| `SerialChain.ChainNeverStalls` | packages/web-buddy/src/agents/task-graph-store.ts:128-138 | While an operation is unfinished some step other than a new call is enabled. |
| `SerialChain.EntryIsRemoved` | packages/web-buddy/src/agents/task-graph-store.ts:128-138 | The map entry is gone exactly when no operation is unfinished. |
| `NotificationQueue.AcknowledgeCondition` | packages/web-buddy/src/agents/task-notification-queue.ts:78-98 | A notification is acknowledged by its current claim only, and afterwards only by the identical receipt. |
| `NotificationQueue.LostClaimIsFenced` | packages/web-buddy/src/agents/task-notification-queue.ts:129-144 | A claim that ran out and was released, or was handed to somebody else, can no longer acknowledge. |
| `NotificationQueue.ClaimedExactly` | packages/web-buddy/src/agents/task-notification-queue.ts:46-76 | Claiming holds each available notification of the session under its own claim, in order, and changes no other record. |
| `NotificationQueue.HandedInOrder` | packages/web-buddy/src/agents/task-notification-queue.ts:46-76 | What a claim hands out are the records at exactly the places of the order that were available, in that order, each under the claim of its place. |
| `NotificationQueue.ReconciledAreDone` | packages/web-buddy/src/agents/task-notification-queue.ts:100-127 | Reconciling a persisted prompt acknowledges every listed notification the queue knows, the first time it is listed, with the receipt of that prompt under the claim it is held by or the one made up for it, and touches no other. |
| `NotificationQueue.ReconcileCondition` | packages/web-buddy/src/agents/task-notification-queue.ts:100-127 | Reconciling an attachment succeeds if and only if no listed, unacknowledged notification belongs to another session. |
| `NotificationQueue.TaskNotificationQueue.EnqueueNotification` | packages/web-buddy/src/agents/task-notification-queue.ts:23-44 | New notifications go to the end of their session's order, equal replays change nothing, different content conflicts. |
| `NotificationQueue.TaskNotificationQueue.ClaimAvailable` | packages/web-buddy/src/agents/task-notification-queue.ts:46-76 | Hands out exactly the available notifications of the session, oldest first, each with the claim of its own place in the order. |
| `NotificationQueue.TaskNotificationQueue.AcknowledgeDelivery` | packages/web-buddy/src/agents/task-notification-queue.ts:78-98 | Moves the queue exactly as specified, or throws and leaves it. |
| `NotificationQueue.TaskNotificationQueue.ReleaseExpiredClaims` | packages/web-buddy/src/agents/task-notification-queue.ts:129-144 | Makes exactly the records available whose claim ended by then, changes nothing else, and counts them. |
| `NotificationQueue.TaskNotificationQueue.ReconcileAttachment` | packages/web-buddy/src/agents/task-notification-queue.ts:100-127 | Acknowledges exactly the listed notifications before the first one that belongs to another session, all of them if there is none, and throws at that one with nothing after it touched. |
| `OutboxDelivery.MoveKeepsCoupling` | packages/web-buddy/src/agents/async-task-runtime.ts:787-792 | One move, a transaction, a load, a reconciliation from a stale snapshot, any queue operation or a restart, keeps outbox and queue coupled. |
| `OutboxDelivery.HistoryStaysCoupled` | packages/web-buddy/src/agents/async-task-runtime.ts:787-792 | From the new process on, after every history of possible moves, a durable receipt and the queue never disagree and re-enqueueing from any loaded graph does not conflict. |
| `OutboxDelivery.ReconcileIsExact` | packages/web-buddy/src/agents/task-scheduler.ts:593-597 | Re-enqueueing from any version of the outbox adds exactly the missing pending notifications and leaves the rest alone. |
| `OutboxDelivery.ReconcileKeepsOrder` | packages/web-buddy/src/agents/task-scheduler.ts:593-597 | What is re-enqueued stands behind what was queued, in the order of the outbox. |
| `OutboxDelivery.EnqueueOutbox` | packages/web-buddy/src/agents/task-scheduler.ts:593-597 | The loop over the outbox on the mutable queue does what the specification says, and stops at a conflict with the same error. |
| `OutboxDelivery.RestartRequeuesPending` | packages/web-buddy/src/agents/async-task-runtime.ts:787-792 | After a restart the first reconciliation queues exactly the pending notifications, all available. |
| `OutboxDelivery.NotificationsSurvive` | packages/web-buddy/src/agents/task-scheduler.ts:211-255 | A pending notification stays in every later outbox, pending or with its receipt. |
| `SchedulerSteps.RecoverStep` | packages/web-buddy/src/agents/task-scheduler.ts:532-586 | Recovering an expired lease always commits. The task is pending again if and only if it does no browser writes and has an attempt left; otherwise it has failed, with POLICY_VIOLATION for browser writes and MAX_ATTEMPTS_EXCEEDED else, and exactly one notification announces it. The disposition in the event says which; the task's locks are released; no other task changes. |
| `SchedulerSteps.ClaimStep` | packages/web-buddy/src/agents/task-scheduler.ts:268-330 | Claiming a runnable task within capacity commits and starts exactly that task: one more attempt, an open record of it, and a lease of the given identifier and owner that runs from the time of the claim for the task's own duration. |
| `SchedulerSteps.CancelStep` | packages/web-buddy/src/agents/task-scheduler.ts:128-160 | Cancelling a task that has not started kills it and nothing else. |
| `SchedulerSteps.RequestStep` | packages/web-buddy/src/agents/task-scheduler.ts:173-183 | Asking a run to stop is recorded up to the expiry of its lease, and refused with LEASE_EXPIRED after it. |
| `Scheduler.AgentTaskScheduler.RecoverExpiredLeases` | packages/web-buddy/src/agents/task-scheduler.ts:525-591 | Every lease over at entry gets exactly one recovery event, and only tasks that ran at entry get any. Afterwards those without browser writes and with an attempt left are pending, the others have failed, the outbox has grown by one notification for each of those and by nothing else, and every other task is as it was. |
| `Scheduler.AgentTaskScheduler.Claim` | packages/web-buddy/src/agents/task-scheduler.ts:268-330 | Claims the task exactly when it is claimable, for itself and for the task's lease duration from the present time on; swallows the expected conflicts and throws the rest. |
| `Scheduler.AgentTaskScheduler.Tick` | packages/web-buddy/src/agents/task-scheduler.ts:97-116 | Releases the notification claims that ran out, recovers expired leases, re-enqueues exactly what the outbox has pending and claims. Throws only for a runnable task whose runner setup fails for another reason than an expected conflict, or for a queue that holds something else under an identifier of the outbox. Otherwise every task that was runnable now runs, is the main agent's, is held up by a full class, or was passed over for an expected conflict; nothing else was started. |
| `Scheduler.AgentTaskScheduler.CancelTask` | packages/web-buddy/src/agents/task-scheduler.ts:118-196 | Kills or asks to stop exactly that task; false only for unknown or ended tasks; throws only LEASE_EXPIRED: only if the lease has run out when it ends, and certainly if it had when it began. |
| `Scheduler.AgentTaskScheduler.AbortSession` | packages/web-buddy/src/agents/task-scheduler.ts:198-209 | Every task before the returned position is ended or asked to stop, every other one is as it was; that position is the end exactly on success, and otherwise a task whose lease has run out; a lease that had run out at the start makes it stop there or before. Nothing is claimed from then on. |
| `Scheduler.AgentTaskScheduler.Resume` | packages/web-buddy/src/agents/async-task-resume.ts:108-140 | Reports exactly the leases over at `resumedAt`. After an abort the recovery check fails if and only if some lease is over; otherwise it fails only for a lease over at `resumedAt` and not on the clock at the start, and the resume fails whenever a lease over at `resumedAt` is still not over on the clock at the end. The tick within throws only as a tick does. |
| `Scheduler.ExpiredInOrder` | packages/web-buddy/src/agents/async-task-resume.ts:190-202 | The reported runs are those of exactly the tasks whose lease is over, in task order. |
| `AbandonedLease.LeaseCanRunOut` | packages/web-buddy/src/agents/async-task-resume.ts:190-202 | A concrete reachable session, under any limits that allow it, whose one running task has a lease to time 10. |
| `AbandonedLease.CancelAfterTheLease` | packages/web-buddy/src/agents/task-scheduler.ts:173-183 | In that session a request to stop commits at time 10 and is refused with LEASE_EXPIRED at time 11. |
| `AbandonedLease.ResumeAfterAbort` | packages/web-buddy/src/agents/async-task-resume.ts:108-140 | In that session a scheduler told to abort fails the recovery check at time 10. |
| `AbandonedLease.ResumeAheadOfTheClock` | packages/web-buddy/src/agents/async-task-resume.ts:108-140 | In that session a scheduler never told to abort, whose clock stays before 10, fails the recovery check itself for `resumedAt` 10. |
| `AbandonedLease.AbortAfterTheLease` | packages/web-buddy/src/agents/task-scheduler.ts:198-209 | In that session the abort at time 11 throws and leaves the task as it was. |
| `CanonicalJson.CanonicalTextIsFaithful` | packages/web-buddy/src/agents/context-catalog.ts:625-635 | Two values have the same canonical text if and only if they differ at most in the order of object members (property sorting as in section 3.2.3 of RFC 8785). |
| `JsonShape.CanonicalTextIsOrdered` | packages/web-buddy/src/agents/context-catalog.ts:625-635 | The canonical text is the compact print of a value all of whose objects list their keys in order. |
| `SpawnDigest.DigestIdentifiesRequest` | packages/web-buddy/src/agents/async-task-runtime.ts:939-965 | Two spawn requests have the same input digest if and only if every digested field agrees, up to key order inside the inputs. |
| `ContextSelector.SelectContext` | packages/web-buddy/src/agents/context-selector.ts:66-161 | The imperative selection computes the specified one, errors included; `SelectionAcceptance.SelectionIsTheProperOne` says which one that is, without its parts. |
| `ContextSelector.CheckCatalog` | packages/web-buddy/src/agents/context-catalog.ts:249-292 | The catalog loop with its `seen` set reports the first duplicate or foreign artifact. |
| `SelectionLaws.RelevantIsTotal` | packages/web-buddy/src/agents/context-selector.ts:231-239 | The cross-multiplied comparator is a strict total order on candidates with distinct identifiers. |
| `SelectionLaws.SelectionIgnoresCatalogOrder` | packages/web-buddy/src/agents/context-selector.ts:81-135 | For distinct identifiers, permuting the catalog's items gives the identical result: the same selection, omissions, grants and tokens, or the same error. |
| `SelectionLaws.SelectionSucceedsExactly` | packages/web-buddy/src/agents/context-selector.ts:104-161 | After the input checks selection succeeds exactly when the mandatory tokens fit; the partition and grant checks at the end never fail. |
| `SelectionLaws.SelectionIsSound` | packages/web-buddy/src/agents/context-selector.ts:104-161 | Every successful selection is an exact partition of the catalog, chosen under the grants of the input, within budget, and in the order of the next row. |
| `SelectionLaws.ChosenAreInOrder` | packages/web-buddy/src/agents/context-selector.ts:104-135 | The selected items are the mandatory ones in the order of their comparator, followed by optional ones in the order of theirs. |
| `SelectionLaws.OutcomeIsPartition` | packages/web-buddy/src/agents/context-selector.ts:411-425 | Selected and omitted items are the catalog's, each exactly once. |
| `SelectionLaws.OutcomeIsProper` | packages/web-buddy/src/agents/context-selector.ts:164-198 | Each selected item passed permission and freshness, and every mandatory item is selected. |
| `SelectionLaws.OutcomeUsesBudget` | packages/web-buddy/src/agents/context-selector.ts:117-135 | The reported tokens are the selected sum and within budget, and any item omitted as `budget_exceeded` would exceed it when added to the final selection. |
| `SelectionLaws.PackingIsMaximal` | packages/web-buddy/src/agents/context-selector.ts:120-135 | The greedy pass keeps within the budget and leaves out only what would overshoot its final result too. |
| `SelectionLaws.DeletingDeniedItemChangesNothing` | packages/web-buddy/src/agents/context-selector.ts:164-174 | Removing an optional item that was denied, with the manifest rebuilt, leaves the selected sequence and its tokens unchanged. |
| `SelectionRules.SelectionFollowsRules` | packages/web-buddy/src/agents/context-selector.ts:66-229 | Every successful selection follows the rules, which are said of input and result alone: each item is refused for its first objection, described with its freshness, its least covering grant and its worth (70 current, 35 historical, 25 bound to no action, 10 stale, 30 for each term it shares with the query, one for each of twenty actions still ahead), listed in order, and left out for the budget exactly where it would overshoot beside what is listed before it. |
| `SelectionRules.RulesDetermineSelection` | packages/web-buddy/src/agents/context-selector.ts:104-161 | No two selections follow the rules for the same input. |
| `SelectionAcceptance.SucceedsExactly` | packages/web-buddy/src/agents/context-selector.ts:66-118 | A selection succeeds if and only if catalog, manifest and grants are sound, no permitted item stems from the future, and the mandatory items are usable and fit the budget. |
| `SelectionAcceptance.SelectionIsTheProperOne` | packages/web-buddy/src/agents/context-selector.ts:66-161 | The result is a given selection if and only if the input is in that condition and the selection follows the rules. |
| `SelectionAcceptance.FailureIsJustified` | packages/web-buddy/src/agents/context-selector.ts:268-345 | Every failure names something that is wrong with the input. |
| `SelectionAcceptance.ThirtyPerTerm` | packages/web-buddy/src/agents/context-selector.ts:202-229 | Equally fresh candidates differ by 30 points for each term of the query that one shares and the other does not. |
| `SelectionAcceptance.OnePerStep` | packages/web-buddy/src/agents/context-selector.ts:224-229 | A step further back costs one point within twenty steps, and none beyond. |
| `SelectionAcceptance.FreshnessLadder` | packages/web-buddy/src/agents/context-selector.ts:216-223 | With equal terms a current candidate outscores a historical one by at least 16, that one an unbound one by at least 10, and an unbound one a stale one beyond reach by 15. |
| `SelectionAcceptance.BetterIsTaken` | packages/web-buddy/src/agents/context-selector.ts:120-135 | An optional item is not left out for the budget while a lower-ranked one of at least its size is taken. |
| `SelectionAcceptance.QueryDecides` | packages/web-buddy/src/agents/context-selector.ts:120-135 | Of two optional items of equal size and freshness, the one that shares more terms with the query is never left out for the budget while the other is taken. |
| `ContextEnvelope.RoleStaysNormal` | packages/web-buddy/src/agents/context-envelope.ts:245-309 | A normalised role is accepted unchanged when it is normalised again with the normalised tools. |
| `ContextEnvelope.ValidateBuiltEnvelope` | packages/web-buddy/src/agents/context-envelope.ts:165-232 | The validator, with its loop and its set of used grants, reports the first specified objection: to authority, role, duplicates, partition and digest, budget, the selected items one by one, unused grants, or ownership. |
| `ContextEnvelope.OutcomeEnvelopeIsValid` | packages/web-buddy/src/agents/context-envelope.ts:165-232 | The separately written validator accepts every envelope assembled from a selection and a normalised role. |
| `EnvelopeRules.ValidatorAccepts` | packages/web-buddy/src/agents/context-envelope.ts:165-232 | The validator accepts an envelope if and only if it has no authority, its role fits, its identifiers partition the manifest, its tokens add up within the budget, every selected item is covered and owned, every grant is used and every artifact belongs to the parent. |
| `EnvelopeRules.RoleFits` | packages/web-buddy/src/agents/context-envelope.ts:245-309 | A role is accepted if and only if it names itself and its output, claims nothing beyond reading or recommending, and asks for exactly the tools of the envelope; it comes back with those in the fixed order. |
| `EnvelopeRules.BuildIsExact` | packages/web-buddy/src/agents/context-envelope.ts:62-163 | Building returns a given envelope if and only if the request is in order and the envelope is the one around the proper selection. |
| `ContextEnvelope.BuildNeverFailsValidation` | packages/web-buddy/src/agents/context-envelope.ts:62-163 | Building fails only for the builder's own checks, for what the selection throws, or for the role, in that order; neither the validator nor the second look at the units ever objects. |
| `Messages.MessageBoundaryGroups` | packages/web-buddy/src/context/compaction-pipeline.ts:360-391 | The index loops compute the specified groups. |
| `Messages.SanitizeMessageBoundary` | packages/web-buddy/src/context/compaction-pipeline.ts:241-243 | Returns the messages of the groups. |
| `Messages.GroupsAreWhole` | packages/web-buddy/src/context/compaction-pipeline.ts:360-391 | Every tool message sits in its assistant's group, and every call of that assistant is answered there exactly once. |
| `BoundaryLaws.SanitizeKeepsExactly` | packages/web-buddy/src/context/compaction-pipeline.ts:360-391 | What survives, message by message: plain messages, tool-calling assistants all of whose calls are answered in the run after them, and the first answer to each call; so an assistant is dropped only if some call is unanswered. |
| `BoundaryLaws.KeptIsSubsequence` | packages/web-buddy/src/context/compaction-pipeline.ts:241-243 | The surviving messages are a subsequence of the input. |
| `Messages.SanitizeIsIdempotent` | packages/web-buddy/src/context/compaction-pipeline.ts:241-243 | Sanitising twice is sanitising once. |
| `Messages.SanitizeSplits` | packages/web-buddy/src/context/compaction-pipeline.ts:241-243 | Sanitising distributes over a concatenation whose second part does not begin with a tool message. |
| `Messages.SuffixIsStable` | packages/web-buddy/src/context/compaction-pipeline.ts:241-243 | Sanitising is the identity on any suffix of groups. |
| `Compaction.TokenBudgetedTail` | packages/web-buddy/src/context/compaction-pipeline.ts:276-296 | The token mode keeps the longest suffix of whole groups whose estimate fits the target, and always at least one group. |
| `Compaction.TokenTailIsUnique` | packages/web-buddy/src/context/compaction-pipeline.ts:276-296 | That description determines the tail. |
| `Compaction.BoundedMessageTail` | packages/web-buddy/src/context/compaction-pipeline.ts:345-358 | The count mode keeps the shortest suffix of whole groups with at least the asked number of messages. |
| `Compaction.CountTailBounds` | packages/web-buddy/src/context/compaction-pipeline.ts:345-358 | At least the asked number or everything, and less than that number more by at most the oldest kept group. |
| `Compaction.RecentMessagesForCompaction` | packages/web-buddy/src/context/compaction-pipeline.ts:258-305 | Returns the retained tail, the history and the counts. The tail is for the asked number of messages, six if that is no finite number; or, for a positive window, for at least one token and otherwise the whole tokens of the window times the ratio, a fifth for a ratio outside (0, 1); or for six messages. |
| `Compaction.HistoryAndTailPartition` | packages/web-buddy/src/context/compaction-pipeline.ts:307-343 | For well-formed, distinct input, history and tail split the non-system messages exactly, in order, and their token counts add up to the source's. |
| `Compaction.SidesAreDisjoint` | packages/web-buddy/src/context/compaction-pipeline.ts:307-343 | For every input, no message is on both sides, both sides are well formed, the history has no system message, and the token counts of the sides are those of their messages. |
| `MicroCompaction.RecentToolMessageIds` | packages/web-buddy/src/context/micro-compaction.ts:109-117 | The backward loop protects exactly the ids of the last `keep` identified tool results. |
| `MicroCompaction.MicroCompactMessages` | packages/web-buddy/src/context/micro-compaction.ts:63-130 | Exactly the long tool results that are not among the last identified ones change, and only in their content: it keeps the first characters up to the limit less blanks at their end, then has a blank line, the marker with the original length, and for snapshots the warning. The counts are right. |
| `MicroCompaction.GroupsCommute` | packages/web-buddy/src/context/micro-compaction.ts:73-90 | Grouping the rewritten messages gives the rewritten groups: lengths, roles, ids and boundaries are untouched. |
| `MicroCompaction.SanitizeCommutes` | packages/web-buddy/src/context/micro-compaction.ts:73-90 | Micro-compaction and sanitising can be done in either order. |
| `MicroCompaction.ShrinksExactly` | packages/web-buddy/src/context/micro-compaction.ts:119-130 | Every content long enough to be rewritten gets shorter if and only if the limit and the marker fit into less than the shortest such content, a condition on the options alone. |
| `MicroCompaction.RewrittenShrinks` | packages/web-buddy/src/context/micro-compaction.ts:63-107 | With such options every rewritten message gets strictly shorter. |
| `MicroCompaction.SomeResultDoesNotShrink` | packages/web-buddy/src/context/micro-compaction.ts:63-107 | With any other options an unprotected tool result of that length is rewritten and does not get shorter. |
| `MicroCompaction.SmallLimitsGrow` | packages/web-buddy/src/context/micro-compaction.ts:119-130 | With both sizes 0 a tool result of one character is rewritten to more than 40. |
| `MicroCompaction.DefaultsShrink` | packages/web-buddy/src/context/micro-compaction.ts:25-33 | With the default sizes every rewritten content gets strictly shorter, and fits the threshold afterwards. |
| `MicroCompaction.MicroCompactionIsIdempotent` | packages/web-buddy/src/context/micro-compaction.ts:63-107 | With the default sizes a second micro-compaction changes nothing. |

## Left out

- Scheduler.AgentTaskScheduler.Resume: covers the lease accounting; prompt attachments, compact facts and the checkpoint comparison of a resume are single checks and projections.
- Scheduler.AgentTaskScheduler.Tick: does not run the claimed runners; progress, success, failure and abort are transactions that may come at any point of a run instead, and another actor's transactions do not interleave within one call of the class (they do in `Runs`).
- Scheduler.AgentTaskScheduler.RecoverExpiredLeases: the tick re-enqueues the outbox once, after the last recovery, where the code does so after each.
- NotificationQueue.TaskNotificationQueue.ReconcileAttachment: handles one attachment and does not count what it acknowledges.
- Scheduler.AgentTaskScheduler.CancelTask: assumes that no other transaction comes between its load and its transaction; the refusals of such races are in the reducers.
- Scheduler.AgentTaskScheduler.AbortSession: stops before waiting for the aborted runs.
- Invariants.ReduceKeeps: leaves out progress payload size, materialisation of artifacts and mapping of thrown errors before the outcome reducer; the mapped outcome is a parameter.
- EventLines.LogReadsBack: the payload fields of an event other than its identifiers and numbers are encoded by an arbitrary function that yields distinct keys.
- Json.RoundTrip: numbers are carried as their text; a string holds Unicode scalar values, so lone surrogates and torn multi-byte sequences do not occur.
- CanonicalJson.CanonicalTextIsFaithful: the key comparator is any strict total order; integer-like keys, which JavaScript enumerates first, keep their place like others.
- SpawnDigest.DigestIdentifiesRequest: SHA-256 is an injective function.
- StoreMachine.HistoryIsSerial: one session per store; renames and the tail repair are atomic and what is flushed is durable; only the append can be torn.
- TaskGraphStore.FileTaskGraphStore.Recover: of a session created with another graph than the empty one only the creation is modelled; sessions that ran start from the empty graph.
- NotificationQueue.TaskNotificationQueue.ClaimAvailable: each record is an immutable value replaced in the map; waiting for changes and its timeouts are left out.
- SerialChain.ChainIsSerial: an operation reads when it starts and writes when it ends; a failing one writes nothing.
- ContextEnvelope.BuildNeverFailsValidation: closed-object shapes, the text of the objective and of summaries, and the formats of identifiers, artifacts and provenance are not modelled; the digest is an injective function of the listed identifiers.
- SelectionLaws.RelevantIsTotal: products of scores and token counts are exact, also beyond 2^53.
- Compaction.RecentMessagesForCompaction: the target is computed over the reals, and the estimate of a message is any natural number.
- MicroCompaction.MicroCompactMessages: the two snapshot patterns are parameters, and a rewritten message keeps the reference number of the one it replaces; an empty tool-call id is the one reserved number.
- MicroCompaction.DefaultsShrink: lengths count characters, not UTF-16 units, up to the longest JavaScript string.
- Identifiers are numbers, times are naturals, UUIDs are fresh, and `localeCompare` is a total order consistent with equality; identifiers with surrounding blanks do not occur.
- Fields that no branch reads: update and first-start times, messages, categories and correlation ids of errors, literal safety flags, titles of tasks in the graph.
- `graph_migrated` events, which the event fence does not check, and the migration and helpers of the first graph version.
- That a pending task's blockers are all completed, that a task asked to stop never runs again, and that the scheduler's map of runs mirrors the running tasks: the code does not promise them.
- The pressure thresholds that decide whether to micro-compact, prompt rendering, role tables, schema and closed-object validators, the browser, the MCP server, the command line and the language-model loop: single-branch checks or input and output.

Nothing was executed.
