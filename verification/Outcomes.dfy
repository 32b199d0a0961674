/**
 What each committed transaction does, field by field: to its task, to the other tasks, to locks,
 outbox and clock, and in its event (packages/web-buddy/src/agents/task-scheduler.ts:118-330,
 416-591, 843-883; packages/web-buddy/src/agents/task-graph.ts:685-739, 868-896;
 packages/web-buddy/src/agents/async-task-runtime.ts:388-399, 475-508). The predicates are written
 without the functions that the reducers are made of.
 */
module Outcomes {
  import opened Wrappers
  import opened Contracts
  import opened TaskGraph
  import opened GraphLinks
  import opened Reducers
  import opened Invariants
  import opened Fencing
  import opened EventLog
  import opened Runs
  import opened Guarantees

  // ---------------------------------------------------------------- what every transaction shares

  function TimeOf(op: Op): Time {
    if op.Acknowledge? then op.receipt.acknowledgedAt else op.now
  }

  /** One step of revision and event number, recorded in the event. */
  ghost predicate Stamped(g: Graph, op: Op, m: Mutation) {
    && m.graph.identity == g.identity
    && m.graph.revision == g.revision + 1 && m.graph.nextEventSeq == g.nextEventSeq + 1
    && m.event == Event(op.eventId, g.nextEventSeq, g.identity.sessionId, g.identity.graphId, TimeOf(op),
                        g.revision, g.revision + 1, m.event.body)
  }

  ghost predicate SameRest(g: Graph, h: Graph) {
    h.locks == g.locks && h.activeBrowserTask == g.activeBrowserTask && h.actionSeq == g.actionSeq
  }

  /** Task `k` becomes `u`, and no other task changes. */
  ghost predicate Becomes(g: Graph, h: Graph, k: nat, u: Task) {
    k < |g.tasks| && h.tasks == g.tasks[k := u]
  }

  /** A pending notification about the event's task, with its numbers and time. */
  ghost predicate Announcement(entry: OutboxEntry, e: Event, taskId: Id, body: NotificationBody) {
    && entry.sourceEventId == e.eventId && entry.sourceEventSeq == e.eventSeq && entry.receipt.None?
    && entry.notification
       == Notification(NotificationFor(e.eventId), e.sessionId, e.graphId, e.revisionAfter, e.eventSeq, taskId,
                       e.occurredAt, body)
  }

  /** Exactly one outbox entry is new, and it announces the event. */
  ghost predicate AnnouncesOnly(g: Graph, m: Mutation, taskId: Id, body: NotificationBody) {
    && |m.graph.outbox| == |g.outbox| + 1 && m.graph.outbox[..|g.outbox|] == g.outbox
    && Announcement(m.graph.outbox[|g.outbox|], m.event, taskId, body)
  }

  /** The run is over: no lease, and its record, the last, closed in the given state. */
  ghost predicate RunOver(t: Task, u: Task, state: AttemptState) {
    && u.lease.None? && t.attempts != []
    && u.attempts == t.attempts[|t.attempts| - 1 := t.attempts[|t.attempts| - 1].(state := state)]
  }

  // ---------------------------------------------------------------- claims

  /** The lease runs for the task's own duration from the time of the claim. */
  ghost predicate Granted(t: Task, op: Op, revision: nat, lease: Lease)
    requires op.Claim?
  {
    && lease.leaseId == op.leaseId && lease.ownerId == op.schedulerId
    && lease.acquiredAt == op.now && lease.expiresAt == op.now + t.leaseDuration
    && lease.attempt == t.attempt + 1 && lease.claimedAtGraphRevision == revision
  }

  ghost predicate ClaimOutcome(g: Graph, op: Op, m: Mutation, k: nat)
    requires op.Claim? && k < |g.tasks| && |m.graph.tasks| == |g.tasks|
  {
    var t, u := g.tasks[k], m.graph.tasks[k];
    var run := RunIdentity(op.taskId, t.attempt + 1, op.leaseId, op.schedulerId);
    && Becomes(g, m.graph, k, u) && SameRest(g, m.graph) && m.graph.outbox == g.outbox
    && u.lease.Some? && Granted(t, op, m.graph.revision, u.lease.value)
    && u == t.(status := Running, attempt := t.attempt + 1, lease := u.lease,
               attempts := t.attempts + [AttemptRecord(run, op.now, InProgress)])
    && m.event.body == TaskClaimed(run, u.lease.value)
  }

  // ---------------------------------------------------------------- the ends of a run

  /** What becomes of a runner's error. */
  ghost predicate Mapped(e: RunnerError, c: ContractError, taskId: Id, now: Time) {
    && c.taskId == taskId && c.occurredAt == now && c.retrySameTask == e.retrySameTask
    && (c.code == ArtifactNotReady <==> e.code == RunnerArtifactNotReady)
    && (c.code == ArtifactIntegrityFailed <==> e.code == RunnerArtifactIntegrityFailed)
    && (c.code == ResultSchemaInvalid <==> e.code == OutputSchemaInvalid)
    && (c.code == SessionAborted <==> e.code == RunnerSessionAborted)
    && (c.code == PolicyViolation <==> e.code == RunnerPolicyViolation || e.code == ToolDenied)
    && (c.code == InvalidTransition
        <==> e.code in {LlmTimeout, LlmTransient, BudgetExhausted, StaleSource, Internal})
  }

  /**
   A failed run is retried exactly when the runner asks for it and an attempt is left: the task is
   pending again from the given time on, and nothing is announced. Otherwise the task has failed,
   which is announced.
   */
  ghost predicate FailOutcome(g: Graph, op: Op, m: Mutation, k: nat)
    requires op.Fail? && k < |g.tasks| && |m.graph.tasks| == |g.tasks|
  {
    var t, u := g.tasks[k], m.graph.tasks[k];
    var again := op.error.retrySameTask && t.attempt < t.maxAttempts;
    && Becomes(g, m.graph, k, u) && SameRest(g, m.graph)
    && u.lastError.Some? && Mapped(op.error, u.lastError.value, t.id, op.now)
    && RunOver(t, u, AttemptFailed(op.now, u.lastError.value))
    && (again ==>
          && u == t.(status := Pending, lease := None, nextAttemptAt := Some(op.nextAttemptAt),
                     attempts := u.attempts, lastError := u.lastError)
          && m.event.body == TaskRetryScheduled(op.run, op.nextAttemptAt, u.lastError.value)
          && m.graph.outbox == g.outbox)
    && (!again ==>
          && u == t.(status := Failed, lease := None, terminalAt := Some(op.now),
                     attempts := u.attempts, lastError := u.lastError)
          && m.event.body == TaskFailed(op.run, u.lastError.value)
          && AnnouncesOnly(g, m, t.id, ReportFailed(false, RanAs(op.run), u.lastError.value)))
  }

  /** The task is killed, under the code of the reason it was asked to stop for; nothing is announced. */
  ghost predicate AbortOutcome(g: Graph, op: Op, m: Mutation, k: nat)
    requires op.Abort? && k < |g.tasks| && |m.graph.tasks| == |g.tasks|
  {
    var t, u := g.tasks[k], m.graph.tasks[k];
    var bySession := t.cancellation.Some? && t.cancellation.value.reason == SessionAbort;
    var error := ContractError(if bySession then SessionAborted else Cancelled, false, t.id, op.now);
    && Becomes(g, m.graph, k, u) && SameRest(g, m.graph) && m.graph.outbox == g.outbox
    && RunOver(t, u, Aborted(op.now, error))
    && u == t.(status := Killed, lease := None, terminalAt := Some(op.now), attempts := u.attempts,
               lastError := Some(error))
    && m.event.body == TaskKilled(op.run, error)
  }

  /** The artifacts handed over, numbered from 1, under the run. */
  ghost predicate Produces(refs: seq<Id>, run: RunIdentity, freshness: Freshness, outputs: seq<Output>) {
    && |outputs| == |refs|
    && forall i | 0 <= i < |refs| ::
         && outputs[i].artifactRef == refs[i] && outputs[i].ordinal == i + 1
         && outputs[i].attempt == run.attempt && outputs[i].leaseId == run.leaseId
         && outputs[i].freshness == freshness
  }

  /** Stale exactly when the clock has moved past the action the task was bound to. */
  ghost predicate Fresh(binding: ActionBinding, clock: nat, freshness: Freshness) {
    if binding.NotActionBound? then freshness == NotApplicable
    else freshness == Assessed(binding.sourceActionSeq, clock, binding.sourceActionSeq < clock)
  }

  ghost predicate IsDone(tasks: seq<Task>, id: Id) {
    exists i :: 0 <= i < |tasks| && tasks[i].id == id && tasks[i].status == Completed
  }

  /** `left` lists those of the identifiers whose tasks are not completed, in the same order. */
  ghost predicate LeftOver(tasks: seq<Task>, ids: seq<Id>, left: seq<Id>) {
    if ids == [] then left == []
    else if IsDone(tasks, ids[0]) then LeftOver(tasks, ids[1..], left)
    else left != [] && left[0] == ids[0] && LeftOver(tasks, ids[1..], left[1..])
  }

  /** The other tasks after a success: those that waited for dependencies wait for what is left of them. */
  ghost predicate Refreshed(t: Task, u: Task, tasks: seq<Task>) {
    if t.status == Blocked && t.blockReason.Some? && t.blockReason.value.DependencyWait? then
      if forall b | b in t.blockedBy :: IsDone(tasks, b) then u == t.(status := Pending, blockReason := None)
      else
        && u.blockReason.Some? && u.blockReason.value.DependencyWait? && u == t.(blockReason := u.blockReason)
        && LeftOver(tasks, t.blockedBy, u.blockReason.value.unresolvedTaskIds)
    else u == t
  }

  ghost predicate SuccessOutcome(g: Graph, op: Op, m: Mutation, k: nat)
    requires op.Succeed? && k < |g.tasks| && |m.graph.tasks| == |g.tasks|
  {
    var t, u := g.tasks[k], m.graph.tasks[k];
    && SameRest(g, m.graph) && m.event.body.TaskCompleted?
    && (forall j | 0 <= j < |g.tasks| && j != k :: Refreshed(g.tasks[j], m.graph.tasks[j], m.graph.tasks))
    && m.event.body == TaskCompleted(op.run, op.outputRefs, m.event.body.freshness)
    && Fresh(t.actionBinding, g.actionSeq, m.event.body.freshness)
    && RunOver(t, u, AttemptState.Succeeded(op.now))
    && Produces(op.outputRefs, op.run, m.event.body.freshness, u.outputs)
    && u == t.(status := Completed, lease := None, terminalAt := Some(op.now), attempts := u.attempts,
               outputs := u.outputs)
    && AnnouncesOnly(g, m, t.id, ReportCompleted(op.run, op.outputRefs, m.event.body.freshness))
  }

  // ---------------------------------------------------------------- lost leases

  /** The locks the task still held, in the order of the graph. */
  ghost predicate HeldBy(locks: seq<Lock>, taskId: Id, ids: seq<Id>) {
    if locks == [] then ids == []
    else if locks[0].ownerTaskId == taskId && locks[0].releasedAt.None? then
      ids != [] && ids[0] == locks[0].id && HeldBy(locks[1..], taskId, ids[1..])
    else HeldBy(locks[1..], taskId, ids)
  }

  ghost predicate LocksReleased(before: seq<Lock>, after: seq<Lock>, taskId: Id, now: Time) {
    && |after| == |before|
    && forall i | 0 <= i < |before| ::
         after[i] == if before[i].ownerTaskId == taskId && before[i].releasedAt.None?
                     then Lock(before[i].id, taskId, Some(now)) else before[i]
  }

  /** Only work without browser writes and with an attempt left is tried again. */
  ghost predicate Requeued(t: Task) {
    t.kind != MainBrowserStep && t.attempt < t.maxAttempts
  }

  /** What becomes of the task whose lease ran out. */
  ghost predicate RecoveredAs(t: Task, u: Task, at: Time) {
    && u.lastError.Some? && RunOver(t, u, Expired(at, u.lastError.value))
    && if Requeued(t) then
         && u.lastError.value == ContractError(LeaseExpired, true, t.id, at)
         && u == t.(status := Pending, lease := None, attempts := u.attempts, lastError := u.lastError)
       else
         && u.lastError.value
            == ContractError(if t.kind == MainBrowserStep then PolicyViolation else MaxAttemptsExceeded, false, t.id,
                             at)
         && u == t.(status := Failed, lease := None, terminalAt := Some(at), attempts := u.attempts,
                    lastError := u.lastError)
  }

  /** The disposition follows from kind and attempts alone. */
  ghost predicate DisposedAs(t: Task, u: Task, decision: RecoveryDecision) {
    && (decision.disposition == RequeueReadOnly <==> t.kind != MainBrowserStep && t.attempt < t.maxAttempts)
    && (decision.disposition == FailBrowserWrite <==> t.kind == MainBrowserStep)
    && decision.error == (if Requeued(t) then None else u.lastError)
  }

  /** A failure is announced, a retry is not. */
  ghost predicate RecoveryAnnounced(t: Task, e: Event, added: seq<OutboxEntry>)
    requires e.body.TaskLeaseExpired?
  {
    if Requeued(t) then added == []
    else
      && |added| == 1 && e.body.recovery.error.Some?
      && Announcement(added[0], e, t.id, ReportFailed(false, RanAs(e.body.run), e.body.recovery.error.value))
  }

  ghost predicate RecoveryOutcome(g: Graph, op: Op, m: Mutation, k: nat)
    requires op.ExpireLease? && k < |g.tasks| && |m.graph.tasks| == |g.tasks|
  {
    var t, u := g.tasks[k], m.graph.tasks[k];
    && Becomes(g, m.graph, k, u) && m.graph.actionSeq == g.actionSeq
    && LocksReleased(g.locks, m.graph.locks, t.id, op.now)
    && m.graph.activeBrowserTask == (if g.activeBrowserTask == Some(t.id) then None else g.activeBrowserTask)
    && m.event.body.TaskLeaseExpired? && m.event.body.run == op.run
    && HeldBy(g.locks, t.id, m.event.body.recovery.releasedLockIds)
    && RecoveredAs(t, u, op.now) && DisposedAs(t, u, m.event.body.recovery)
    && g.outbox <= m.graph.outbox && RecoveryAnnounced(t, m.event, m.graph.outbox[|g.outbox|..])
  }

  // ---------------------------------------------------------------- the other transactions

  ghost predicate ProgressOutcome(g: Graph, op: Op, m: Mutation)
    requires op.Progress?
  {
    && m.graph.tasks == g.tasks && SameRest(g, m.graph) && m.graph.outbox == g.outbox
    && m.event.body == TaskProgressed(op.run, op.progressSeq)
  }

  ghost predicate CancelOutcome(g: Graph, op: Op, m: Mutation, k: nat)
    requires op.CancelQueued? && k < |g.tasks| && |m.graph.tasks| == |g.tasks|
  {
    var t := g.tasks[k];
    var error := ContractError(if op.reason == SessionAbort then SessionAborted else Cancelled, false, t.id, op.now);
    && SameRest(g, m.graph)
    && Becomes(g, m.graph, k,
               t.(status := Killed, terminalAt := Some(op.now), lastError := Some(error),
                  cancellation := Some(Cancellation(op.requestId, op.now, op.reason))))
    && m.event.body == TaskCancelledBeforeRun(t.id, op.requestId, op.reason)
    && AnnouncesOnly(g, m, t.id, ReportFailed(true, BeforeRun(op.requestId), error))
  }

  ghost predicate RequestOutcome(g: Graph, op: Op, m: Mutation, k: nat)
    requires op.RequestCancel? && k < |g.tasks|
  {
    var t, wish := g.tasks[k], Cancellation(op.requestId, op.now, op.reason);
    && SameRest(g, m.graph) && m.graph.outbox == g.outbox
    && Becomes(g, m.graph, k, t.(cancellation := Some(wish)))
    && m.event.body.TaskCancelRequested? && RunsAs(t, m.event.body.run) && m.event.body.cancellation == wish
  }

  ghost predicate ReceiptOutcome(g: Graph, op: Op, m: Mutation)
    requires op.Acknowledge?
  {
    && m.graph.tasks == g.tasks && SameRest(g, m.graph) && |m.graph.outbox| == |g.outbox|
    && exists k :: 0 <= k < |g.outbox| && Receives(g, op, m, k)
  }

  /** Entry `k`, still pending, gets the receipt. */
  ghost predicate Receives(g: Graph, op: Op, m: Mutation, k: nat)
    requires op.Acknowledge?
  {
    && k < |g.outbox| && g.outbox[k].receipt.None?
    && g.outbox[k].notification.notificationId == op.receipt.notificationId
    && m.graph.outbox == g.outbox[k := g.outbox[k].(receipt := Some(op.receipt))]
    && m.event.body == TaskNotificationAcknowledged(g.outbox[k].notification.taskId, op.receipt)
  }

  ghost predicate ClockOutcome(g: Graph, op: Op, m: Mutation)
    requires op.AdvanceClock?
  {
    && m.graph == g.(revision := g.revision + 1, nextEventSeq := g.nextEventSeq + 1, actionSeq := g.actionSeq + 1)
    && m.event.body == BrowserActionAdvanced(op.actionId, g.actionSeq, g.actionSeq + 1, op.source)
  }

  /** The given identifiers without the task's own, each once, in the order in which they first appear. */
  ghost predicate Links(given: seq<Id>, self: Id, links: seq<Id>) {
    && (forall b :: b in links <==> b in given && b != self)
    && forall i, j | 0 <= i < j < |links| :: FirstBefore(given, links[i], links[j])
  }

  ghost predicate FirstBefore(given: seq<Id>, x: Id, y: Id) {
    exists k :: 0 <= k < |given| && given[k] == x && y !in given[..k] && x != y
  }

  /** A new task as it was asked for, blocked if it names blockers. */
  ghost predicate Created(input: TaskInput, now: Time, t: Task) {
    && Links(input.blockedBy, input.id, t.blockedBy) && Links(input.blocks, input.id, t.blocks)
    && t == Task(input.id, input.priority, input.kind, t.blockedBy, t.blocks, input.idempotencyKey, input.inputDigest,
                 input.actionBinding, input.policy, if t.blockedBy == [] then Pending else Blocked,
                 0, input.maxAttempts, input.leaseDuration, now, None, None,
                 if t.blockedBy == [] then None else Some(DependencyWait(t.blockedBy)), None, None, [], [], None)
  }

  /** The other tasks after a spawn: the new identifier is appended to the lists of those the new task names. */
  ghost predicate Linked(s: Task, u: Task, t: Task) {
    && u == s.(blocks := u.blocks, blockedBy := u.blockedBy)
    && u.blocks == s.blocks + (if s.id in t.blockedBy then [t.id] else [])
    && u.blockedBy == s.blockedBy + (if s.id in t.blocks then [t.id] else [])
  }

  ghost predicate SpawnOutcome(g: Graph, op: Op, m: Mutation)
    requires op.Spawn?
  {
    && SameRest(g, m.graph) && m.graph.outbox == g.outbox && |m.graph.tasks| == |g.tasks| + 1
    && var t := m.graph.tasks[|g.tasks|];
       && Created(op.input, op.now, t)
       && (forall i | 0 <= i < |g.tasks| :: Linked(g.tasks[i], m.graph.tasks[i], t))
       && m.event.body == TaskCreated(op.input.id, op.input.idempotencyKey, op.input.inputDigest)
  }

  // ---------------------------------------------------------------- every commit has its outcome

  lemma CommitReduces(limits: Limits, g: Graph, op: Op)
    requires LinkedGraph(g.tasks) && Commit(limits, g, op).Ok?
    ensures Reduce(limits, g, op) == Commit(limits, g, op)
  {
    CommitCondition(limits, g, op);
  }

  lemma RunIsStamped(g: Graph, op: Op)
    ensures op.Progress? && ReduceProgress(g, op).Ok? ==> Stamped(g, op, ReduceProgress(g, op).value)
    ensures op.Abort? && ReduceAbort(g, op).Ok? ==> Stamped(g, op, ReduceAbort(g, op).value)
    ensures op.Fail? && ReduceFail(g, op).Ok? ==> Stamped(g, op, ReduceFail(g, op).value)
  {
  }

  lemma SuccessIsStamped(g: Graph, op: Op)
    ensures op.Succeed? && ReduceSucceed(g, op).Ok? ==> Stamped(g, op, ReduceSucceed(g, op).value)
    ensures op.ExpireLease? && ReduceExpire(g, op).Ok? ==> Stamped(g, op, ReduceExpire(g, op).value)
  {
  }

  lemma CommitIsStamped(limits: Limits, g: Graph, op: Op)
    requires Reduce(limits, g, op).Ok?
    ensures Stamped(g, op, Reduce(limits, g, op).value)
  {
    RunIsStamped(g, op);
    SuccessIsStamped(g, op);
  }

  lemma Replaced(g: Graph, k: nat, u: Task)
    requires UniqueIds(g.tasks) && k < |g.tasks| && u.id == g.tasks[k].id
    ensures Find(g.tasks, u.id) == Some(g.tasks[k]) && Replace(g.tasks, u) == g.tasks[k := u]
  {
    FindIsUnique(g.tasks, k);
    ReplaceAt(g.tasks, k, u);
  }

  lemma ClaimHasOutcome(limits: Limits, g: Graph, op: Op, k: nat)
    requires UniqueIds(g.tasks) && op.Claim? && k < |g.tasks| && op.taskId == g.tasks[k].id
    requires ReduceClaim(limits, g, op).Ok?
    ensures
      var m := ReduceClaim(limits, g, op).value;
      |m.graph.tasks| == |g.tasks| && ClaimOutcome(g, op, m, k)
  {
    Replaced(g, k, ClaimedTask(g, g.tasks[k], op.schedulerId, op.leaseId, op.now));
  }

  lemma IsMapped(e: RunnerError, taskId: Id, now: Time)
    ensures Mapped(e, MapRunnerError(e, taskId, now), taskId, now)
  {
  }

  lemma LeavesRun(t: Task, run: RunIdentity, status: Status, at: Option<Time>, state: AttemptState, u: Task)
    requires TaskInv(t) && RunsAs(t, run) && state != InProgress
    requires u.lease.None? && u.attempts == Leave(t, run, status, at, state).attempts
    ensures RunOver(t, u, state)
  {
    LeavingClosesLast(t, run, status, at, state);
  }

  lemma FailHasOutcome(g: Graph, op: Op, k: nat)
    requires UniqueIds(g.tasks) && op.Fail? && k < |g.tasks| && op.run.taskId == g.tasks[k].id && TaskInv(g.tasks[k])
    requires ReduceFail(g, op).Ok?
    ensures
      var m := ReduceFail(g, op).value;
      |m.graph.tasks| == |g.tasks| && FailOutcome(g, op, m, k)
  {
    var t := g.tasks[k];
    var error := MapRunnerError(op.error, t.id, op.now);
    FindIsUnique(g.tasks, k);
    IsMapped(op.error, t.id, op.now);
    if op.error.retrySameTask && t.attempt < t.maxAttempts {
      var u := RetriedTask(t, op.run, error, op.now, op.nextAttemptAt);
      Replaced(g, k, u);
      LeavesRun(t, op.run, Pending, t.terminalAt, AttemptFailed(op.now, error), u);
    } else {
      var u := FailedTask(t, op.run, error, op.now);
      Replaced(g, k, u);
      LeavesRun(t, op.run, Failed, Some(op.now), AttemptFailed(op.now, error), u);
    }
  }

  lemma AbortHasOutcome(g: Graph, op: Op, k: nat)
    requires UniqueIds(g.tasks) && op.Abort? && k < |g.tasks| && op.run.taskId == g.tasks[k].id && TaskInv(g.tasks[k])
    requires ReduceAbort(g, op).Ok?
    ensures
      var m := ReduceAbort(g, op).value;
      |m.graph.tasks| == |g.tasks| && AbortOutcome(g, op, m, k)
  {
    var t := g.tasks[k];
    var error := CancelError(t.cancellation.Some? && t.cancellation.value.reason == SessionAbort, t.id, op.now);
    var u := AbortedTask(t, op.run, error, op.now);
    Replaced(g, k, u);
    LeavesRun(t, op.run, Killed, Some(op.now), Aborted(op.now, error), u);
  }

  lemma {:induction false} ActiveAreHeld(locks: seq<Lock>, taskId: Id)
    ensures HeldBy(locks, taskId, ActiveLocks(locks, taskId))
  {
    if locks != [] {
      ActiveAreHeld(locks[1..], taskId);
    }
  }

  lemma RecoveryHasOutcome(g: Graph, op: Op, k: nat)
    requires UniqueIds(g.tasks) && op.ExpireLease? && k < |g.tasks| && op.run.taskId == g.tasks[k].id
    requires TaskInv(g.tasks[k])
    requires ReduceExpire(g, op).Ok?
    ensures
      var m := ReduceExpire(g, op).value;
      |m.graph.tasks| == |g.tasks| && RecoveryOutcome(g, op, m, k)
  {
    var t := g.tasks[k];
    var error, fails := RecoveryError(t, op.now), DispositionOf(t) != RequeueReadOnly;
    var u := RecoveredTask(t, op.run, fails, error, op.now);
    Replaced(g, k, u);
    LeavesRun(t, op.run, if fails then Failed else Pending, if fails then Some(op.now) else t.terminalAt,
              Expired(op.now, error), u);
    ActiveAreHeld(g.locks, t.id);
  }

  lemma ProgressHasOutcome(g: Graph, op: Op)
    requires UniqueIds(g.tasks) && op.Progress? && ReduceProgress(g, op).Ok?
    ensures ProgressOutcome(g, op, ReduceProgress(g, op).value)
  {
    var k := IndexOf(g.tasks, op.run.taskId);
    Replaced(g, k, g.tasks[k]);
  }

  lemma CancelHasOutcome(g: Graph, op: Op, k: nat)
    requires UniqueIds(g.tasks) && op.CancelQueued? && k < |g.tasks| && op.taskId == g.tasks[k].id
    requires ReduceCancelQueued(g, op).Ok?
    ensures
      var m := ReduceCancelQueued(g, op).value;
      |m.graph.tasks| == |g.tasks| && CancelOutcome(g, op, m, k)
  {
    var t := g.tasks[k];
    var error := CancelError(op.reason == SessionAbort, t.id, op.now);
    Replaced(g, k, CancelledTask(t, Cancellation(op.requestId, op.now, op.reason), error, op.now));
  }

  lemma RequestHasOutcome(g: Graph, op: Op, k: nat)
    requires UniqueIds(g.tasks) && op.RequestCancel? && k < |g.tasks| && op.taskId == g.tasks[k].id
    requires ReduceRequestCancel(g, op).Ok?
    ensures RequestOutcome(g, op, ReduceRequestCancel(g, op).value, k)
  {
    Replaced(g, k, g.tasks[k].(cancellation := Some(Cancellation(op.requestId, op.now, op.reason))));
  }

  lemma ReceiptHasOutcome(g: Graph, op: Op)
    requires op.Acknowledge? && ReduceAcknowledge(g, op).Ok?
    requires forall j, k | 0 <= j < k < |g.outbox| ::
               g.outbox[j].notification.notificationId != g.outbox[k].notification.notificationId
    ensures ReceiptOutcome(g, op, ReduceAcknowledge(g, op).value)
  {
    var entry := FindEntry(g.outbox, op.receipt.notificationId).value;
    var k :| 0 <= k < |g.outbox| && g.outbox[k] == entry;
    assert Receipted(g.outbox, op.receipt) == g.outbox[k := entry.(receipt := Some(op.receipt))];
    assert Receives(g, op, ReduceAcknowledge(g, op).value, k);
  }

  lemma ClockHasOutcome(g: Graph, op: Op)
    requires op.AdvanceClock?
    ensures ReduceAdvance(g, op).Ok? && ClockOutcome(g, op, ReduceAdvance(g, op).value)
  {
  }

  lemma {:induction false} ListedInOrder(given: seq<Id>, self: Id)
    ensures Links(given, self, UniqueList(given, Some(self)))
  {
    if given != [] {
      var n := |given| - 1;
      ListedInOrder(given[..n], self);
      var front, links := UniqueList(given[..n], Some(self)), UniqueList(given, Some(self));
      forall i, j | 0 <= i < j < |links|
        ensures FirstBefore(given, links[i], links[j])
      {
        assert links[i] in front;
        if j < |front| {
          EarlierStays(given, links[i], links[j]);
        } else {
          var k :| 0 <= k < n && given[..n][k] == links[i];
          assert given[k] == links[i] && links[j] !in given[..k];
        }
      }
    }
  }

  lemma EarlierStays(given: seq<Id>, x: Id, y: Id)
    requires given != [] && FirstBefore(given[..|given| - 1], x, y)
    ensures FirstBefore(given, x, y)
  {
    var front := given[..|given| - 1];
    var k :| 0 <= k < |front| && front[k] == x && y !in front[..k] && x != y;
    assert front[..k] == given[..k];
  }

  lemma IsCreated(input: TaskInput, now: Time)
    ensures Created(input, now, CreateTask(input, now))
  {
    ListedInOrder(input.blockedBy, input.id);
    ListedInOrder(input.blocks, input.id);
  }

  lemma SpawnHasOutcome(limits: Limits, g: Graph, op: Op)
    requires LinkedGraph(g.tasks) && op.Spawn? && ReduceSpawn(limits, g, op).Ok?
    ensures SpawnOutcome(g, op, ReduceSpawn(limits, g, op).value)
  {
    IsCreated(op.input, op.now);
    SpawnAdds(limits, g, op);
    AdditionShape(g.tasks, CreateTask(op.input, op.now));
  }

  // A success also refreshes the tasks that wait.

  lemma DoneIsCompleted(tasks: seq<Task>, id: Id)
    requires UniqueIds(tasks)
    ensures IsDone(tasks, id) <==> CompletedIn(tasks, id)
  {
    if i :| 0 <= i < |tasks| && tasks[i].id == id && tasks[i].status == Completed {
      FindIsUnique(tasks, i);
    }
  }

  lemma {:induction false} UnresolvedAreLeft(tasks: seq<Task>, ids: seq<Id>)
    requires UniqueIds(tasks)
    ensures LeftOver(tasks, ids, Unresolved(tasks, ids))
  {
    if ids != [] {
      DoneIsCompleted(tasks, ids[0]);
      UnresolvedAreLeft(tasks, ids[1..]);
    }
  }

  lemma {:induction false} SameLeft(xs: seq<Task>, ys: seq<Task>, ids: seq<Id>)
    requires UniqueIds(xs) && UniqueIds(ys) && forall id | id in ids :: CompletedIn(xs, id) <==> CompletedIn(ys, id)
    ensures Unresolved(xs, ids) == Unresolved(ys, ids)
  {
    if ids != [] {
      SameLeft(xs, ys, ids[1..]);
    }
  }

  lemma NothingLeft(tasks: seq<Task>, ids: seq<Id>)
    requires UniqueIds(tasks)
    ensures Unresolved(tasks, ids) == [] <==> forall b | b in ids :: IsDone(tasks, b)
  {
    forall b | b in ids
      ensures b in Unresolved(tasks, ids) <==> !IsDone(tasks, b)
    {
      DoneIsCompleted(tasks, b);
    }
    if Unresolved(tasks, ids) != [] { assert Unresolved(tasks, ids)[0] in Unresolved(tasks, ids); }
  }

  lemma IsRefreshed(tasks: seq<Task>, done: seq<Task>, t: Task, left: seq<Id>)
    requires left == Unresolved(tasks, t.blockedBy) && LeftOver(done, t.blockedBy, left)
    requires left == [] <==> forall b | b in t.blockedBy :: IsDone(done, b)
    ensures Refreshed(t, RefreshTask(tasks, t), done)
  {
  }

  lemma RefreshesTask(tasks: seq<Task>, j: nat)
    requires UniqueIds(tasks) && j < |tasks|
    ensures Refreshed(tasks[j], Refresh(tasks)[j], Refresh(tasks))
  {
    var t, done := tasks[j], Refresh(tasks);
    SameIds(tasks, done);
    forall b | b in t.blockedBy
      ensures CompletedIn(tasks, b) <==> CompletedIn(done, b)
    {
      RefreshedStatus(tasks, b);
    }
    SameLeft(tasks, done, t.blockedBy);
    UnresolvedAreLeft(done, t.blockedBy);
    NothingLeft(done, t.blockedBy);
    IsRefreshed(tasks, done, t, Unresolved(tasks, t.blockedBy));
  }

  lemma OthersRefresh(tasks: seq<Task>, done: seq<Task>, k: nat)
    requires UniqueIds(tasks) && k < |tasks| == |done| && done == tasks[k := done[k]] && done[k].id == tasks[k].id
    ensures forall j | 0 <= j < |tasks| && j != k :: Refreshed(tasks[j], Refresh(done)[j], Refresh(done))
  {
    forall j | 0 <= j < |tasks| && j != k
      ensures Refreshed(tasks[j], Refresh(done)[j], Refresh(done))
    {
      assert done[j] == tasks[j];
      RefreshesTask(done, j);
    }
  }

  lemma RunSucceeds(t: Task, op: Op, clock: nat, freshness: Freshness, u: Task)
    requires op.Succeed? && TaskInv(t) && RunsAs(t, op.run) && AssessFreshness(t.actionBinding, clock) == Ok(freshness)
    requires u == CompletedTask(t, op.run, op.outputRefs, freshness, op.now)
    ensures Fresh(t.actionBinding, clock, freshness)
    ensures RunOver(t, u, AttemptState.Succeeded(op.now)) && Produces(op.outputRefs, op.run, freshness, u.outputs)
    ensures u == t.(status := Completed, lease := None, terminalAt := Some(op.now), attempts := u.attempts,
                    outputs := u.outputs)
  {
    LeavesRun(t, op.run, Completed, Some(op.now), AttemptState.Succeeded(op.now), u);
    CompletedArtifactsOf(t, op.run, op.outputRefs, freshness, op.now);
  }

  lemma SuccessHasOutcome(g: Graph, op: Op, k: nat)
    requires UniqueIds(g.tasks) && op.Succeed? && k < |g.tasks| && op.run.taskId == g.tasks[k].id && TaskInv(g.tasks[k])
    requires ReduceSucceed(g, op).Ok?
    ensures
      var m := ReduceSucceed(g, op).value;
      |m.graph.tasks| == |g.tasks| && SuccessOutcome(g, op, m, k)
  {
    var t := g.tasks[k];
    FindIsUnique(g.tasks, k);
    var freshness := AssessFreshness(t.actionBinding, g.actionSeq).value;
    var u := CompletedTask(t, op.run, op.outputRefs, freshness, op.now);
    Replaced(g, k, u);
    RunSucceeds(t, op, g.actionSeq, freshness, u);
    OthersRefresh(g.tasks, g.tasks[k := u], k);
  }

  lemma CompletedArtifactsOf(t: Task, run: RunIdentity, refs: OutputRefs, freshness: Freshness, now: Time)
    requires TaskInv(t) && t.status == Running
    ensures Produces(refs, run, freshness, CompletedTask(t, run, refs, freshness, now).outputs)
  {
    assert t.outputs == [];
    assert [] + OutputsFor(refs, run, freshness) == OutputsFor(refs, run, freshness);
  }

  /** The task that the transaction is about, when it is about one that exists already. */
  function TaskNamed(op: Op): Option<Id> {
    match op
    case Claim(id, _, _, _, _, _, _, _) => Some(id)
    case CancelQueued(id, _, _, _, _) => Some(id)
    case RequestCancel(id, _, _, _, _) => Some(id)
    case Spawn(_, _, _) => None
    case Acknowledge(_, _) => None
    case AdvanceClock(_, _, _, _) => None
    case _ => Some(op.run.taskId)
  }

  /** The effect of the transaction; `k` is the position of the task it names. */
  ghost predicate Outcome(g: Graph, op: Op, m: Mutation, k: nat) {
    && Stamped(g, op, m)
    && (TaskNamed(op).Some? ==> k < |g.tasks| && g.tasks[k].id == TaskNamed(op).value && |m.graph.tasks| == |g.tasks|)
    && match op
       case Spawn(_, _, _) => SpawnOutcome(g, op, m)
       case Claim(_, _, _, _, _, _, _, _) => ClaimOutcome(g, op, m, k)
       case Progress(_, _, _, _) => ProgressOutcome(g, op, m)
       case Succeed(_, _, _, _) => SuccessOutcome(g, op, m, k)
       case Fail(_, _, _, _, _) => FailOutcome(g, op, m, k)
       case Abort(_, _, _) => AbortOutcome(g, op, m, k)
       case ExpireLease(_, _, _) => RecoveryOutcome(g, op, m, k)
       case CancelQueued(_, _, _, _, _) => CancelOutcome(g, op, m, k)
       case RequestCancel(_, _, _, _, _) => RequestOutcome(g, op, m, k)
       case Acknowledge(_, _) => ReceiptOutcome(g, op, m)
       case AdvanceClock(_, _, _, _) => ClockOutcome(g, op, m)
  }

  lemma NamedTaskExists(limits: Limits, g: Graph, op: Op) returns (k: nat)
    requires UniqueIds(g.tasks) && Reduce(limits, g, op).Ok?
    ensures TaskNamed(op).Some? ==> k < |g.tasks| && g.tasks[k].id == TaskNamed(op).value
  {
    k := 0;
    if TaskNamed(op).Some? {
      assert Find(g.tasks, TaskNamed(op).value).Some?;
      k := IndexOf(g.tasks, TaskNamed(op).value);
    }
  }

  /** Every transaction that commits has its outcome. */
  lemma CommitHasOutcome(limits: Limits, g: Graph, used: set<Id>, op: Op) returns (k: nat)
    requires GraphInv(g, used) && LinkedGraph(g.tasks) && Commit(limits, g, op).Ok?
    ensures Outcome(g, op, Commit(limits, g, op).value, k)
  {
    CommitReduces(limits, g, op);
    CommitIsStamped(limits, g, op);
    k := NamedTaskExists(limits, g, op);
    ReduceHasOutcome(limits, g, used, op, k);
  }

  lemma ReduceHasOutcome(limits: Limits, g: Graph, used: set<Id>, op: Op, k: nat)
    requires GraphInv(g, used) && LinkedGraph(g.tasks) && Reduce(limits, g, op).Ok?
    requires Stamped(g, op, Reduce(limits, g, op).value)
    requires TaskNamed(op).Some? ==> k < |g.tasks| && g.tasks[k].id == TaskNamed(op).value
    ensures Outcome(g, op, Reduce(limits, g, op).value, k)
  {
    match op
    case Spawn(_, _, _) => SpawnHasOutcome(limits, g, op);
    case Claim(_, _, _, _, _, _, _, _) => ClaimHasOutcome(limits, g, op, k);
    case Progress(_, _, _, _) => ProgressHasOutcome(g, op);
    case Succeed(_, _, _, _) => SuccessHasOutcome(g, op, k);
    case Fail(_, _, _, _, _) => FailHasOutcome(g, op, k);
    case Abort(_, _, _) => AbortHasOutcome(g, op, k);
    case ExpireLease(_, _, _) => RecoveryHasOutcome(g, op, k);
    case CancelQueued(_, _, _, _, _) => CancelHasOutcome(g, op, k);
    case RequestCancel(_, _, _, _, _) => RequestHasOutcome(g, op, k);
    case Acknowledge(_, _) =>
      EntriesDiffer(g, used);
      ReceiptHasOutcome(g, op);
    case AdvanceClock(_, _, _, _) => ClockHasOutcome(g, op);
  }

  lemma EntriesDiffer(g: Graph, used: set<Id>)
    requires GraphInv(g, used)
    ensures forall j, k | 0 <= j < k < |g.outbox| ::
              g.outbox[j].notification.notificationId != g.outbox[k].notification.notificationId
  {
    forall j, k | 0 <= j < k < |g.outbox|
      ensures g.outbox[j].notification.notificationId != g.outbox[k].notification.notificationId
    {
      assert EntryInv(g.outbox[j], used) && EntryInv(g.outbox[k], used);
    }
  }

  // ---------------------------------------------------------------- leases in reachable sessions

  /** A lease lasts for the task's own duration from its claim, and is the one that the claim put into the log. */
  ghost predicate LeaseOnRecord(t: Task, log: seq<Event>) {
    t.lease.Some? ==>
      var lease := t.lease.value;
      && lease.expiresAt == lease.acquiredAt + t.leaseDuration && lease.attempt == t.attempt
      && t.attempts != [] && t.attempts[|t.attempts| - 1].startedAt == lease.acquiredAt
      && 1 <= lease.claimedAtGraphRevision <= |log|
      && log[lease.claimedAtGraphRevision - 1].occurredAt == lease.acquiredAt
      && log[lease.claimedAtGraphRevision - 1].body == TaskClaimed(IdentityOf(t), lease)
  }

  ghost predicate LeasesOnRecord(s: System) {
    forall i | 0 <= i < |s.graph.tasks| :: LeaseOnRecord(s.graph.tasks[i], s.log)
  }

  /** As far as its run goes the task is as before, or it has none. */
  ghost predicate SameRun(t: Task, u: Task) {
    || u.lease.None?
    || (u.lease == t.lease && u.id == t.id && u.attempt == t.attempt && u.leaseDuration == t.leaseDuration
        && u.attempts == t.attempts)
  }

  /** Only a claim gives a run to a task. */
  lemma OnlyClaimsGrant(g: Graph, op: Op, m: Mutation, k: nat, i: nat)
    requires Outcome(g, op, m, k) && i < |m.graph.tasks| && !(op.Claim? && i == k)
    ensures if i < |g.tasks| then SameRun(g.tasks[i], m.graph.tasks[i]) else m.graph.tasks[i].lease.None?
  {
    match op
    case Spawn(_, _, _) =>
      if i < |g.tasks| { assert Linked(g.tasks[i], m.graph.tasks[i], m.graph.tasks[|g.tasks|]); }
    case Succeed(_, _, _, _) =>
      if i != k { assert Refreshed(g.tasks[i], m.graph.tasks[i], m.graph.tasks); }
    case _ =>
  }

  lemma SameRunOnRecord(t: Task, u: Task, log: seq<Event>, e: Event)
    requires LeaseOnRecord(t, log) && SameRun(t, u)
    ensures LeaseOnRecord(u, log + [e])
  {
  }

  lemma ClaimOnRecord(g: Graph, op: Op, m: Mutation, k: nat, log: seq<Event>)
    requires op.Claim? && Outcome(g, op, m, k) && g.revision == |log|
    ensures LeaseOnRecord(m.graph.tasks[k], log + [m.event])
  {
    assert (log + [m.event])[|log|] == m.event;
  }

  lemma NextOnRecord(limits: Limits, start: View, s: System, op: Op)
    requires SystemInv(limits, start, s) && LeasesOnRecord(s)
    ensures LeasesOnRecord(Next(limits, s, op))
  {
    if Accepted(limits, s, op) {
      var m := Commit(limits, s.graph, op).value;
      var k := CommitHasOutcome(limits, s.graph, s.used, op);
      StepOnRecord(s.graph, op, m, k, s.log);
    }
  }

  lemma StepOnRecord(g: Graph, op: Op, m: Mutation, k: nat, log: seq<Event>)
    requires Outcome(g, op, m, k) && g.revision == |log|
    requires forall i | 0 <= i < |g.tasks| :: LeaseOnRecord(g.tasks[i], log)
    ensures forall i | 0 <= i < |m.graph.tasks| :: LeaseOnRecord(m.graph.tasks[i], log + [m.event])
  {
    forall i | 0 <= i < |m.graph.tasks|
      ensures LeaseOnRecord(m.graph.tasks[i], log + [m.event])
    {
      if op.Claim? && i == k {
        ClaimOnRecord(g, op, m, k, log);
      } else {
        OnlyClaimsGrant(g, op, m, k, i);
        if i < |g.tasks| { SameRunOnRecord(g.tasks[i], m.graph.tasks[i], log, m.event); }
      }
    }
  }

  lemma {:induction false} RunOnRecord(limits: Limits, identity: GraphIdentity, clock: nat, ops: seq<Op>)
    requires Plausible(limits, Start(identity, clock), ops)
    ensures LeasesOnRecord(After(limits, Start(identity, clock), ops))
  {
    if ops != [] {
      var front := ops[..|ops| - 1];
      RunOnRecord(limits, identity, clock, front);
      RunKeepsInv(limits, identity, clock, front);
      NextOnRecord(limits, StartView(identity, clock), After(limits, Start(identity, clock), front), ops[|ops| - 1]);
    }
  }

  /** In every reachable session each lease lasts for the task's own duration, and is that of the claim in the log. */
  lemma LeasesAreOnRecord(limits: Limits, identity: GraphIdentity, clock: nat, s: System)
    requires Reachable(limits, identity, clock, s)
    ensures LeasesOnRecord(s)
  {
    var ops :| Plausible(limits, Start(identity, clock), ops) && After(limits, Start(identity, clock), ops) == s;
    RunOnRecord(limits, identity, clock, ops);
  }
}
