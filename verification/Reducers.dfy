/**
 The reducers that the control plane passes to `store.transact`
 (packages/web-buddy/src/agents/task-scheduler.ts:118-196, 211-330, 374-591,
 packages/web-buddy/src/agents/async-task-runtime.ts:388-399, 458-511, 970-1003) and the
 store's own fence on their results (packages/web-buddy/src/agents/task-graph-store.ts:153-227).
 A reducer that throws is an `Err`. Clock readings, fresh UUIDs and the retry instant
 (`now` plus the retry delay) are parameters.
 */
module Reducers {
  import opened Wrappers
  import opened Contracts
  import opened TaskGraph

  datatype Limits = Limits(maxReadOnly: nat, maxDeterministic: nat, maxQueued: nat)

  /** One call of `transact`, with everything its reducer closes over. */
  datatype Op =
    | Spawn(input: TaskInput, eventId: Id, now: Time)
    | Claim(taskId: Id, schedulerId: Id, leaseId: Id, setup: Option<ErrorCode>, sessionAborted: bool,
            checkedAt: Time, eventId: Id, now: Time)
    | Progress(run: RunIdentity, progressSeq: nat, eventId: Id, now: Time)
    | Succeed(run: RunIdentity, outputRefs: OutputRefs, eventId: Id, now: Time)
    | Fail(run: RunIdentity, error: RunnerError, nextAttemptAt: Time, eventId: Id, now: Time)
    | Abort(run: RunIdentity, eventId: Id, now: Time)
    | ExpireLease(run: RunIdentity, eventId: Id, now: Time)
    | CancelQueued(taskId: Id, requestId: Id, reason: CancelReason, eventId: Id, now: Time)
    | RequestCancel(taskId: Id, requestId: Id, reason: CancelReason, eventId: Id, now: Time)
    | Acknowledge(receipt: Acknowledgement, eventId: Id)
    | AdvanceClock(actionId: Id, source: Id, eventId: Id, now: Time)

  // ---------------------------------------------------------------- building blocks

  /** `finalizeAgentTaskGraphMutationV2` (task-graph.ts:868-896). */
  function Finalize(current: Graph, draft: Graph, eventId: Id, now: Time, body: EventBody): Mutation {
    Mutation(
      draft.(identity := current.identity,
             revision := current.revision + 1,
             nextEventSeq := current.nextEventSeq + 1),
      Event(eventId, current.nextEventSeq, current.identity.sessionId, current.identity.graphId, now,
            current.revision, current.revision + 1, body))
  }

  function IdentityOf(t: Task): RunIdentity
    requires t.lease.Some?
  {
    RunIdentity(t.id, t.attempt, t.lease.value.leaseId, t.lease.value.ownerId)
  }

  predicate RunsAs(t: Task, run: RunIdentity) {
    t.status == Running && t.lease.Some? && IdentityOf(t) == run
  }

  function RequireRunning(tasks: seq<Task>, id: Id): Result<Task, ErrorCode> {
    match Find(tasks, id)
    case None => Err(TaskNotFound)
    case Some(t) => if t.status != Running then Err(InvalidTransition) else Ok(t)
  }

  /** `requireFencedTask` (task-scheduler.ts:699-709). */
  function RequireFenced(tasks: seq<Task>, run: RunIdentity): Result<Task, ErrorCode> {
    match RequireRunning(tasks, run.taskId)
    case Err(e) => Err(e)
    case Ok(t) =>
      if t.kind == MainBrowserStep then Err(PolicyViolation)
      else if !RunsAs(t, run) then Err(StaleLease)
      else Ok(t)
  }

  /** `finishAttempt`: closes the record of the given lease (task-scheduler.ts:715-728). */
  function CloseRecord(attempts: seq<AttemptRecord>, leaseId: Id, state: AttemptState): (r: seq<AttemptRecord>)
    ensures |r| == |attempts|
    ensures forall i | 0 <= i < |attempts| ::
              r[i] == if attempts[i].runIdentity.leaseId == leaseId then attempts[i].(state := state) else attempts[i]
  {
    seq(|attempts|, i requires 0 <= i < |attempts| =>
      if attempts[i].runIdentity.leaseId == leaseId then attempts[i].(state := state) else attempts[i])
  }

  /** A task leaves `running`: the lease goes, the record of the run is closed. */
  function Leave(t: Task, run: RunIdentity, status: Status, terminalAt: Option<Time>, state: AttemptState): Task {
    t.(status := status, lease := None, terminalAt := terminalAt,
       attempts := CloseRecord(t.attempts, run.leaseId, state))
  }

  function CompletedTask(t: Task, run: RunIdentity, refs: OutputRefs, freshness: Freshness, now: Time): Task {
    Leave(t, run, Completed, Some(now), Succeeded(now)).(outputs := t.outputs + OutputsFor(refs, run, freshness))
  }

  function RetriedTask(t: Task, run: RunIdentity, error: ContractError, now: Time, nextAttemptAt: Time): Task {
    Leave(t, run, Pending, t.terminalAt, AttemptFailed(now, error))
      .(nextAttemptAt := Some(nextAttemptAt), lastError := Some(error))
  }

  function FailedTask(t: Task, run: RunIdentity, error: ContractError, now: Time): Task {
    Leave(t, run, Failed, Some(now), AttemptFailed(now, error)).(lastError := Some(error))
  }

  function AbortedTask(t: Task, run: RunIdentity, error: ContractError, now: Time): Task {
    Leave(t, run, Killed, Some(now), Aborted(now, error)).(lastError := Some(error))
  }

  function RecoveredTask(t: Task, run: RunIdentity, fails: bool, error: ContractError, now: Time): Task {
    Leave(t, run, if fails then Failed else Pending, if fails then Some(now) else t.terminalAt, Expired(now, error))
      .(lastError := Some(error))
  }

  function CancelledTask(t: Task, cancellation: Cancellation, error: ContractError, now: Time): Task {
    t.(status := Killed, terminalAt := Some(now), cancellation := Some(cancellation), lastError := Some(error))
  }

  function NotificationOf(g: Graph, taskId: Id, eventId: Id, now: Time, body: NotificationBody): Notification {
    Notification(NotificationFor(eventId), g.identity.sessionId, g.identity.graphId, g.revision + 1,
                 g.nextEventSeq, taskId, now, body)
  }

  function Announce(g: Graph, taskId: Id, eventId: Id, now: Time, body: NotificationBody): seq<OutboxEntry> {
    g.outbox + [OutboxEntry(eventId, g.nextEventSeq, NotificationOf(g, taskId, eventId, now, body), None)]
  }

  /** `contractErrorFromRunner` (task-scheduler.ts:843-863). */
  function MapRunnerError(e: RunnerError, taskId: Id, now: Time): ContractError {
    var code := match e.code
      case RunnerArtifactNotReady => ArtifactNotReady
      case RunnerArtifactIntegrityFailed => ArtifactIntegrityFailed
      case OutputSchemaInvalid => ResultSchemaInvalid
      case RunnerSessionAborted => SessionAborted
      case RunnerPolicyViolation => PolicyViolation
      case ToolDenied => PolicyViolation
      case _ => InvalidTransition;
    ContractError(code, e.retrySameTask, taskId, now)
  }

  function CancelError(bySession: bool, taskId: Id, now: Time): ContractError {
    ContractError(if bySession then SessionAborted else Cancelled, false, taskId, now)
  }

  /** `assessAsyncTaskResultFreshness` (async-task-safety.ts:7-28). */
  function AssessFreshness(binding: ActionBinding, clock: nat): Result<Freshness, ErrorCode> {
    match binding
    case NotActionBound => Ok(NotApplicable)
    case BrowserAction(source) =>
      if source > clock then Err(InvalidSourceActionSeq) else Ok(Assessed(source, clock, source < clock))
  }

  function OutputsFor(refs: seq<Id>, run: RunIdentity, freshness: Freshness): (r: seq<Output>)
    ensures |r| == |refs|
    ensures forall i | 0 <= i < |refs| :: r[i] == Output(refs[i], i + 1, run.attempt, run.leaseId, freshness)
  {
    seq(|refs|, i requires 0 <= i < |refs| => Output(refs[i], i + 1, run.attempt, run.leaseId, freshness))
  }

  function ActiveLocks(locks: seq<Lock>, taskId: Id): seq<Id> {
    if locks == [] then []
    else if locks[0].ownerTaskId == taskId && locks[0].releasedAt.None?
    then [locks[0].id] + ActiveLocks(locks[1..], taskId)
    else ActiveLocks(locks[1..], taskId)
  }

  function ReleaseLocks(locks: seq<Lock>, taskId: Id, now: Time): seq<Lock> {
    seq(|locks|, i requires 0 <= i < |locks| =>
      if locks[i].ownerTaskId == taskId && locks[i].releasedAt.None?
      then locks[i].(releasedAt := Some(now)) else locks[i])
  }

  function CountRunning(tasks: seq<Task>, c: CapacityClass): nat {
    if tasks == [] then 0
    else (if tasks[0].status == Running && CapacityOf(tasks[0].kind) == c then 1 else 0) + CountRunning(tasks[1..], c)
  }

  function CountOpen(tasks: seq<Task>): nat {
    if tasks == [] then 0 else (if Terminal(tasks[0].status) then 0 else 1) + CountOpen(tasks[1..])
  }

  /** `hasCapacity` (task-scheduler.ts:599-602). */
  predicate HasCapacity(limits: Limits, tasks: seq<Task>, c: CapacityClass) {
    CountRunning(tasks, c) < (if c == ReadOnlyLlm then limits.maxReadOnly else limits.maxDeterministic)
  }

  // ---------------------------------------------------------------- the reducers

  function ReduceSpawn(limits: Limits, g: Graph, op: Op): Result<Mutation, ErrorCode>
    requires op.Spawn?
  {
    var t := CreateTask(op.input, op.now);
    if op.input.kind == MainBrowserStep then Err(PolicyViolation)
    else if ResolveSpawn(g.tasks, t.idempotencyKey, t.inputDigest) != ToCreate then Err(IdempotencyConflict)
    else if CountOpen(g.tasks) >= limits.maxQueued then Err(QueueCapacityExceeded)
    else
      match AddTask(g.tasks, t)
      case Err(e) => Err(e)
      case Ok(tasks) =>
        Ok(Finalize(g, g.(tasks := tasks), op.eventId, op.now, TaskCreated(t.id, t.idempotencyKey, t.inputDigest)))
  }

  function ClaimedTask(g: Graph, t: Task, schedulerId: Id, leaseId: Id, now: Time): Task {
    var attempt := t.attempt + 1;
    var lease := Lease(leaseId, schedulerId, now, now + t.leaseDuration, attempt, g.revision + 1);
    t.(status := Running, attempt := attempt, lease := Some(lease),
       attempts := t.attempts + [AttemptRecord(RunIdentity(t.id, attempt, leaseId, schedulerId), now, InProgress)])
  }

  function ClaimMutation(g: Graph, t: Task, op: Op): Mutation
    requires op.Claim?
  {
    var running := ClaimedTask(g, t, op.schedulerId, op.leaseId, op.now);
    Finalize(g, g.(tasks := Replace(g.tasks, running)), op.eventId, op.now,
             TaskClaimed(IdentityOf(running), running.lease.value))
  }

  /** `claim` (task-scheduler.ts:268-330); `setup` is what the runner registry or the envelope resolver threw. */
  function ReduceClaim(limits: Limits, g: Graph, op: Op): Result<Mutation, ErrorCode>
    requires op.Claim?
  {
    if op.sessionAborted then Err(SessionAborted) else
    match Find(g.tasks, op.taskId)
    case None => Err(TaskNotFound)
    case Some(t) =>
      if t.status != Pending then Err(InvalidTransition)
      else if t.kind == MainBrowserStep then Err(PolicyViolation)
      else if Unresolved(g.tasks, t.blockedBy) != [] then Err(DependencyUnresolved)
      else if t.nextAttemptAt.Some? && t.nextAttemptAt.value > op.checkedAt then Err(InvalidTransition)
      else if t.attempt >= t.maxAttempts then Err(MaxAttemptsExceeded)
      else if !HasCapacity(limits, g.tasks, CapacityOf(t.kind)) then Err(QueueCapacityExceeded)
      else if op.setup.Some? then Err(op.setup.value)
      else Ok(ClaimMutation(g, t, op))
  }

  function ReduceProgress(g: Graph, op: Op): Result<Mutation, ErrorCode>
    requires op.Progress?
  {
    match RequireFenced(g.tasks, op.run)
    case Err(e) => Err(e)
    case Ok(t) =>
      Ok(Finalize(g, g.(tasks := Replace(g.tasks, t)), op.eventId, op.now, TaskProgressed(op.run, op.progressSeq)))
  }

  function SucceedMutation(g: Graph, t: Task, op: Op, freshness: Freshness): Mutation
    requires op.Succeed?
  {
    var draft := g.(
      tasks := Refresh(Replace(g.tasks, CompletedTask(t, op.run, op.outputRefs, freshness, op.now))),
      outbox := Announce(g, t.id, op.eventId, op.now, ReportCompleted(op.run, op.outputRefs, freshness)));
    Finalize(g, draft, op.eventId, op.now, TaskCompleted(op.run, op.outputRefs, freshness))
  }

  /** `commitSuccess` (task-scheduler.ts:416-460). */
  function ReduceSucceed(g: Graph, op: Op): Result<Mutation, ErrorCode>
    requires op.Succeed?
  {
    match RequireFenced(g.tasks, op.run)
    case Err(e) => Err(e)
    case Ok(t) =>
      match AssessFreshness(t.actionBinding, g.actionSeq)
      case Err(e) => Err(e)
      case Ok(freshness) => Ok(SucceedMutation(g, t, op, freshness))
  }

  function RetryMutation(g: Graph, t: Task, op: Op, error: ContractError, nextAttemptAt: Time): Mutation
    requires op.Fail?
  {
    var pending := RetriedTask(t, op.run, error, op.now, nextAttemptAt);
    Finalize(g, g.(tasks := Replace(g.tasks, pending)), op.eventId, op.now,
             TaskRetryScheduled(op.run, nextAttemptAt, error))
  }

  function FailMutation(g: Graph, t: Task, op: Op, error: ContractError): Mutation
    requires op.Fail?
  {
    var draft := g.(
      tasks := Replace(g.tasks, FailedTask(t, op.run, error, op.now)),
      outbox := Announce(g, t.id, op.eventId, op.now, ReportFailed(false, RanAs(op.run), error)));
    Finalize(g, draft, op.eventId, op.now, TaskFailed(op.run, error))
  }

  /** `commitFailure` (task-scheduler.ts:462-499). */
  function ReduceFail(g: Graph, op: Op): Result<Mutation, ErrorCode>
    requires op.Fail?
  {
    match RequireFenced(g.tasks, op.run)
    case Err(e) => Err(e)
    case Ok(t) =>
      var error := MapRunnerError(op.error, t.id, op.now);
      if op.error.retrySameTask && t.attempt < t.maxAttempts
      then Ok(RetryMutation(g, t, op, error, op.nextAttemptAt))
      else Ok(FailMutation(g, t, op, error))
  }

  function AbortMutation(g: Graph, t: Task, op: Op): Mutation
    requires op.Abort?
  {
    var bySession := t.cancellation.Some? && t.cancellation.value.reason == SessionAbort;
    var error := CancelError(bySession, t.id, op.now);
    var killed := AbortedTask(t, op.run, error, op.now);
    Finalize(g, g.(tasks := Replace(g.tasks, killed)), op.eventId, op.now, TaskKilled(op.run, error))
  }

  /** `commitAborted` (task-scheduler.ts:501-519): no notification is emitted. */
  function ReduceAbort(g: Graph, op: Op): Result<Mutation, ErrorCode>
    requires op.Abort?
  {
    match RequireFenced(g.tasks, op.run)
    case Err(e) => Err(e)
    case Ok(t) => Ok(AbortMutation(g, t, op))
  }

  /** What lease recovery does with an expired run, decided by kind and attempt alone. */
  function DispositionOf(t: Task): Disposition {
    if t.kind == MainBrowserStep then FailBrowserWrite
    else if t.attempt >= t.maxAttempts then FailMaxAttempts
    else RequeueReadOnly
  }

  function RecoveryError(t: Task, now: Time): ContractError {
    match DispositionOf(t)
    case FailBrowserWrite => ContractError(PolicyViolation, false, t.id, now)
    case FailMaxAttempts => ContractError(MaxAttemptsExceeded, false, t.id, now)
    case RequeueReadOnly => ContractError(LeaseExpired, true, t.id, now)
  }

  function ExpireMutation(g: Graph, t: Task, op: Op): Mutation
    requires op.ExpireLease?
  {
    var disposition := DispositionOf(t);
    var fails := disposition != RequeueReadOnly;
    var error := RecoveryError(t, op.now);
    var recovered := RecoveredTask(t, op.run, fails, error, op.now);
    var decision := RecoveryDecision(disposition, ActiveLocks(g.locks, t.id), if fails then Some(error) else None);
    var draft := g.(
      tasks := Replace(g.tasks, recovered),
      locks := ReleaseLocks(g.locks, t.id, op.now),
      activeBrowserTask := if g.activeBrowserTask == Some(t.id) then None else g.activeBrowserTask,
      outbox := if fails then Announce(g, t.id, op.eventId, op.now, ReportFailed(false, RanAs(op.run), error))
                else g.outbox);
    Finalize(g, draft, op.eventId, op.now, TaskLeaseExpired(op.run, decision))
  }

  /** The transaction of `recoverExpiredLeases` (task-scheduler.ts:532-586). */
  function ReduceExpire(g: Graph, op: Op): Result<Mutation, ErrorCode>
    requires op.ExpireLease?
  {
    match RequireRunning(g.tasks, op.run.taskId)
    case Err(e) => Err(e)
    case Ok(t) =>
      if !RunsAs(t, op.run) then Err(StaleLease)
      else if t.lease.value.expiresAt > op.now then Err(InvalidTransition)
      else Ok(ExpireMutation(g, t, op))
  }

  function CancelMutation(g: Graph, t: Task, op: Op): Mutation
    requires op.CancelQueued?
  {
    var error := CancelError(op.reason == SessionAbort, t.id, op.now);
    var killed := CancelledTask(t, Cancellation(op.requestId, op.now, op.reason), error, op.now);
    var draft := g.(
      tasks := Replace(g.tasks, killed),
      outbox := Announce(g, t.id, op.eventId, op.now, ReportFailed(true, BeforeRun(op.requestId), error)));
    Finalize(g, draft, op.eventId, op.now, TaskCancelledBeforeRun(t.id, op.requestId, op.reason))
  }

  /** `cancelTask` on a task that has not started (task-scheduler.ts:128-160). */
  function ReduceCancelQueued(g: Graph, op: Op): Result<Mutation, ErrorCode>
    requires op.CancelQueued?
  {
    match Find(g.tasks, op.taskId)
    case None => Err(TaskNotFound)
    case Some(t) =>
      if Terminal(t.status) || t.status == Running then Err(InvalidTransition)
      else Ok(CancelMutation(g, t, op))
  }

  function RequestMutation(g: Graph, t: Task, op: Op): Mutation
    requires op.RequestCancel? && t.lease.Some?
  {
    var cancellation := Cancellation(op.requestId, op.now, op.reason);
    Finalize(g, g.(tasks := Replace(g.tasks, t.(cancellation := Some(cancellation)))), op.eventId, op.now,
             TaskCancelRequested(IdentityOf(t), cancellation))
  }

  /** `cancelTask` on a running task (task-scheduler.ts:173-183). */
  function ReduceRequestCancel(g: Graph, op: Op): Result<Mutation, ErrorCode>
    requires op.RequestCancel?
  {
    match RequireRunning(g.tasks, op.taskId)
    case Err(e) => Err(e)
    case Ok(t) =>
      if t.lease.None? then Err(StaleLease)
      else Ok(RequestMutation(g, t, op))
  }

  function FindEntry(outbox: seq<OutboxEntry>, id: NotificationId): (r: Option<OutboxEntry>)
    ensures r.Some? ==> r.value in outbox && r.value.notification.notificationId == id
    ensures r.None? ==> forall e | e in outbox :: e.notification.notificationId != id
  {
    if outbox == [] then None
    else if outbox[0].notification.notificationId == id then Some(outbox[0])
    else FindEntry(outbox[1..], id)
  }

  function Receipted(outbox: seq<OutboxEntry>, receipt: Acknowledgement): (r: seq<OutboxEntry>)
    ensures |r| == |outbox|
    ensures forall i | 0 <= i < |outbox| ::
              r[i] == if outbox[i].notification.notificationId == receipt.notificationId
                      then outbox[i].(receipt := Some(receipt)) else outbox[i]
  {
    seq(|outbox|, i requires 0 <= i < |outbox| =>
      if outbox[i].notification.notificationId == receipt.notificationId
      then outbox[i].(receipt := Some(receipt)) else outbox[i])
  }

  /** The durable half of `acknowledgeNotification` (task-scheduler.ts:229-254). */
  function ReduceAcknowledge(g: Graph, op: Op): Result<Mutation, ErrorCode>
    requires op.Acknowledge?
  {
    match FindEntry(g.outbox, op.receipt.notificationId)
    case None => Err(NotificationAckConflict)
    case Some(entry) =>
      if entry.receipt.Some? then Err(NotificationAckConflict)
      else if Find(g.tasks, entry.notification.taskId).None? then Err(TaskNotFound)
      else
        Ok(AcknowledgeMutation(g, entry.notification.taskId, op))
  }

  function AcknowledgeMutation(g: Graph, taskId: Id, op: Op): Mutation
    requires op.Acknowledge?
  {
    Finalize(g, g.(outbox := Receipted(g.outbox, op.receipt)), op.eventId, op.receipt.acknowledgedAt,
             TaskNotificationAcknowledged(taskId, op.receipt))
  }

  /** The transaction of `recordBrowserAction` (async-task-runtime.ts:475-508). */
  function ReduceAdvance(g: Graph, op: Op): Result<Mutation, ErrorCode>
    requires op.AdvanceClock?
  {
    Ok(Finalize(g, g.(actionSeq := g.actionSeq + 1), op.eventId, op.now,
                BrowserActionAdvanced(op.actionId, g.actionSeq, g.actionSeq + 1, op.source)))
  }

  function Reduce(limits: Limits, g: Graph, op: Op): Result<Mutation, ErrorCode> {
    match op
    case Spawn(_, _, _) => ReduceSpawn(limits, g, op)
    case Claim(_, _, _, _, _, _, _, _) => ReduceClaim(limits, g, op)
    case Progress(_, _, _, _) => ReduceProgress(g, op)
    case Succeed(_, _, _, _) => ReduceSucceed(g, op)
    case Fail(_, _, _, _, _) => ReduceFail(g, op)
    case Abort(_, _, _) => ReduceAbort(g, op)
    case ExpireLease(_, _, _) => ReduceExpire(g, op)
    case CancelQueued(_, _, _, _, _) => ReduceCancelQueued(g, op)
    case RequestCancel(_, _, _, _, _) => ReduceRequestCancel(g, op)
    case Acknowledge(_, _) => ReduceAcknowledge(g, op)
    case AdvanceClock(_, _, _, _) => ReduceAdvance(g, op)
  }

  // ---------------------------------------------------------------- the store's fence

  /** `validateEventFence` (task-graph-store.ts:177-217): the code it throws, or None. */
  function FenceError(current: Graph, next: Graph, event: Event): Option<ErrorCode> {
    if event.body.BrowserActionAdvanced? then
      if event.body.previousActionSeq != current.actionSeq
        || event.body.currentActionSeq != event.body.previousActionSeq + 1
        || next.actionSeq != event.body.currentActionSeq
      then Some(InvalidTransition) else None
    else if next.actionSeq != current.actionSeq then Some(PolicyViolation)
    else
      var id := EventTask(event.body).value;
      var before := Find(current.tasks, id);
      var after := Find(next.tasks, id);
      if event.body.TaskCreated? then
        if before.Some? || after.None? || after.value.idempotencyKey != event.body.idempotencyKey
        then Some(InvalidTransition) else None
      else if before.None? || after.None? then Some(TaskNotFound)
      else if event.body.TaskClaimed? then
        if before.value.status != Pending || !RunsAs(after.value, event.body.run) then Some(StaleLease) else None
      else if RunScoped(event.body) then
        if !RunsAs(before.value, event.body.run) then Some(StaleLease)
        else if before.value.lease.value.expiresAt < event.occurredAt && !event.body.TaskLeaseExpired?
        then Some(LeaseExpired)
        else None
      else None
  }

  /** `validateMutation` (task-graph-store.ts:153-175). */
  function ValidationError(current: Graph, m: Mutation, sessionId: Id): Option<ErrorCode> {
    if m.graph.identity.sessionId != sessionId then Some(RevisionConflict)
    else if m.graph.identity.graphId != current.identity.graphId || m.graph.identity.runId != current.identity.runId
    then Some(RevisionConflict)
    else if m.graph.revision != current.revision + 1 then Some(RevisionConflict)
    else if m.event.revisionBefore != current.revision || m.event.revisionAfter != m.graph.revision
    then Some(RevisionConflict)
    else if m.event.eventSeq != current.nextEventSeq || m.graph.nextEventSeq != current.nextEventSeq + 1
    then Some(EventSequenceConflict)
    else if m.event.sessionId != sessionId || m.event.graphId != current.identity.graphId
    then Some(EventSequenceConflict)
    else FenceError(current, m.graph, m.event)
  }

  /** A whole transaction without faults: the reducer, then the fence. */
  function Commit(limits: Limits, g: Graph, op: Op): Result<Mutation, ErrorCode> {
    match Reduce(limits, g, op)
    case Err(e) => Err(e)
    case Ok(m) =>
      match ValidationError(g, m, g.identity.sessionId)
      case Some(e) => Err(e)
      case None => Ok(m)
  }
}
