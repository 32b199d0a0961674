/**
 The records of the async-task control plane
 (packages/web-buddy/src/agents/async-task-contracts.ts:22-426).
 Identifiers and instants are opaque naturals; a `Task` is one flat record, because the
 source builds every next state by spreading the previous one and overwriting fields.
 */
module Contracts {
  import opened Wrappers

  type Id = nat
  type Time = nat

  predicate IdBefore(a: Id, b: Id) {
    a < b
  }

  datatype ErrorCode =
    | GraphNotFound | GraphAlreadyExists | RevisionConflict | EventSequenceConflict
    | TaskNotFound | InvalidTransition | DependencyUnresolved | DagCycle
    | QueueCapacityExceeded | StaleLease | LeaseExpired | MaxAttemptsExceeded
    | IdempotencyConflict | PolicyViolation | ContextPolicyViolation | Cancelled | SessionAborted
    | NotificationAckConflict | InvalidSourceActionSeq | RunnerNotFound
    | ResultSchemaInvalid | ArtifactNotReady | ArtifactIntegrityFailed | UnsupportedSchemaVersion

  datatype ActionBinding = NotActionBound | BrowserAction(sourceActionSeq: nat)

  datatype Freshness =
    | NotApplicable
    | Assessed(sourceActionSeq: nat, assessedAgainstActionSeq: nat, stale: bool)

  datatype TaskKind =
    | MainBrowserStep | CandidateJobResearch | TraceSummarization
    | MemoryRetrieval | WorkflowEvaluation | DeliveryProbe

  datatype CapacityClass = MainAgentOnly | ReadOnlyLlm | Deterministic

  /** `roleForV2Kind` (task-graph.ts:916-923), the capacity part. */
  function CapacityOf(kind: TaskKind): CapacityClass {
    match kind
    case MainBrowserStep => MainAgentOnly
    case CandidateJobResearch => ReadOnlyLlm
    case TraceSummarization => ReadOnlyLlm
    case _ => Deterministic
  }

  datatype TerminalPolicy = MustCompleteSuccessfully | TerminalIsSufficient | DoesNotBlock

  datatype RunIdentity = RunIdentity(taskId: Id, attempt: nat, leaseId: Id, leaseOwnerId: Id)

  datatype Lease = Lease(
    leaseId: Id, ownerId: Id, acquiredAt: Time, expiresAt: Time,
    attempt: nat, claimedAtGraphRevision: nat)

  datatype ContractError = ContractError(code: ErrorCode, retrySameTask: bool, taskId: Id, occurredAt: Time)

  datatype RunnerErrorCode =
    | LlmTimeout | LlmTransient | RunnerArtifactNotReady | RunnerArtifactIntegrityFailed
    | OutputSchemaInvalid | ToolDenied | RunnerPolicyViolation | BudgetExhausted
    | RunnerSessionAborted | StaleSource | Internal

  datatype RunnerError = RunnerError(code: RunnerErrorCode, retrySameTask: bool)

  datatype AttemptState =
    | InProgress
    | Succeeded(finishedAt: Time)
    | AttemptFailed(finishedAt: Time, error: ContractError)
    | Aborted(finishedAt: Time, error: ContractError)
    | Expired(finishedAt: Time, error: ContractError)

  datatype AttemptRecord = AttemptRecord(runIdentity: RunIdentity, startedAt: Time, state: AttemptState)

  datatype Output = Output(artifactRef: Id, ordinal: nat, attempt: nat, leaseId: Id, freshness: Freshness)

  /** A run that succeeds hands over at least one artifact. */
  type OutputRefs = refs: seq<Id> | refs != [] witness [0]

  datatype Status = Pending | Blocked | Running | Completed | Failed | Killed

  predicate Terminal(s: Status) {
    s in {Completed, Failed, Killed}
  }

  datatype BlockReason = DependencyWait(unresolvedTaskIds: seq<Id>) | Manual

  datatype CancelReason = UserRequest | SessionAbort | Superseded

  datatype Cancellation = Cancellation(requestId: Id, requestedAt: Time, reason: CancelReason)

  datatype Task = Task(
    id: Id,
    priority: int,
    kind: TaskKind,
    blockedBy: seq<Id>,
    blocks: seq<Id>,
    idempotencyKey: Id,
    inputDigest: Id,
    actionBinding: ActionBinding,
    policy: TerminalPolicy,
    status: Status,
    attempt: nat,
    maxAttempts: nat,
    leaseDuration: nat,
    createdAt: Time,
    nextAttemptAt: Option<Time>,
    lease: Option<Lease>,
    blockReason: Option<BlockReason>,
    terminalAt: Option<Time>,
    cancellation: Option<Cancellation>,
    attempts: seq<AttemptRecord>,
    outputs: seq<Output>,
    lastError: Option<ContractError>)

  datatype Lock = Lock(id: Id, ownerTaskId: Id, releasedAt: Option<Time>)

  /** `notification_<eventId>` and `delivery_<notificationId>`. */
  datatype NotificationId = NotificationFor(eventId: Id)
  datatype DeliveryId = DeliveryFor(notificationId: NotificationId)
  datatype AcknowledgementId = AckGiven(id: Id) | AckReconciled(deliveryId: DeliveryId, promptMessageId: Id)

  datatype TerminalIdentity = RanAs(runIdentity: RunIdentity) | BeforeRun(cancellationRequestId: Id)

  datatype NotificationBody =
    | ReportCompleted(runIdentity: RunIdentity, outputRefs: OutputRefs, freshness: Freshness)
    | ReportFailed(killed: bool, terminalIdentity: TerminalIdentity, error: ContractError)

  datatype Notification = Notification(
    notificationId: NotificationId, sessionId: Id, graphId: Id, graphRevision: nat,
    sourceEventSeq: nat, taskId: Id, createdAt: Time, body: NotificationBody)

  datatype Acknowledgement = Acknowledgement(
    acknowledgementId: AcknowledgementId, notificationId: NotificationId, deliveryId: DeliveryId,
    claimId: Id, injectedPromptMessageId: Id, acknowledgedAt: Time)

  /** Pending delivery while `receipt` is None, acknowledged afterwards. */
  datatype OutboxEntry = OutboxEntry(
    sourceEventId: Id, sourceEventSeq: nat, notification: Notification, receipt: Option<Acknowledgement>)

  datatype GraphIdentity = GraphIdentity(graphId: Id, runId: Id, sessionId: Id)

  datatype Graph = Graph(
    identity: GraphIdentity,
    revision: nat,
    nextEventSeq: nat,
    actionSeq: nat,
    tasks: seq<Task>,
    locks: seq<Lock>,
    outbox: seq<OutboxEntry>,
    activeBrowserTask: Option<Id>)

  datatype Disposition = FailBrowserWrite | FailMaxAttempts | RequeueReadOnly

  datatype RecoveryDecision = RecoveryDecision(disposition: Disposition, releasedLockIds: seq<Id>,
                                               error: Option<ContractError>)

  datatype EventBody =
    | BrowserActionAdvanced(actionId: Id, previousActionSeq: nat, currentActionSeq: nat, source: Id)
    | TaskCreated(createdId: Id, idempotencyKey: Id, inputDigest: Id)
    | TaskClaimed(run: RunIdentity, lease: Lease)
    | TaskProgressed(run: RunIdentity, progressSeq: nat)
    | TaskRetryScheduled(run: RunIdentity, nextAttemptAt: Time, error: ContractError)
    | TaskCancelRequested(run: RunIdentity, cancellation: Cancellation)
    | TaskCancelledBeforeRun(cancelledId: Id, requestId: Id, reason: CancelReason)
    | TaskCompleted(run: RunIdentity, outputRefs: OutputRefs, freshness: Freshness)
    | TaskFailed(run: RunIdentity, error: ContractError)
    | TaskKilled(run: RunIdentity, error: ContractError)
    | TaskLeaseExpired(run: RunIdentity, recovery: RecoveryDecision)
    | TaskNotificationAcknowledged(ackedTaskId: Id, acknowledgement: Acknowledgement)

  datatype Event = Event(
    eventId: Id, eventSeq: nat, sessionId: Id, graphId: Id, occurredAt: Time,
    revisionBefore: nat, revisionAfter: nat, body: EventBody)

  /** Events that carry a `runIdentity` (the run-scoped ones). */
  predicate RunScoped(b: EventBody) {
    b.TaskClaimed? || b.TaskProgressed? || b.TaskRetryScheduled? || b.TaskCancelRequested?
    || b.TaskCompleted? || b.TaskFailed? || b.TaskKilled? || b.TaskLeaseExpired?
  }

  /** The task an event is about, if any. */
  function EventTask(b: EventBody): Option<Id> {
    match b
    case BrowserActionAdvanced(_, _, _, _) => None
    case TaskCreated(id, _, _) => Some(id)
    case TaskCancelledBeforeRun(id, _, _) => Some(id)
    case TaskNotificationAcknowledged(id, _) => Some(id)
    case _ => Some(b.run.taskId)
  }

  datatype Mutation = Mutation(graph: Graph, event: Event)
}
