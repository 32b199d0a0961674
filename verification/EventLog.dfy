/**
 Folding the event log. The log alone reproduces the phase, attempt and artifacts of every
 task, the action clock, and which notifications are pending or acknowledged
 (packages/web-buddy/src/agents/task-scheduler.ts:268-330, 416-591;
 packages/web-buddy/src/agents/task-graph.ts:868-896).
 */
module EventLog {
  import opened Wrappers
  import opened Contracts
  import opened TaskGraph
  import opened GraphLinks
  import opened Reducers
  import opened Invariants

  /** Statuses as the log can tell them: `pending` and `blocked` are both queued. */
  datatype Phase = Queued | Leased | Succeeded | Broken | Dead

  datatype TaskView = TaskView(phase: Phase, attempt: nat, lease: Option<Lease>, artifacts: seq<Id>)

  datatype View = View(clock: nat, tasks: map<Id, TaskView>, outbox: map<NotificationId, Option<Acknowledgement>>)

  // ---------------------------------------------------------------- from the log

  /** The task leaves the phase it is in, and its lease if it holds one. */
  function WithTask(v: View, id: Id, phase: Phase): View {
    if id in v.tasks then v.(tasks := v.tasks[id := v.tasks[id].(phase := phase, lease := None)]) else v
  }

  function WithEntry(v: View, eventId: Id): View {
    v.(outbox := v.outbox[NotificationFor(eventId) := None])
  }

  function Apply(v: View, e: Event): View {
    match e.body
    case BrowserActionAdvanced(_, _, current, _) => v.(clock := current)
    case TaskCreated(id, _, _) => v.(tasks := v.tasks[id := TaskView(Queued, 0, None, [])])
    case TaskClaimed(run, lease) =>
      if run.taskId in v.tasks then
        var t := v.tasks[run.taskId];
        v.(tasks := v.tasks[run.taskId := t.(phase := Leased, attempt := t.attempt + 1, lease := Some(lease))])
      else v
    case TaskProgressed(_, _) => v
    case TaskCancelRequested(_, _) => v
    case TaskRetryScheduled(run, _, _) => WithTask(v, run.taskId, Queued)
    case TaskCancelledBeforeRun(id, _, _) => WithEntry(WithTask(v, id, Dead), e.eventId)
    case TaskCompleted(run, refs, _) =>
      if run.taskId in v.tasks
      then
        var t := v.tasks[run.taskId].(phase := Phase.Succeeded, lease := None, artifacts := refs);
        WithEntry(v.(tasks := v.tasks[run.taskId := t]), e.eventId)
      else v
    case TaskFailed(run, _) => WithEntry(WithTask(v, run.taskId, Broken), e.eventId)
    case TaskKilled(run, _) => WithTask(v, run.taskId, Dead)
    case TaskLeaseExpired(run, decision) =>
      if decision.disposition == RequeueReadOnly then WithTask(v, run.taskId, Queued)
      else WithEntry(WithTask(v, run.taskId, Broken), e.eventId)
    case TaskNotificationAcknowledged(_, receipt) => v.(outbox := v.outbox[receipt.notificationId := Some(receipt)])
  }

  function Fold(start: View, log: seq<Event>): View {
    if log == [] then start else Apply(Fold(start, log[..|log| - 1]), log[|log| - 1])
  }

  // ---------------------------------------------------------------- from the snapshot

  function PhaseOf(s: Status): Phase {
    match s
    case Pending => Queued
    case Blocked => Queued
    case Running => Leased
    case Completed => Phase.Succeeded
    case Failed => Broken
    case Killed => Dead
  }

  function ArtifactRefs(outputs: seq<Output>): (r: seq<Id>)
    ensures |r| == |outputs| && forall i | 0 <= i < |outputs| :: r[i] == outputs[i].artifactRef
  {
    seq(|outputs|, i requires 0 <= i < |outputs| => outputs[i].artifactRef)
  }

  function ViewOf(t: Task): TaskView {
    TaskView(PhaseOf(t.status), t.attempt, t.lease, ArtifactRefs(t.outputs))
  }

  function TaskViews(tasks: seq<Task>): map<Id, TaskView> {
    if tasks == [] then map[]
    else
      var n := |tasks| - 1;
      TaskViews(tasks[..n])[tasks[n].id := ViewOf(tasks[n])]
  }

  function OutboxView(outbox: seq<OutboxEntry>): map<NotificationId, Option<Acknowledgement>> {
    if outbox == [] then map[]
    else
      var n := |outbox| - 1;
      OutboxView(outbox[..n])[outbox[n].notification.notificationId := outbox[n].receipt]
  }

  function Project(g: Graph): View {
    View(g.actionSeq, TaskViews(g.tasks), OutboxView(g.outbox))
  }

  // ---------------------------------------------------------------- how the projection moves

  lemma {:induction false} SameViews(xs: seq<Task>, ys: seq<Task>)
    requires |xs| == |ys|
    requires forall i | 0 <= i < |xs| :: xs[i].id == ys[i].id && ViewOf(xs[i]) == ViewOf(ys[i])
    ensures TaskViews(xs) == TaskViews(ys)
  {
    if xs != [] {
      SameViews(xs[..|xs| - 1], ys[..|ys| - 1]);
    }
  }

  /** The view of a snapshot with unique identifiers shows every task. */
  lemma {:induction false} ViewAt(tasks: seq<Task>, k: nat)
    requires UniqueIds(tasks) && k < |tasks|
    ensures tasks[k].id in TaskViews(tasks) && TaskViews(tasks)[tasks[k].id] == ViewOf(tasks[k])
  {
    var n := |tasks| - 1;
    if k < n {
      assert tasks[k].id != tasks[n].id;
      ViewAt(tasks[..n], k);
    }
  }

  lemma {:induction false} UpdatedView(tasks: seq<Task>, k: nat, u: Task)
    requires UniqueIds(tasks) && k < |tasks| && tasks[k].id == u.id
    ensures TaskViews(tasks[k := u]) == TaskViews(tasks)[u.id := ViewOf(u)]
  {
    var n := |tasks| - 1;
    if k < n {
      assert tasks[k].id != tasks[n].id;
      UpdatedView(tasks[..n], k, u);
      assert tasks[k := u][..n] == tasks[..n][k := u];
    } else {
      assert tasks[k := u][..n] == tasks[..n];
    }
  }

  lemma ReplacedView(tasks: seq<Task>, k: nat, u: Task)
    requires UniqueIds(tasks) && k < |tasks| && tasks[k].id == u.id
    ensures TaskViews(Replace(tasks, u)) == TaskViews(tasks)[u.id := ViewOf(u)]
    ensures u.id in TaskViews(tasks) && TaskViews(tasks)[u.id] == ViewOf(tasks[k])
  {
    ReplaceAt(tasks, k, u);
    UpdatedView(tasks, k, u);
    ViewAt(tasks, k);
  }

  lemma AppendedView(xs: seq<Task>, ys: seq<Task>, t: Task)
    requires |ys| == |xs| + 1 && ys[|xs|] == t
    requires forall i | 0 <= i < |xs| :: xs[i].id == ys[i].id && ViewOf(xs[i]) == ViewOf(ys[i])
    ensures TaskViews(ys) == TaskViews(xs)[t.id := ViewOf(t)]
  {
    SameViews(xs, ys[..|xs|]);
  }

  ghost predicate DistinctEntries(outbox: seq<OutboxEntry>) {
    forall j, k | 0 <= j < k < |outbox| ::
      outbox[j].notification.notificationId != outbox[k].notification.notificationId
  }

  lemma AnnouncedView(outbox: seq<OutboxEntry>, entry: OutboxEntry)
    ensures OutboxView(outbox + [entry]) == OutboxView(outbox)[entry.notification.notificationId := entry.receipt]
  {
    assert (outbox + [entry])[..|outbox|] == outbox;
  }

  lemma {:induction false} UntouchedOutbox(outbox: seq<OutboxEntry>, receipt: Acknowledgement)
    requires forall k | 0 <= k < |outbox| :: outbox[k].notification.notificationId != receipt.notificationId
    ensures Receipted(outbox, receipt) == outbox
  {
  }

  lemma {:induction false} ReceiptedView(outbox: seq<OutboxEntry>, receipt: Acknowledgement, k: nat)
    requires DistinctEntries(outbox) && k < |outbox| && outbox[k].notification.notificationId == receipt.notificationId
    ensures OutboxView(Receipted(outbox, receipt)) == OutboxView(outbox)[receipt.notificationId := Some(receipt)]
  {
    var n := |outbox| - 1;
    var r := Receipted(outbox, receipt);
    assert r[..n] == Receipted(outbox[..n], receipt);
    if k < n {
      assert outbox[k].notification.notificationId != outbox[n].notification.notificationId;
      ReceiptedView(outbox[..n], receipt, k);
    } else {
      UntouchedOutbox(outbox[..n], receipt);
    }
  }

  /** What one step of the fold needs of the snapshot. */
  ghost predicate Foldable(g: Graph) {
    && UniqueIds(g.tasks)
    && DistinctEntries(g.outbox)
    && (forall i | 0 <= i < |g.tasks| :: g.tasks[i].status != Completed ==> g.tasks[i].outputs == [])
    && (forall i | 0 <= i < |g.tasks| :: g.tasks[i].status != Running ==> g.tasks[i].lease.None?)
  }

  lemma InvariantIsFoldable(g: Graph, used: set<Id>)
    requires GraphInv(g, used)
    ensures Foldable(g)
  {
    forall k | 0 <= k < |g.outbox|
      ensures g.outbox[k].notification.notificationId == NotificationFor(g.outbox[k].sourceEventId)
      ensures g.outbox[k].sourceEventId in used
    {
      assert EntryInv(g.outbox[k], used);
    }
    forall i | 0 <= i < |g.tasks|
      ensures g.tasks[i].status != Completed ==> g.tasks[i].outputs == []
      ensures g.tasks[i].status != Running ==> g.tasks[i].lease.None?
    {
      assert TaskInv(g.tasks[i]);
    }
  }

  lemma AnnouncingView(g: Graph, taskId: Id, eventId: Id, now: Time, body: NotificationBody)
    ensures OutboxView(Announce(g, taskId, eventId, now, body))
              == OutboxView(g.outbox)[NotificationFor(eventId) := None]
  {
    AnnouncedView(g.outbox, OutboxEntry(eventId, g.nextEventSeq, NotificationOf(g, taskId, eventId, now, body), None));
  }

  // ---------------------------------------------------------------- one step of the log

  /** The snapshot's projection moves exactly as the event says. */
  ghost predicate ExplainedBy(g: Graph, m: Mutation) {
    Project(m.graph) == Apply(Project(g), m.event)
  }

  ghost predicate Explained(g: Graph, r: Result<Mutation, ErrorCode>) {
    r.Ok? ==> ExplainedBy(g, r.value)
  }

  lemma RefreshSameViews(tasks: seq<Task>)
    requires UniqueIds(tasks)
    ensures TaskViews(Refresh(tasks)) == TaskViews(tasks)
  {
    SameViews(tasks, Refresh(tasks));
  }

  lemma ClaimExplained(g: Graph, k: nat, op: Op)
    requires op.Claim? && Foldable(g) && k < |g.tasks|
    ensures ExplainedBy(g, ClaimMutation(g, g.tasks[k], op))
  {
    ReplacedView(g.tasks, k, ClaimedTask(g, g.tasks[k], op.schedulerId, op.leaseId, op.now));
  }

  lemma CompletedArtifacts(t: Task, run: RunIdentity, refs: OutputRefs, freshness: Freshness, now: Time)
    requires t.outputs == []
    ensures ArtifactRefs(CompletedTask(t, run, refs, freshness, now).outputs) == refs
  {
    var u := CompletedTask(t, run, refs, freshness, now);
    assert u.outputs == OutputsFor(refs, run, freshness);
  }

  lemma SucceededTasks(g: Graph, k: nat, op: Op, freshness: Freshness)
    requires op.Succeed? && Foldable(g) && k < |g.tasks| && RunsAs(g.tasks[k], op.run)
    ensures
      var t := g.tasks[k];
      && t.id in TaskViews(g.tasks) && TaskViews(g.tasks)[t.id] == ViewOf(t)
      && TaskViews(SucceedMutation(g, t, op, freshness).graph.tasks)
         == TaskViews(g.tasks)[t.id := TaskView(Phase.Succeeded, t.attempt, None, op.outputRefs)]
  {
    var u := CompletedTask(g.tasks[k], op.run, op.outputRefs, freshness, op.now);
    CompletedArtifacts(g.tasks[k], op.run, op.outputRefs, freshness, op.now);
    ReplacedView(g.tasks, k, u);
    SameIds(g.tasks, Replace(g.tasks, u));
    RefreshSameViews(Replace(g.tasks, u));
  }

  lemma SucceedExplained(g: Graph, k: nat, op: Op, freshness: Freshness)
    requires op.Succeed? && Foldable(g) && k < |g.tasks| && RunsAs(g.tasks[k], op.run)
    ensures ExplainedBy(g, SucceedMutation(g, g.tasks[k], op, freshness))
  {
    SucceededTasks(g, k, op, freshness);
    AnnouncingView(g, g.tasks[k].id, op.eventId, op.now, ReportCompleted(op.run, op.outputRefs, freshness));
  }

  lemma RetryExplained(g: Graph, k: nat, op: Op, error: ContractError)
    requires op.Fail? && Foldable(g) && k < |g.tasks| && RunsAs(g.tasks[k], op.run)
    ensures ExplainedBy(g, RetryMutation(g, g.tasks[k], op, error, op.nextAttemptAt))
  {
    ReplacedView(g.tasks, k, RetriedTask(g.tasks[k], op.run, error, op.now, op.nextAttemptAt));
  }

  lemma FailExplained(g: Graph, k: nat, op: Op, error: ContractError)
    requires op.Fail? && Foldable(g) && k < |g.tasks| && RunsAs(g.tasks[k], op.run)
    ensures ExplainedBy(g, FailMutation(g, g.tasks[k], op, error))
  {
    ReplacedView(g.tasks, k, FailedTask(g.tasks[k], op.run, error, op.now));
    AnnouncingView(g, g.tasks[k].id, op.eventId, op.now, ReportFailed(false, RanAs(op.run), error));
  }

  lemma AbortExplained(g: Graph, k: nat, op: Op)
    requires op.Abort? && UniqueIds(g.tasks) && k < |g.tasks| && RunsAs(g.tasks[k], op.run)
    ensures ExplainedBy(g, AbortMutation(g, g.tasks[k], op))
  {
    var t := g.tasks[k];
    var bySession := t.cancellation.Some? && t.cancellation.value.reason == SessionAbort;
    var u := AbortedTask(t, op.run, CancelError(bySession, t.id, op.now), op.now);
    ReplacedView(g.tasks, k, u);
    assert TaskViews(AbortMutation(g, t, op).graph.tasks) == TaskViews(g.tasks)[t.id := ViewOf(u)];
  }

  lemma ExpiredTasks(g: Graph, k: nat, op: Op)
    requires op.ExpireLease? && Foldable(g) && k < |g.tasks| && RunsAs(g.tasks[k], op.run)
    ensures
      var t := g.tasks[k];
      && t.id in TaskViews(g.tasks) && TaskViews(g.tasks)[t.id] == ViewOf(t)
      && TaskViews(ExpireMutation(g, t, op).graph.tasks)
         == TaskViews(g.tasks)[t.id :=
             ViewOf(t).(phase := if DispositionOf(t) == RequeueReadOnly then Queued else Broken, lease := None)]
  {
    var t := g.tasks[k];
    ReplacedView(g.tasks, k,
                 RecoveredTask(t, op.run, DispositionOf(t) != RequeueReadOnly, RecoveryError(t, op.now), op.now));
  }

  lemma ExpireExplained(g: Graph, k: nat, op: Op)
    requires op.ExpireLease? && Foldable(g) && k < |g.tasks| && RunsAs(g.tasks[k], op.run)
    ensures ExplainedBy(g, ExpireMutation(g, g.tasks[k], op))
  {
    var t := g.tasks[k];
    ExpiredTasks(g, k, op);
    AnnouncingView(g, t.id, op.eventId, op.now, ReportFailed(false, RanAs(op.run), RecoveryError(t, op.now)));
  }

  lemma CancelQueuedExplained(g: Graph, k: nat, op: Op)
    requires op.CancelQueued? && Foldable(g) && k < |g.tasks| && g.tasks[k].status != Running
    ensures ExplainedBy(g, CancelMutation(g, g.tasks[k], op))
  {
    var t := g.tasks[k];
    var error := CancelError(op.reason == SessionAbort, t.id, op.now);
    ReplacedView(g.tasks, k, CancelledTask(t, Cancellation(op.requestId, op.now, op.reason), error, op.now));
    AnnouncingView(g, t.id, op.eventId, op.now, ReportFailed(true, BeforeRun(op.requestId), error));
  }

  lemma UnseenExplained(g: Graph, k: nat, u: Task)
    requires UniqueIds(g.tasks) && k < |g.tasks| && u.id == g.tasks[k].id && ViewOf(u) == ViewOf(g.tasks[k])
    ensures TaskViews(Replace(g.tasks, u)) == TaskViews(g.tasks)
  {
    ReplacedView(g.tasks, k, u);
  }

  lemma AcknowledgedOutbox(outbox: seq<OutboxEntry>, receipt: Acknowledgement)
    requires DistinctEntries(outbox) && FindEntry(outbox, receipt.notificationId).Some?
    ensures OutboxView(Receipted(outbox, receipt)) == OutboxView(outbox)[receipt.notificationId := Some(receipt)]
  {
    var k :| 0 <= k < |outbox| && outbox[k] == FindEntry(outbox, receipt.notificationId).value;
    ReceiptedView(outbox, receipt, k);
  }

  lemma ReceiptExplained(g: Graph, taskId: Id, op: Op)
    requires op.Acknowledge?
    requires OutboxView(Receipted(g.outbox, op.receipt))
               == OutboxView(g.outbox)[op.receipt.notificationId := Some(op.receipt)]
    ensures ExplainedBy(g, AcknowledgeMutation(g, taskId, op))
  {
  }

  lemma AcknowledgeExplained(g: Graph, op: Op)
    requires op.Acknowledge? && Foldable(g)
    ensures Explained(g, ReduceAcknowledge(g, op))
  {
    if ReduceAcknowledge(g, op).Ok? {
      AcknowledgedOutbox(g.outbox, op.receipt);
      ReceiptExplained(g, FindEntry(g.outbox, op.receipt.notificationId).value.notification.taskId, op);
    }
  }

  lemma SpawnExplained(limits: Limits, g: Graph, op: Op)
    requires op.Spawn? && LinkedGraph(g.tasks)
    ensures Explained(g, ReduceSpawn(limits, g, op))
  {
    if ReduceSpawn(limits, g, op).Ok? {
      var t := CreateTask(op.input, op.now);
      AdditionShape(g.tasks, t);
      AppendedView(g.tasks, AddTask(g.tasks, t).value, t);
    }
  }

  lemma ProgressExplained(g: Graph, op: Op)
    requires op.Progress? && Foldable(g)
    ensures Explained(g, ReduceProgress(g, op))
  {
    if RequireFenced(g.tasks, op.run).Ok? {
      var k := IndexOf(g.tasks, op.run.taskId);
      UnseenExplained(g, k, g.tasks[k]);
    }
  }

  lemma SuccessExplained(g: Graph, op: Op)
    requires op.Succeed? && Foldable(g)
    ensures Explained(g, ReduceSucceed(g, op))
  {
    if ReduceSucceed(g, op).Ok? {
      var k := IndexOf(g.tasks, op.run.taskId);
      SucceedExplained(g, k, op, AssessFreshness(g.tasks[k].actionBinding, g.actionSeq).value);
    }
  }

  lemma KillExplained(g: Graph, op: Op)
    requires op.Abort? && UniqueIds(g.tasks)
    ensures Explained(g, ReduceAbort(g, op))
  {
    if RequireFenced(g.tasks, op.run).Ok? {
      var k := IndexOf(g.tasks, op.run.taskId);
      AbortExplained(g, k, op);
    }
  }

  lemma FailureExplained(g: Graph, op: Op)
    requires op.Fail? && Foldable(g)
    ensures Explained(g, ReduceFail(g, op))
  {
    if RequireFenced(g.tasks, op.run).Ok? {
      var k := IndexOf(g.tasks, op.run.taskId);
      var error := MapRunnerError(op.error, g.tasks[k].id, op.now);
      RetryExplained(g, k, op, error);
      FailExplained(g, k, op, error);
    }
  }

  lemma LeaseExplained(limits: Limits, g: Graph, op: Op)
    requires Foldable(g)
    ensures op.Claim? ==> Explained(g, ReduceClaim(limits, g, op))
    ensures op.ExpireLease? ==> Explained(g, ReduceExpire(g, op))
  {
    if op.Claim? && ReduceClaim(limits, g, op).Ok? {
      var k := IndexOf(g.tasks, op.taskId);
      ClaimExplained(g, k, op);
    }
    if op.ExpireLease? && ReduceExpire(g, op).Ok? {
      var k := IndexOf(g.tasks, op.run.taskId);
      ExpireExplained(g, k, op);
    }
  }

  lemma CancellationExplained(g: Graph, op: Op)
    requires op.CancelQueued? && Foldable(g)
    ensures Explained(g, ReduceCancelQueued(g, op))
  {
    if ReduceCancelQueued(g, op).Ok? {
      var k := IndexOf(g.tasks, op.taskId);
      CancelQueuedExplained(g, k, op);
    }
  }

  lemma RequestExplained(g: Graph, op: Op)
    requires op.RequestCancel? && Foldable(g)
    ensures Explained(g, ReduceRequestCancel(g, op))
  {
    if ReduceRequestCancel(g, op).Ok? {
      var k := IndexOf(g.tasks, op.taskId);
      UnseenExplained(g, k, g.tasks[k].(cancellation := Some(Cancellation(op.requestId, op.now, op.reason))));
    }
  }

  /** Every transaction changes the snapshot's projection exactly as its one event says. */
  lemma EventExplainsSnapshot(limits: Limits, g: Graph, used: set<Id>, op: Op)
    requires GraphInv(g, used) && LinkedGraph(g.tasks) && Admissible(g, used, op)
    ensures Explained(g, Reduce(limits, g, op))
  {
    InvariantIsFoldable(g, used);
    if op.Spawn? { SpawnExplained(limits, g, op); }
    else if op.Fail? { FailureExplained(g, op); }
    else if op.Acknowledge? { AcknowledgeExplained(g, op); }
    else if op.Progress? { ProgressExplained(g, op); }
    else if op.Succeed? { SuccessExplained(g, op); }
    else if op.Abort? { KillExplained(g, op); }
    else if op.Claim? || op.ExpireLease? { LeaseExplained(limits, g, op); }
    else if op.CancelQueued? { CancellationExplained(g, op); }
    else if op.RequestCancel? { RequestExplained(g, op); }
  }
}
