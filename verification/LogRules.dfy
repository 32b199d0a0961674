/**
 What the event log of a session may contain. `Legal` says when an event may follow the
 events before it, in terms of the folded log alone; every committed transaction appends a
 legal event, and legality of each single step fixes the history of every task as a whole
 (packages/web-buddy/src/agents/task-graph-store.ts:177-217 and
 packages/web-buddy/src/agents/task-scheduler.ts:118-196, 211-330, 416-591).
 */
module LogRules {
  import opened Wrappers
  import opened Contracts
  import opened TaskGraph
  import opened Reducers
  import opened Invariants
  import opened EventLog

  // ---------------------------------------------------------------- legal events

  predicate InPhase(v: View, id: Id, phase: Phase) {
    id in v.tasks && v.tasks[id].phase == phase
  }

  /** The run currently holds the lease of its task. */
  predicate LiveRun(v: View, run: RunIdentity) {
    && InPhase(v, run.taskId, Leased)
    && var t := v.tasks[run.taskId];
       t.lease.Some? && run == RunIdentity(run.taskId, t.attempt, t.lease.value.leaseId, t.lease.value.ownerId)
  }

  function ExpiryOf(v: View, run: RunIdentity): Time
    requires LiveRun(v, run)
  {
    v.tasks[run.taskId].lease.value.expiresAt
  }

  predicate Legal(v: View, e: Event) {
    match e.body
    case BrowserActionAdvanced(_, previous, current, _) => previous == v.clock && current == previous + 1
    case TaskCreated(id, _, _) => id !in v.tasks
    case TaskClaimed(run, lease) =>
      && InPhase(v, run.taskId, Queued)
      && run == RunIdentity(run.taskId, v.tasks[run.taskId].attempt + 1, lease.leaseId, lease.ownerId)
    case TaskCancelledBeforeRun(id, _, _) => InPhase(v, id, Queued)
    case TaskLeaseExpired(run, _) => LiveRun(v, run) && ExpiryOf(v, run) <= e.occurredAt
    case TaskNotificationAcknowledged(_, receipt) =>
      receipt.notificationId in v.outbox && v.outbox[receipt.notificationId] == None
    case _ => LiveRun(v, e.body.run) && e.occurredAt <= ExpiryOf(v, e.body.run)
  }

  ghost predicate LegalLog(start: View, log: seq<Event>) {
    log != [] ==>
      var n := |log| - 1;
      LegalLog(start, log[..n]) && Legal(Fold(start, log[..n]), log[n])
  }

  lemma {:induction false} LegalAt(start: View, log: seq<Event>, k: nat)
    requires LegalLog(start, log) && k < |log|
    ensures LegalLog(start, log[..k]) && Legal(Fold(start, log[..k]), log[k])
  {
    var n := |log| - 1;
    if k < n {
      LegalAt(start, log[..n], k);
      assert log[..n][..k] == log[..k];
    }
  }

  // ---------------------------------------------------------------- every commit is legal

  lemma FencedRunIsLive(g: Graph, used: set<Id>, k: nat, run: RunIdentity)
    requires GraphInv(g, used) && k < |g.tasks| && RunsAs(g.tasks[k], run)
    ensures LiveRun(Project(g), run) && ExpiryOf(Project(g), run) == g.tasks[k].lease.value.expiresAt
  {
    ViewAt(g.tasks, k);
  }

  ghost predicate LegalFor(g: Graph, r: Result<Mutation, ErrorCode>) {
    r.Ok? ==> Legal(Project(g), r.value.event)
  }

  /** A run-scoped event is legal once the store's own fence has let it pass. */
  lemma FencedEventIsLegal(g: Graph, used: set<Id>, m: Mutation)
    requires GraphInv(g, used) && FenceError(g, m.graph, m.event).None?
    requires RunScoped(m.event.body) && !m.event.body.TaskClaimed? && !m.event.body.TaskLeaseExpired?
    ensures Legal(Project(g), m.event)
  {
    var k := IndexOf(g.tasks, m.event.body.run.taskId);
    FencedRunIsLive(g, used, k, m.event.body.run);
  }

  /** What a committed transaction of a run has to say. */
  lemma RunCommitIsFenced(limits: Limits, g: Graph, op: Op)
    requires op.Progress? || op.Succeed? || op.Fail? || op.Abort? || op.RequestCancel?
    requires Commit(limits, g, op).Ok?
    ensures
      var m := Commit(limits, g, op).value;
      && FenceError(g, m.graph, m.event).None?
      && RunScoped(m.event.body) && !m.event.body.TaskClaimed? && !m.event.body.TaskLeaseExpired?
  {
  }

  lemma RunIsLegal(limits: Limits, g: Graph, used: set<Id>, op: Op)
    requires op.Progress? || op.Succeed? || op.Fail? || op.Abort? || op.RequestCancel?
    requires GraphInv(g, used)
    ensures LegalFor(g, Commit(limits, g, op))
  {
    if Commit(limits, g, op).Ok? {
      RunCommitIsFenced(limits, g, op);
      FencedEventIsLegal(g, used, Commit(limits, g, op).value);
    }
  }

  lemma ExpireIsLegal(g: Graph, used: set<Id>, op: Op)
    requires op.ExpireLease? && GraphInv(g, used)
    ensures LegalFor(g, ReduceExpire(g, op))
  {
    if ReduceExpire(g, op).Ok? {
      var k := IndexOf(g.tasks, op.run.taskId);
      FencedRunIsLive(g, used, k, op.run);
    }
  }

  lemma ClaimIsLegal(limits: Limits, g: Graph, used: set<Id>, op: Op)
    requires op.Claim? && GraphInv(g, used)
    ensures LegalFor(g, ReduceClaim(limits, g, op))
  {
    if ReduceClaim(limits, g, op).Ok? {
      var k := IndexOf(g.tasks, op.taskId);
      ViewAt(g.tasks, k);
    }
  }

  lemma CancelIsLegal(g: Graph, used: set<Id>, op: Op)
    requires op.CancelQueued? && GraphInv(g, used)
    ensures LegalFor(g, ReduceCancelQueued(g, op))
  {
    if ReduceCancelQueued(g, op).Ok? {
      var k := IndexOf(g.tasks, op.taskId);
      ViewAt(g.tasks, k);
    }
  }

  lemma {:induction false} OutboxViewAt(outbox: seq<OutboxEntry>, k: nat)
    requires DistinctEntries(outbox) && k < |outbox|
    ensures
      var n := outbox[k].notification.notificationId;
      n in OutboxView(outbox) && OutboxView(outbox)[n] == outbox[k].receipt
  {
    var n := |outbox| - 1;
    if k < n {
      assert outbox[k].notification.notificationId != outbox[n].notification.notificationId;
      OutboxViewAt(outbox[..n], k);
    }
  }

  lemma AcknowledgeIsLegal(g: Graph, op: Op)
    requires op.Acknowledge? && DistinctEntries(g.outbox)
    ensures LegalFor(g, ReduceAcknowledge(g, op))
  {
    if ReduceAcknowledge(g, op).Ok? {
      var k :| 0 <= k < |g.outbox| && g.outbox[k] == FindEntry(g.outbox, op.receipt.notificationId).value;
      OutboxViewAt(g.outbox, k);
    }
  }

  lemma {:induction false} ViewedTasks(tasks: seq<Task>)
    ensures TaskViews(tasks).Keys == Ids(tasks)
  {
    if tasks != [] {
      var n := |tasks| - 1;
      ViewedTasks(tasks[..n]);
      assert forall t :: t in tasks <==> t in tasks[..n] || t == tasks[n];
    }
  }

  lemma SpawnIsLegal(limits: Limits, g: Graph, op: Op)
    requires op.Spawn?
    ensures LegalFor(g, ReduceSpawn(limits, g, op))
  {
    ViewedTasks(g.tasks);
  }

  /** The event of every committed transaction is legal after the events before it. */
  lemma CommitIsLegal(limits: Limits, g: Graph, used: set<Id>, op: Op)
    requires GraphInv(g, used)
    ensures LegalFor(g, Commit(limits, g, op))
  {
    if Commit(limits, g, op).Ok? {
      InvariantIsFoldable(g, used);
      if op.Claim? { ClaimIsLegal(limits, g, used, op); }
      else if op.Spawn? { SpawnIsLegal(limits, g, op); }
      else if op.CancelQueued? { CancelIsLegal(g, used, op); }
      else if op.Acknowledge? { AcknowledgeIsLegal(g, op); }
      else if op.ExpireLease? { ExpireIsLegal(g, used, op); }
      else if !op.AdvanceClock? { RunIsLegal(limits, g, used, op); }
    }
  }

  // ---------------------------------------------------------------- the history of a task

  /** The event ends its task for good. */
  predicate Ends(b: EventBody) {
    || b.TaskCompleted? || b.TaskFailed? || b.TaskKilled? || b.TaskCancelledBeforeRun?
    || (b.TaskLeaseExpired? && b.recovery.disposition != RequeueReadOnly)
  }

  predicate Ended(v: View, id: Id) {
    InPhase(v, id, Phase.Succeeded) || InPhase(v, id, Broken) || InPhase(v, id, Dead)
  }

  function CountClaims(log: seq<Event>, id: Id): nat {
    if log == [] then 0
    else
      var b := log[|log| - 1].body;
      CountClaims(log[..|log| - 1], id) + if b.TaskClaimed? && b.run.taskId == id then 1 else 0
  }

  function CountEnds(log: seq<Event>, id: Id): nat {
    if log == [] then 0
    else
      var b := log[|log| - 1].body;
      CountEnds(log[..|log| - 1], id) + if Ends(b) && EventTask(b) == Some(id) then 1 else 0
  }

  /** The attempt of a task is the number of times it was claimed. */
  lemma {:induction false} AttemptsAreClaims(start: View, log: seq<Event>, id: Id)
    requires LegalLog(start, log) && start.tasks == map[]
    ensures CountClaims(log, id) == if id in Fold(start, log).tasks then Fold(start, log).tasks[id].attempt else 0
  {
    if log != [] {
      AttemptsAreClaims(start, log[..|log| - 1], id);
    }
  }

  lemma OneMoreEnding(v: View, e: Event, id: Id)
    requires Legal(v, e)
    ensures Ended(Apply(v, e), id) <==> Ended(v, id) || (Ends(e.body) && EventTask(e.body) == Some(id))
    ensures Ends(e.body) && EventTask(e.body) == Some(id) ==> !Ended(v, id)
  {
  }

  /** A task has at most one ending event, and has one exactly when it has ended. */
  lemma {:induction false} OneEnding(start: View, log: seq<Event>, id: Id)
    requires LegalLog(start, log) && start.tasks == map[]
    ensures CountEnds(log, id) == if Ended(Fold(start, log), id) then 1 else 0
  {
    if log != [] {
      OneEnding(start, log[..|log| - 1], id);
      OneMoreEnding(Fold(start, log[..|log| - 1]), log[|log| - 1], id);
    }
  }

  lemma EndedStep(v: View, e: Event, id: Id)
    requires Legal(v, e) && Ended(v, id)
    ensures Ended(Apply(v, e), id) && Apply(v, e).tasks[id] == v.tasks[id]
  {
  }

  lemma {:induction false} EndedStaysEnded(start: View, log: seq<Event>, j: nat, k: nat, id: Id)
    requires LegalLog(start, log) && j <= k <= |log| && Ended(Fold(start, log[..j]), id)
    ensures Ended(Fold(start, log[..k]), id)
    ensures Fold(start, log[..k]).tasks[id] == Fold(start, log[..j]).tasks[id]
    decreases k
  {
    if j < k {
      EndedStaysEnded(start, log, j, k - 1, id);
      LegalAt(start, log, k - 1);
      assert log[..k][..k - 1] == log[..k - 1];
      EndedStep(Fold(start, log[..k - 1]), log[k - 1], id);
    }
  }

  /** After its ending event a task is only ever mentioned again to acknowledge its notification. */
  lemma NothingAfterTheEnd(start: View, log: seq<Event>, j: nat, k: nat)
    requires LegalLog(start, log) && j < k < |log| && Ends(log[j].body)
    requires EventTask(log[k].body) == EventTask(log[j].body)
    ensures log[k].body.TaskNotificationAcknowledged?
  {
    var id := EventTask(log[j].body).value;
    LegalAt(start, log, j);
    assert log[..j + 1][..j] == log[..j];
    assert Ended(Fold(start, log[..j + 1]), id);
    EndedStaysEnded(start, log, j + 1, k, id);
    LegalAt(start, log, k);
  }

  // ---------------------------------------------------------------- lease fencing

  /** The event takes the lease away from the run. */
  predicate Closes(b: EventBody, id: Id) {
    && EventTask(b) == Some(id)
    && (b.TaskRetryScheduled? || b.TaskCompleted? || b.TaskFailed? || b.TaskKilled? || b.TaskLeaseExpired?)
  }

  /** The claim at `j` gave the run its lease, and nothing before `k` took it back or replaced it. */
  ghost predicate ClaimedAt(log: seq<Event>, j: nat, k: nat, run: RunIdentity, lease: Lease) {
    && j < k <= |log|
    && log[j].body == TaskClaimed(run, lease)
    && forall i | j < i < k ::
      !Closes(log[i].body, run.taskId) && !(log[i].body.TaskClaimed? && log[i].body.run.taskId == run.taskId)
  }

  lemma {:induction false} LiveRunWasClaimed(start: View, log: seq<Event>, run: RunIdentity) returns (j: nat)
    requires LegalLog(start, log) && start.tasks == map[] && LiveRun(Fold(start, log), run)
    ensures ClaimedAt(log, j, |log|, run, Fold(start, log).tasks[run.taskId].lease.value)
  {
    var n := |log| - 1;
    if log[n].body.TaskClaimed? && log[n].body.run.taskId == run.taskId {
      j := n;
    } else {
      j := LiveRunWasClaimed(start, log[..n], run);
    }
  }

  /**
   Every event of a run follows the claim that granted the run its lease, with no other claim
   or closing event in between, and falls on the right side of the expiry recorded there:
   before it or on it, except that `task_lease_expired` comes on it or after it.
   */
  lemma RunEventsRespectTheirLease(start: View, log: seq<Event>, k: nat) returns (j: nat)
    requires LegalLog(start, log) && start.tasks == map[] && k < |log|
    requires RunScoped(log[k].body) && !log[k].body.TaskClaimed?
    ensures j < k && log[j].body.TaskClaimed? && ClaimedAt(log, j, k, log[k].body.run, log[j].body.lease)
    ensures log[k].body.TaskLeaseExpired? ==> log[j].body.lease.expiresAt <= log[k].occurredAt
    ensures !log[k].body.TaskLeaseExpired? ==> log[k].occurredAt <= log[j].body.lease.expiresAt
  {
    LegalAt(start, log, k);
    j := LiveRunWasClaimed(start, log[..k], log[k].body.run);
    assert forall i | 0 <= i < k :: log[..k][i] == log[i];
  }

  // ---------------------------------------------------------------- clock and outbox

  function CountAdvances(log: seq<Event>): nat {
    if log == [] then 0
    else CountAdvances(log[..|log| - 1]) + if log[|log| - 1].body.BrowserActionAdvanced? then 1 else 0
  }

  lemma {:induction false} ClockCountsActions(start: View, log: seq<Event>)
    requires LegalLog(start, log)
    ensures Fold(start, log).clock == start.clock + CountAdvances(log)
  {
    if log != [] {
      ClockCountsActions(start, log[..|log| - 1]);
    }
  }

  /** The event announces the end of its task to the main agent. */
  predicate Announces(b: EventBody) {
    Ends(b) && !b.TaskKilled?
  }

  function AnnouncedIn(log: seq<Event>): set<NotificationId> {
    set k | 0 <= k < |log| && Announces(log[k].body) :: NotificationFor(log[k].eventId)
  }

  function AcknowledgedIn(log: seq<Event>): set<NotificationId> {
    set k | 0 <= k < |log| && log[k].body.TaskNotificationAcknowledged? :: log[k].body.acknowledgement.notificationId
  }

  ghost predicate DistinctEvents(log: seq<Event>) {
    forall j, k | 0 <= j < k < |log| :: log[j].eventId != log[k].eventId
  }

  /** Announced means in the outbox; acknowledged means with the recorded receipt. */
  ghost predicate OutboxTold(v: View, log: seq<Event>) {
    && v.outbox.Keys == AnnouncedIn(log)
    && AcknowledgedIn(log) <= AnnouncedIn(log)
    && (forall n | n in v.outbox :: v.outbox[n].Some? <==> n in AcknowledgedIn(log))
    && (forall n | n in v.outbox && v.outbox[n].Some? :: ReceiptRecorded(log, v.outbox[n].value))
  }

  ghost predicate ReceiptRecorded(log: seq<Event>, receipt: Acknowledgement) {
    exists k :: 0 <= k < |log| && log[k].body.TaskNotificationAcknowledged? && log[k].body.acknowledgement == receipt
  }

  lemma ReceiptStaysRecorded(log: seq<Event>, receipt: Acknowledgement)
    requires log != [] && ReceiptRecorded(log[..|log| - 1], receipt)
    ensures ReceiptRecorded(log, receipt)
  {
    var n := |log| - 1;
    var k :| 0 <= k < n && log[..n][k].body.TaskNotificationAcknowledged?
      && log[..n][k].body.acknowledgement == receipt;
    assert log[k] == log[..n][k];
  }

  lemma OneMoreEventTold(v: View, log: seq<Event>)
    requires log != [] && OutboxTold(v, log[..|log| - 1]) && Legal(v, log[|log| - 1])
    requires NotificationFor(log[|log| - 1].eventId) !in AnnouncedIn(log[..|log| - 1])
    ensures OutboxTold(Apply(v, log[|log| - 1]), log)
  {
    var n := |log| - 1;
    var w := Apply(v, log[n]);
    AnnouncedGrows(log);
    forall x | x in w.outbox && w.outbox[x].Some?
      ensures ReceiptRecorded(log, w.outbox[x].value)
    {
      if x in v.outbox && w.outbox[x] == v.outbox[x] {
        ReceiptStaysRecorded(log, v.outbox[x].value);
      } else {
        assert log[n].body.TaskNotificationAcknowledged?;
      }
    }
  }

  /**
   A notification is in the outbox exactly when an ending event announced it, and it is still
   pending exactly when no acknowledgement of it was recorded; the receipt kept is the recorded one.
   */
  lemma {:induction false} OutboxIsAnnouncedMinusAcknowledged(start: View, log: seq<Event>)
    requires LegalLog(start, log) && start.outbox == map[] && DistinctEvents(log)
    ensures OutboxTold(Fold(start, log), log)
  {
    if log != [] {
      var n := |log| - 1;
      OutboxIsAnnouncedMinusAcknowledged(start, log[..n]);
      assert forall k | 0 <= k < n :: log[..n][k].eventId != log[n].eventId;
      OneMoreEventTold(Fold(start, log[..n]), log);
    }
  }

  lemma AnnouncedGrows(log: seq<Event>)
    requires log != []
    ensures
      var n := |log| - 1;
      && AnnouncedIn(log)
        == AnnouncedIn(log[..n]) + (if Announces(log[n].body) then {NotificationFor(log[n].eventId)} else {})
      && AcknowledgedIn(log) == AcknowledgedIn(log[..n])
           + (if log[n].body.TaskNotificationAcknowledged? then {log[n].body.acknowledgement.notificationId} else {})
  {
    var n := |log| - 1;
    assert forall k | 0 <= k < n :: log[..n][k] == log[k];
  }
}
