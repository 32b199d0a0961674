/**
 The invariant of the task graph, and that every reducer keeps it and only moves tasks
 forward (packages/web-buddy/src/agents/task-scheduler.ts:118-196, 211-330, 416-591).
 */
module Invariants {
  import opened Wrappers
  import opened Contracts
  import opened TaskGraph
  import opened GraphLinks
  import opened Reducers
  import opened Sorting

  // ---------------------------------------------------------------- one task

  predicate Retryable(s: AttemptState) {
    s.AttemptFailed? || s.Expired?
  }

  function LastState(t: Task): AttemptState
    requires t.attempts != []
  {
    t.attempts[|t.attempts| - 1].state
  }

  function LeaseIds(t: Task): set<Id> {
    set r | r in t.attempts :: r.runIdentity.leaseId
  }

  /**
   One record per attempt, numbered from 1, each under its own lease; only the last may differ from
   "failed, try again".
   */
  ghost predicate RecordsInv(t: Task) {
    && |t.attempts| == t.attempt
    && (forall k | 0 <= k < |t.attempts| ::
          t.attempts[k].runIdentity.taskId == t.id && t.attempts[k].runIdentity.attempt == k + 1)
    && (forall j, k | 0 <= j < k < |t.attempts| ::
          t.attempts[j].runIdentity.leaseId != t.attempts[k].runIdentity.leaseId)
    && (forall k | 0 <= k < |t.attempts| - 1 :: Retryable(t.attempts[k].state))
  }

  ghost predicate StatusInv(t: Task) {
    && (t.status == Running <==> t.lease.Some?)
    && (t.status == Running ==>
          && t.lease.value.attempt == t.attempt
          && t.attempts != []
          && t.attempts[|t.attempts| - 1].runIdentity == IdentityOf(t)
          && LastState(t) == InProgress)
    && (t.status == Pending ==> t.attempt < t.maxAttempts && (t.attempts == [] || Retryable(LastState(t))))
    && (t.status == Blocked ==> t.attempt == 0 && t.blockReason.Some?)
    && (t.status == Completed ==>
          && t.attempts != [] && LastState(t).Succeeded?
          && t.outputs != []
          && forall o | o in t.outputs ::
               o.attempt == t.attempt && o.leaseId == t.attempts[|t.attempts| - 1].runIdentity.leaseId)
    && (t.status != Completed ==> t.outputs == [])
    && (t.status == Failed ==> t.attempts != [] && Retryable(LastState(t)))
    && (t.status == Killed ==> t.attempts == [] || Retryable(LastState(t)) || LastState(t).Aborted?)
    && (t.terminalAt.Some? <==> Terminal(t.status))
  }

  ghost predicate TaskInv(t: Task) {
    1 <= t.maxAttempts && t.attempt <= t.maxAttempts && RecordsInv(t) && StatusInv(t)
  }

  /** Ended, and by another route than `task_killed`: exactly these tasks have an outbox entry. */
  predicate Announced(t: Task) {
    || t.status == Completed || t.status == Failed
    || (t.status == Killed && (t.attempts == [] || !LastState(t).Aborted?))
  }

  /** What no transaction ever changes in a task. */
  predicate SameDefinition(t: Task, u: Task) {
    && t.id == u.id && t.priority == u.priority && t.kind == u.kind
    && t.idempotencyKey == u.idempotencyKey && t.inputDigest == u.inputDigest
    && t.actionBinding == u.actionBinding && t.policy == u.policy
    && t.maxAttempts == u.maxAttempts && t.leaseDuration == u.leaseDuration && t.createdAt == u.createdAt
  }

  predicate SameLinks(t: Task, u: Task) {
    t.blocks == u.blocks && t.blockedBy == u.blockedBy
  }

  /** `u` is a later version of `t`: records only accumulate and close once, ended tasks only gain links. */
  ghost predicate TaskEvolves(t: Task, u: Task) {
    && SameDefinition(t, u)
    && t.blocks <= u.blocks && t.blockedBy <= u.blockedBy
    && |t.attempts| <= |u.attempts|
    && (forall k | 0 <= k < |t.attempts| ::
          && t.attempts[k].runIdentity == u.attempts[k].runIdentity
          && t.attempts[k].startedAt == u.attempts[k].startedAt
          && (t.attempts[k].state != InProgress ==> u.attempts[k].state == t.attempts[k].state))
    && (Terminal(t.status) ==> u == t.(blocks := u.blocks, blockedBy := u.blockedBy))
  }

  // ---------------------------------------------------------------- the graph

  ghost predicate TasksInv(tasks: seq<Task>, used: set<Id>, clock: nat) {
    && UniqueIds(tasks)
    && (forall i | 0 <= i < |tasks| ::
          && TaskInv(tasks[i]) && LeaseIds(tasks[i]) <= used
          && (tasks[i].actionBinding.BrowserAction? ==> tasks[i].actionBinding.sourceActionSeq <= clock))
    && (forall i, j | 0 <= i < j < |tasks| :: tasks[i].idempotencyKey != tasks[j].idempotencyKey)
    && (forall i, j | 0 <= i < j < |tasks| :: LeaseIds(tasks[i]) !! LeaseIds(tasks[j]))
  }

  function AnnouncedIds(tasks: seq<Task>): set<Id> {
    set i | 0 <= i < |tasks| && Announced(tasks[i]) :: tasks[i].id
  }

  function EntryTasks(outbox: seq<OutboxEntry>): set<Id> {
    set k | 0 <= k < |outbox| :: outbox[k].notification.taskId
  }

  ghost predicate EntryInv(e: OutboxEntry, used: set<Id>) {
    && e.notification.notificationId == NotificationFor(e.sourceEventId)
    && e.sourceEventId in used
    && (e.receipt.Some? ==> e.receipt.value.notificationId == e.notification.notificationId)
  }

  /** Exactly the announced tasks have an entry, one each, under an identifier made from its own event. */
  ghost predicate OutboxInv(tasks: seq<Task>, outbox: seq<OutboxEntry>, used: set<Id>) {
    && EntryTasks(outbox) == AnnouncedIds(tasks)
    && (forall k | 0 <= k < |outbox| :: EntryInv(outbox[k], used))
    && (forall j, k | 0 <= j < k < |outbox| ::
          && outbox[j].sourceEventId != outbox[k].sourceEventId
          && outbox[j].notification.taskId != outbox[k].notification.taskId)
  }

  ghost predicate GraphInv(g: Graph, used: set<Id>) {
    TasksInv(g.tasks, used, g.actionSeq) && OutboxInv(g.tasks, g.outbox, used)
  }

  ghost predicate EntryEvolves(e: OutboxEntry, f: OutboxEntry) {
    f == e.(receipt := f.receipt) && (e.receipt.Some? ==> f.receipt == e.receipt)
  }

  ghost predicate GraphEvolves(g: Graph, h: Graph) {
    && g.identity == h.identity
    && g.actionSeq <= h.actionSeq
    && |g.tasks| <= |h.tasks| && (forall i | 0 <= i < |g.tasks| :: TaskEvolves(g.tasks[i], h.tasks[i]))
    && |g.outbox| <= |h.outbox| && (forall k | 0 <= k < |g.outbox| :: EntryEvolves(g.outbox[k], h.outbox[k]))
  }

  lemma GraphEvolvesTransitive(g: Graph, h: Graph, k: Graph)
    requires GraphEvolves(g, h) && GraphEvolves(h, k)
    ensures GraphEvolves(g, k)
  {
    forall i | 0 <= i < |g.tasks|
      ensures TaskEvolves(g.tasks[i], k.tasks[i])
    {
      assert TaskEvolves(g.tasks[i], h.tasks[i]) && TaskEvolves(h.tasks[i], k.tasks[i]);
    }
    forall i | 0 <= i < |g.outbox|
      ensures EntryEvolves(g.outbox[i], k.outbox[i])
    {
      assert EntryEvolves(g.outbox[i], h.outbox[i]) && EntryEvolves(h.outbox[i], k.outbox[i]);
    }
  }

  // ---------------------------------------------------------------- lifting from tasks to graphs

  lemma IndexOf(tasks: seq<Task>, id: Id) returns (k: nat)
    requires UniqueIds(tasks) && Find(tasks, id).Some?
    ensures k < |tasks| && tasks[k] == Find(tasks, id).value && tasks[k].id == id
    ensures forall i | 0 <= i < |tasks| && i != k :: tasks[i].id != id
  {
    k :| 0 <= k < |tasks| && tasks[k] == Find(tasks, id).value;
  }

  lemma SameLinksSameGraph(xs: seq<Task>, ys: seq<Task>)
    requires UniqueIds(xs) && |xs| == |ys|
    requires forall i | 0 <= i < |xs| :: xs[i].id == ys[i].id && SameLinks(xs[i], ys[i])
    ensures UniqueIds(ys) && Ids(ys) == Ids(xs) && LinksOf(ys) == LinksOf(xs)
  {
    SameIds(xs, ys);
    forall id | id in Ids(xs)
      ensures LinksOf(xs)[id] == LinksOf(ys)[id]
    {
      var i :| 0 <= i < |xs| && xs[i].id == id;
      LinksAt(xs, i);
      LinksAt(ys, i);
    }
    assert LinksOf(xs) == LinksOf(ys);
  }

  lemma SameLinksKeepMirror(xs: seq<Task>, ys: seq<Task>)
    requires MirroredLinks(xs) && |xs| == |ys| && UniqueIds(ys) && Ids(ys) == Ids(xs)
    requires forall i | 0 <= i < |xs| :: xs[i].id == ys[i].id && SameLinks(xs[i], ys[i])
    ensures MirroredLinks(ys)
  {
    forall i | 0 <= i < |xs|
      ensures xs[i] in xs
    {}
    assert forall t | t in ys :: exists i | 0 <= i < |ys| :: ys[i] == t;
  }

  lemma SameLinksKeepLinkedGraph(xs: seq<Task>, ys: seq<Task>)
    requires LinkedGraph(xs) && |xs| == |ys|
    requires forall i | 0 <= i < |xs| :: xs[i].id == ys[i].id && SameLinks(xs[i], ys[i])
    ensures LinkedGraph(ys) && LinksOf(ys) == LinksOf(xs)
  {
    SameLinksSameGraph(xs, ys);
    SameLinksKeepMirror(xs, ys);
  }

  /** The status changes a task can make in one transaction, with its attempt number. */
  predicate Moves(t: Task, u: Task, claiming: bool) {
    && t.maxAttempts == u.maxAttempts && t.kind == u.kind
    && (|| (u.status == t.status && u.attempt == t.attempt)
        || (t.status == Blocked && u.status == Pending && u.attempt == t.attempt)
        || (claiming && t.status == Pending && u.status == Running && u.attempt == t.attempt + 1)
        || (t.status == Running && (u.status == Pending || Terminal(u.status)) && u.attempt == t.attempt)
        || (!Terminal(t.status) && u.status == Killed && u.attempt == t.attempt))
  }

  ghost predicate SameShape(xs: seq<Task>, ys: seq<Task>, claiming: bool) {
    && |xs| == |ys|
    && forall i | 0 <= i < |xs| :: xs[i].id == ys[i].id && SameLinks(xs[i], ys[i]) && Moves(xs[i], ys[i], claiming)
  }

  lemma ReplaceShape(tasks: seq<Task>, u: Task, claiming: bool)
    requires UniqueIds(tasks) && Find(tasks, u.id).Some?
    requires SameLinks(Find(tasks, u.id).value, u) && Moves(Find(tasks, u.id).value, u, claiming)
    ensures SameShape(tasks, Replace(tasks, u), claiming)
  {
    var k := IndexOf(tasks, u.id);
  }

  ghost predicate KeepsShape(g: Graph, op: Op, r: Result<Mutation, ErrorCode>) {
    r.Ok? ==> SameShape(g.tasks, r.value.graph.tasks, op.Claim?)
  }

  lemma RunsKeepShape(limits: Limits, g: Graph, op: Op)
    requires UniqueIds(g.tasks)
    ensures op.Claim? ==> KeepsShape(g, op, ReduceClaim(limits, g, op))
    ensures op.Progress? ==> KeepsShape(g, op, ReduceProgress(g, op))
  {
    if op.Claim? && ReduceClaim(limits, g, op).Ok? {
      ReplaceShape(g.tasks, ClaimedTask(g, Find(g.tasks, op.taskId).value, op.schedulerId, op.leaseId, op.now), true);
    }
    if op.Progress? && ReduceProgress(g, op).Ok? {
      ReplaceShape(g.tasks, RequireFenced(g.tasks, op.run).value, false);
    }
  }

  lemma RefreshShape(xs: seq<Task>, ys: seq<Task>)
    requires SameShape(xs, ys, false)
    ensures SameShape(xs, Refresh(ys), false)
  {
    forall i | 0 <= i < |xs|
      ensures SameLinks(xs[i], Refresh(ys)[i]) && Moves(xs[i], Refresh(ys)[i], false)
    {
      assert Moves(xs[i], ys[i], false);
    }
  }

  lemma SuccessKeepsShape(g: Graph, op: Op)
    requires UniqueIds(g.tasks) && op.Succeed?
    ensures KeepsShape(g, op, ReduceSucceed(g, op))
  {
    if ReduceSucceed(g, op).Ok? {
      var t := RequireFenced(g.tasks, op.run).value;
      var u := CompletedTask(t, op.run, op.outputRefs, AssessFreshness(t.actionBinding, g.actionSeq).value, op.now);
      ReplaceShape(g.tasks, u, false);
      RefreshShape(g.tasks, Replace(g.tasks, u));
    }
  }

  lemma BrokenRunsKeepShape(g: Graph, op: Op)
    requires UniqueIds(g.tasks)
    ensures op.Fail? ==> KeepsShape(g, op, ReduceFail(g, op))
    ensures op.Abort? ==> KeepsShape(g, op, ReduceAbort(g, op))
    ensures op.ExpireLease? ==> KeepsShape(g, op, ReduceExpire(g, op))
  {
    if op.Fail? && ReduceFail(g, op).Ok? {
      var t := RequireFenced(g.tasks, op.run).value;
      var error := MapRunnerError(op.error, t.id, op.now);
      ReplaceShape(g.tasks, RetriedTask(t, op.run, error, op.now, op.nextAttemptAt), false);
      ReplaceShape(g.tasks, FailedTask(t, op.run, error, op.now), false);
    }
    if op.Abort? && ReduceAbort(g, op).Ok? {
      var t := RequireFenced(g.tasks, op.run).value;
      var bySession := t.cancellation.Some? && t.cancellation.value.reason == SessionAbort;
      ReplaceShape(g.tasks, AbortedTask(t, op.run, CancelError(bySession, t.id, op.now), op.now), false);
    }
    if op.ExpireLease? && ReduceExpire(g, op).Ok? {
      var t := RequireRunning(g.tasks, op.run.taskId).value;
      ReplaceShape(g.tasks,
          RecoveredTask(t, op.run, DispositionOf(t) != RequeueReadOnly, RecoveryError(t, op.now), op.now), false);
    }
  }

  lemma CancellationsKeepShape(g: Graph, op: Op)
    requires UniqueIds(g.tasks)
    ensures op.CancelQueued? ==> KeepsShape(g, op, ReduceCancelQueued(g, op))
    ensures op.RequestCancel? ==> KeepsShape(g, op, ReduceRequestCancel(g, op))
  {
    if op.CancelQueued? && ReduceCancelQueued(g, op).Ok? {
      var t := Find(g.tasks, op.taskId).value;
      ReplaceShape(g.tasks,
          CancelledTask(t, Cancellation(op.requestId, op.now, op.reason),
                        CancelError(op.reason == SessionAbort, t.id, op.now), op.now), false);
    }
    if op.RequestCancel? && ReduceRequestCancel(g, op).Ok? {
      var t := RequireRunning(g.tasks, op.taskId).value;
      ReplaceShape(g.tasks, t.(cancellation := Some(Cancellation(op.requestId, op.now, op.reason))), false);
    }
  }

  /** Only `spawn` touches identifiers and links. */
  lemma OtherReducersKeepShape(limits: Limits, g: Graph, op: Op)
    requires UniqueIds(g.tasks) && !op.Spawn?
    ensures KeepsShape(g, op, Reduce(limits, g, op))
  {
    if op.Succeed? { SuccessKeepsShape(g, op); }
    RunsKeepShape(limits, g, op);
    BrokenRunsKeepShape(g, op);
    CancellationsKeepShape(g, op);
  }

  /** Every reducer keeps the links inverse, closed and acyclic. */
  lemma ReduceKeepsLinks(limits: Limits, g: Graph, op: Op)
    requires LinkedGraph(g.tasks) && Reduce(limits, g, op).Ok?
    ensures LinkedGraph(Reduce(limits, g, op).value.graph.tasks)
  {
    if op.Spawn? {
      AddTaskKeepsLinkedGraph(g.tasks, CreateTask(op.input, op.now));
    } else {
      OtherReducersKeepShape(limits, g, op);
      SameLinksKeepLinkedGraph(g.tasks, Reduce(limits, g, op).value.graph.tasks);
    }
  }

  lemma LiftTasks(xs: seq<Task>, ys: seq<Task>, used: set<Id>, more: set<Id>, clock: nat)
    requires TasksInv(xs, used, clock) && |xs| == |ys|
    requires forall i | 0 <= i < |xs| :: SameDefinition(xs[i], ys[i]) && TaskInv(ys[i])
    requires forall i | 0 <= i < |xs| :: LeaseIds(ys[i]) == LeaseIds(xs[i])
    ensures TasksInv(ys, used + more, clock)
  {
  }

  lemma SameAnnouncedIds(xs: seq<Task>, ys: seq<Task>)
    requires |xs| == |ys|
    requires forall i | 0 <= i < |xs| :: xs[i].id == ys[i].id && Announced(xs[i]) == Announced(ys[i])
    ensures AnnouncedIds(ys) == AnnouncedIds(xs)
  {
  }

  lemma OneMoreAnnouncedId(xs: seq<Task>, ys: seq<Task>, n: nat)
    requires |xs| == |ys| && n < |xs| && !Announced(xs[n]) && Announced(ys[n]) && UniqueIds(xs)
    requires forall i | 0 <= i < |xs| :: xs[i].id == ys[i].id
    requires forall i | 0 <= i < |xs| && i != n :: Announced(xs[i]) == Announced(ys[i])
    ensures AnnouncedIds(ys) == AnnouncedIds(xs) + {xs[n].id} && xs[n].id !in AnnouncedIds(xs)
  {
  }

  /** The outbox is untouched and no task becomes announced. */
  lemma LiftOutbox(xs: seq<Task>, ys: seq<Task>, outbox: seq<OutboxEntry>, used: set<Id>, more: set<Id>)
    requires OutboxInv(xs, outbox, used) && AnnouncedIds(ys) == AnnouncedIds(xs)
    ensures OutboxInv(ys, outbox, used + more)
  {
  }

  /** One more task is announced, and its entry is appended. */
  lemma LiftAnnouncement(xs: seq<Task>, ys: seq<Task>, outbox: seq<OutboxEntry>, entry: OutboxEntry, used: set<Id>)
    requires OutboxInv(xs, outbox, used)
    requires AnnouncedIds(ys) == AnnouncedIds(xs) + {entry.notification.taskId}
    requires entry.notification.taskId !in AnnouncedIds(xs)
    requires entry.notification.notificationId == NotificationFor(entry.sourceEventId)
    requires entry.receipt.None? && entry.sourceEventId !in used
    ensures OutboxInv(ys, outbox + [entry], used + {entry.sourceEventId})
  {
    var all := outbox + [entry];
    assert EntryTasks(all) == EntryTasks(outbox) + {entry.notification.taskId} by {
      assert all[|outbox|] == entry;
      assert forall k | 0 <= k < |outbox| :: all[k] == outbox[k];
    }
    forall k | 0 <= k < |outbox|
      ensures outbox[k].notification.taskId != entry.notification.taskId
    {
      assert outbox[k].notification.taskId in EntryTasks(outbox);
    }
  }

  lemma ReplaceAt(tasks: seq<Task>, k: nat, t: Task)
    requires k < |tasks| && tasks[k].id == t.id
    requires forall i | 0 <= i < |tasks| && i != k :: tasks[i].id != t.id
    ensures Replace(tasks, t) == tasks[k := t]
  {
  }

  // ---------------------------------------------------------------- single tasks

  lemma CloseLast(attempts: seq<AttemptRecord>, leaseId: Id, state: AttemptState)
    requires attempts != [] && attempts[|attempts| - 1].runIdentity.leaseId == leaseId
    requires forall j, k | 0 <= j < k < |attempts| :: attempts[j].runIdentity.leaseId != attempts[k].runIdentity.leaseId
    ensures CloseRecord(attempts, leaseId, state)
         == attempts[|attempts| - 1 := attempts[|attempts| - 1].(state := state)]
  {
  }

  lemma SameLeaseIds(t: Task, u: Task)
    requires |t.attempts| == |u.attempts|
    requires forall k | 0 <= k < |t.attempts| :: t.attempts[k].runIdentity == u.attempts[k].runIdentity
    ensures LeaseIds(t) == LeaseIds(u)
  {
    forall x
      ensures x in LeaseIds(t) <==> x in LeaseIds(u)
    {
      if x in LeaseIds(t) {
        var k :| 0 <= k < |t.attempts| && t.attempts[k].runIdentity.leaseId == x;
        assert u.attempts[k] in u.attempts;
      }
      if x in LeaseIds(u) {
        var k :| 0 <= k < |u.attempts| && u.attempts[k].runIdentity.leaseId == x;
        assert t.attempts[k] in t.attempts;
      }
    }
  }

  lemma SameAttempts(t: Task, u: Task)
    requires t.attempts == u.attempts
    ensures LeaseIds(t) == LeaseIds(u)
  {
  }

  /** Leaving `running` closes exactly the record of the run, into the given state. */
  lemma LeavingClosesLast(t: Task, run: RunIdentity, status: Status, at: Option<Time>, state: AttemptState)
    requires TaskInv(t) && RunsAs(t, run) && state != InProgress
    ensures
      var u := Leave(t, run, status, at, state);
      && u.attempts == t.attempts[|t.attempts| - 1 := t.attempts[|t.attempts| - 1].(state := state)]
      && LeaseIds(u) == LeaseIds(t)
      && RecordsInv(u) && LastState(u) == state
  {
    CloseLast(t.attempts, run.leaseId, state);
    SameLeaseIds(t, Leave(t, run, status, at, state));
  }

  lemma ClaimedLeaseIds(g: Graph, t: Task, schedulerId: Id, leaseId: Id, now: Time)
    ensures LeaseIds(ClaimedTask(g, t, schedulerId, leaseId, now)) == LeaseIds(t) + {leaseId}
  {
    var u := ClaimedTask(g, t, schedulerId, leaseId, now);
    assert forall r :: r in u.attempts <==> r in t.attempts || r == u.attempts[|t.attempts|];
  }

  lemma ClaimedTaskInv(g: Graph, t: Task, schedulerId: Id, leaseId: Id, now: Time)
    requires TaskInv(t) && t.status == Pending && leaseId !in LeaseIds(t)
    ensures
      var u := ClaimedTask(g, t, schedulerId, leaseId, now);
      && SameDefinition(t, u) && SameLinks(t, u) && TaskInv(u) && TaskEvolves(t, u)
      && LeaseIds(u) == LeaseIds(t) + {leaseId} && !Announced(t) && !Announced(u)
  {
    forall k | 0 <= k < |t.attempts|
      ensures t.attempts[k].runIdentity.leaseId != leaseId
    {
      assert t.attempts[k] in t.attempts;
    }
    ClaimedLeaseIds(g, t, schedulerId, leaseId, now);
  }

  /** `u` may take the place of `t`. */
  ghost predicate MayReplace(t: Task, u: Task) {
    SameDefinition(t, u) && SameLinks(t, u) && TaskInv(u) && TaskEvolves(t, u) && LeaseIds(u) == LeaseIds(t)
  }

  // However a run ends, the task it leaves behind is well formed and may replace the running one.

  lemma LeavingCompleted(t: Task, run: RunIdentity, refs: OutputRefs, freshness: Freshness, now: Time)
    requires TaskInv(t) && RunsAs(t, run)
    ensures
      var u := CompletedTask(t, run, refs, freshness, now);
      MayReplace(t, u) && !Announced(t) && Announced(u)
  {
    LeavingClosesLast(t, run, Completed, Some(now), Succeeded(now));
    var u := CompletedTask(t, run, refs, freshness, now);
    assert u.outputs == OutputsFor(refs, run, freshness);
    SameLeaseIds(t, u);
  }

  lemma LeavingFailed(t: Task, run: RunIdentity, error: ContractError, now: Time)
    requires TaskInv(t) && RunsAs(t, run)
    ensures
      var u := FailedTask(t, run, error, now);
      MayReplace(t, u) && !Announced(t) && Announced(u)
  {
    LeavingClosesLast(t, run, Failed, Some(now), AttemptFailed(now, error));
    SameLeaseIds(t, FailedTask(t, run, error, now));
  }

  lemma LeavingRetried(t: Task, run: RunIdentity, error: ContractError, now: Time, next: Time)
    requires TaskInv(t) && RunsAs(t, run) && t.attempt < t.maxAttempts
    ensures
      var u := RetriedTask(t, run, error, now, next);
      MayReplace(t, u) && !Announced(t) && !Announced(u)
  {
    LeavingClosesLast(t, run, Pending, t.terminalAt, AttemptFailed(now, error));
    SameLeaseIds(t, RetriedTask(t, run, error, now, next));
  }

  lemma LeavingAborted(t: Task, run: RunIdentity, error: ContractError, now: Time)
    requires TaskInv(t) && RunsAs(t, run)
    ensures
      var u := AbortedTask(t, run, error, now);
      MayReplace(t, u) && !Announced(t) && !Announced(u)
  {
    LeavingClosesLast(t, run, Killed, Some(now), Aborted(now, error));
    SameLeaseIds(t, AbortedTask(t, run, error, now));
  }

  lemma LeavingExpired(t: Task, run: RunIdentity, fails: bool, error: ContractError, now: Time)
    requires TaskInv(t) && RunsAs(t, run) && (fails || t.attempt < t.maxAttempts)
    ensures
      var u := RecoveredTask(t, run, fails, error, now);
      MayReplace(t, u) && !Announced(t) && Announced(u) == fails
  {
    LeavingClosesLast(t, run, if fails then Failed else Pending, if fails then Some(now) else t.terminalAt,
                      Expired(now, error));
    SameAttempts(Leave(t, run, if fails then Failed else Pending, if fails then Some(now) else t.terminalAt,
                       Expired(now, error)),
                 RecoveredTask(t, run, fails, error, now));
  }

  lemma CancelledTaskInv(t: Task, cancellation: Cancellation, error: ContractError, now: Time)
    requires TaskInv(t) && !Terminal(t.status)
    ensures t.status != Running ==>
              MayReplace(t, CancelledTask(t, cancellation, error, now))
                && Announced(CancelledTask(t, cancellation, error, now))
    ensures MayReplace(t, t.(cancellation := Some(cancellation)))
    ensures !Announced(t) && !Announced(t.(cancellation := Some(cancellation)))
  {
    SameLeaseIds(t, CancelledTask(t, cancellation, error, now));
    SameLeaseIds(t, t.(cancellation := Some(cancellation)));
  }

  // ---------------------------------------------------------------- reducers, one by one

  /** Identifiers the transaction makes up. */
  function FreshIds(op: Op): set<Id> {
    if op.Claim? then {op.eventId, op.leaseId} else {op.eventId}
  }

  /** The UUIDs are new, and a spawned task is normalised against a clock that has not run ahead. */
  ghost predicate Admissible(g: Graph, used: set<Id>, op: Op) {
    && FreshIds(op) !! used
    && (op.Claim? ==> op.leaseId != op.eventId)
    && (op.Spawn? ==>
          && 1 <= op.input.maxAttempts
          && (op.input.actionBinding.BrowserAction? ==> op.input.actionBinding.sourceActionSeq <= g.actionSeq))
  }

  /** One task changes in place; the outbox stays. */
  lemma QuietChange(g: Graph, used: set<Id>, more: set<Id>, k: nat, u: Task)
    requires GraphInv(g, used) && k < |g.tasks| && MayReplace(g.tasks[k], u)
    requires Announced(g.tasks[k]) == Announced(u)
    ensures
      var h := g.(tasks := Replace(g.tasks, u));
      GraphInv(h, used + more) && GraphEvolves(g, h)
  {
    var ys := Replace(g.tasks, u);
    ReplaceAt(g.tasks, k, u);
    LiftTasks(g.tasks, ys, used, more, g.actionSeq);
    SameAnnouncedIds(g.tasks, ys);
    LiftOutbox(g.tasks, ys, g.outbox, used, more);
  }

  lemma ReplacedEvolves(g: Graph, k: nat, u: Task, outbox: seq<OutboxEntry>)
    requires k < |g.tasks| && TaskEvolves(g.tasks[k], u) && g.outbox <= outbox
    requires Replace(g.tasks, u) == g.tasks[k := u]
    ensures GraphEvolves(g, g.(tasks := Replace(g.tasks, u), outbox := outbox))
  {
  }

  /** One task changes in place and is announced. */
  lemma AnnouncedChange(g: Graph, used: set<Id>, k: nat, u: Task, eventId: Id, now: Time, body: NotificationBody)
    requires GraphInv(g, used) && k < |g.tasks| && MayReplace(g.tasks[k], u) && eventId !in used
    requires !Announced(g.tasks[k]) && Announced(u)
    ensures
      var h := g.(tasks := Replace(g.tasks, u), outbox := Announce(g, u.id, eventId, now, body));
      GraphInv(h, used + {eventId}) && GraphEvolves(g, h)
  {
    var ys := Replace(g.tasks, u);
    ReplaceAt(g.tasks, k, u);
    LiftTasks(g.tasks, ys, used, {eventId}, g.actionSeq);
    OneMoreAnnouncedId(g.tasks, ys, k);
    ReplacedEvolves(g, k, u, Announce(g, u.id, eventId, now, body));
    var entry := OutboxEntry(eventId, g.nextEventSeq, NotificationOf(g, u.id, eventId, now, body), None);
    LiftAnnouncement(g.tasks, ys, g.outbox, entry, used);
  }

  lemma FencedTask(g: Graph, used: set<Id>, run: RunIdentity) returns (k: nat)
    requires GraphInv(g, used) && RequireFenced(g.tasks, run).Ok?
    ensures k < |g.tasks| && RequireFenced(g.tasks, run) == Ok(g.tasks[k])
    ensures g.tasks[k].id == run.taskId && RunsAs(g.tasks[k], run) && TaskInv(g.tasks[k])
  {
    k := IndexOf(g.tasks, run.taskId);
  }

  lemma RefreshedTask(tasks: seq<Task>, t: Task)
    requires TaskInv(t)
    ensures
      var u := RefreshTask(tasks, t);
      && SameDefinition(t, u) && SameLinks(t, u) && TaskInv(u) && TaskEvolves(t, u)
      && LeaseIds(u) == LeaseIds(t) && Announced(u) == Announced(t)
  {
    SameLeaseIds(t, RefreshTask(tasks, t));
  }

  /** Refreshing dependency blocks only releases or relabels blocked tasks. */
  lemma RefreshKeeps(g: Graph, used: set<Id>)
    requires GraphInv(g, used)
    ensures
      var h := g.(tasks := Refresh(g.tasks));
      GraphInv(h, used) && GraphEvolves(g, h)
  {
    forall i | 0 <= i < |g.tasks| {
      RefreshedTask(g.tasks, g.tasks[i]);
    }
    LiftTasks(g.tasks, Refresh(g.tasks), used, {}, g.actionSeq);
    SameAnnouncedIds(g.tasks, Refresh(g.tasks));
    LiftOutbox(g.tasks, Refresh(g.tasks), g.outbox, used, {});
    assert used + {} == used;
  }

  ghost predicate Keeps(g: Graph, used: set<Id>, op: Op, r: Result<Mutation, ErrorCode>) {
    r.Ok? ==> GraphInv(r.value.graph, used + FreshIds(op)) && GraphEvolves(g, r.value.graph)
  }

  /** The claimed task takes the place of the pending one. */
  lemma ClaimChange(g: Graph, used: set<Id>, k: nat, u: Task, leaseId: Id, more: set<Id>)
    requires GraphInv(g, used) && k < |g.tasks| && leaseId in more && leaseId !in used
    requires
      var t := g.tasks[k];
      && SameDefinition(t, u) && SameLinks(t, u) && TaskInv(u) && TaskEvolves(t, u)
      && LeaseIds(u) == LeaseIds(t) + {leaseId} && Announced(t) == Announced(u)
    ensures
      var h := g.(tasks := Replace(g.tasks, u));
      GraphInv(h, used + more) && GraphEvolves(g, h)
  {
    var ys := Replace(g.tasks, u);
    ReplaceAt(g.tasks, k, u);
    ClaimTasksInv(g.tasks, used, g.actionSeq, k, u, leaseId, more);
    SameAnnouncedIds(g.tasks, ys);
    LiftOutbox(g.tasks, ys, g.outbox, used, more);
  }

  lemma ClaimTasksInv(xs: seq<Task>, used: set<Id>, clock: nat, k: nat, u: Task, leaseId: Id, more: set<Id>)
    requires TasksInv(xs, used, clock) && k < |xs| && leaseId in more && leaseId !in used
    requires SameDefinition(xs[k], u) && TaskInv(u) && LeaseIds(u) == LeaseIds(xs[k]) + {leaseId}
    ensures TasksInv(xs[k := u], used + more, clock)
  {
  }

  lemma ClaimKeeps(limits: Limits, g: Graph, used: set<Id>, op: Op)
    requires op.Claim? && GraphInv(g, used) && Admissible(g, used, op)
    ensures Keeps(g, used, op, ReduceClaim(limits, g, op))
  {
    if ReduceClaim(limits, g, op).Ok? {
      var k := ClaimedIndex(limits, g, op);
      ClaimMutationKeeps(g, used, op, k);
    }
  }

  lemma ClaimedIndex(limits: Limits, g: Graph, op: Op) returns (k: nat)
    requires op.Claim? && UniqueIds(g.tasks) && ReduceClaim(limits, g, op).Ok?
    ensures k < |g.tasks| && g.tasks[k].status == Pending && g.tasks[k].id == op.taskId
    ensures ReduceClaim(limits, g, op) == Ok(ClaimMutation(g, g.tasks[k], op))
  {
    k := IndexOf(g.tasks, op.taskId);
  }

  lemma ClaimMutationKeeps(g: Graph, used: set<Id>, op: Op, k: nat)
    requires op.Claim? && GraphInv(g, used) && Admissible(g, used, op) && k < |g.tasks| && g.tasks[k].status == Pending
    ensures
      var m := ClaimMutation(g, g.tasks[k], op);
      GraphInv(m.graph, used + FreshIds(op)) && GraphEvolves(g, m.graph)
  {
    ClaimedTaskInv(g, g.tasks[k], op.schedulerId, op.leaseId, op.now);
    ClaimChange(g, used, k, ClaimedTask(g, g.tasks[k], op.schedulerId, op.leaseId, op.now), op.leaseId, FreshIds(op));
  }

  lemma ProgressKeeps(g: Graph, used: set<Id>, op: Op)
    requires op.Progress? && GraphInv(g, used) && Admissible(g, used, op)
    ensures Keeps(g, used, op, ReduceProgress(g, op))
  {
    if ReduceProgress(g, op).Ok? {
      var k := FencedTask(g, used, op.run);
      QuietChange(g, used, {op.eventId}, k, g.tasks[k]);
    }
  }

  lemma SucceedKeeps(g: Graph, used: set<Id>, op: Op)
    requires op.Succeed? && GraphInv(g, used) && Admissible(g, used, op)
    ensures Keeps(g, used, op, ReduceSucceed(g, op))
  {
    if ReduceSucceed(g, op).Ok? {
      var k := FencedTask(g, used, op.run);
      var t := g.tasks[k];
      var freshness := AssessFreshness(t.actionBinding, g.actionSeq).value;
      LeavingCompleted(t, op.run, op.outputRefs, freshness, op.now);
      var u := CompletedTask(t, op.run, op.outputRefs, freshness, op.now);
      var body := ReportCompleted(op.run, op.outputRefs, freshness);
      AnnouncedChange(g, used, k, u, op.eventId, op.now, body);
      var h := g.(tasks := Replace(g.tasks, u), outbox := Announce(g, t.id, op.eventId, op.now, body));
      RefreshKeeps(h, used + {op.eventId});
      GraphEvolvesTransitive(g, h, h.(tasks := Refresh(h.tasks)));
    }
  }

  lemma FailKeeps(g: Graph, used: set<Id>, op: Op)
    requires op.Fail? && GraphInv(g, used) && Admissible(g, used, op)
    ensures Keeps(g, used, op, ReduceFail(g, op))
  {
    if ReduceFail(g, op).Ok? {
      var k := FencedTask(g, used, op.run);
      var t := g.tasks[k];
      var error := MapRunnerError(op.error, g.tasks[k].id, op.now);
      if op.error.retrySameTask && g.tasks[k].attempt < g.tasks[k].maxAttempts {
        RetryChange(g, used, op, k, error, op.nextAttemptAt);
      } else {
        FailChange(g, used, op, k, error);
      }
    }
  }

  lemma FailChange(g: Graph, used: set<Id>, op: Op, k: nat, error: ContractError)
    requires op.Fail? && GraphInv(g, used) && op.eventId !in used
    requires k < |g.tasks| && RunsAs(g.tasks[k], op.run)
    ensures
      var m := FailMutation(g, g.tasks[k], op, error);
      GraphInv(m.graph, used + {op.eventId}) && GraphEvolves(g, m.graph)
  {
    LeavingFailed(g.tasks[k], op.run, error, op.now);
    AnnouncedChange(g, used, k, FailedTask(g.tasks[k], op.run, error, op.now), op.eventId, op.now,
                    ReportFailed(false, RanAs(op.run), error));
  }

  lemma RetryChange(g: Graph, used: set<Id>, op: Op, k: nat, error: ContractError, next: Time)
    requires op.Fail? && GraphInv(g, used) && op.eventId !in used
    requires k < |g.tasks| && RunsAs(g.tasks[k], op.run) && g.tasks[k].attempt < g.tasks[k].maxAttempts
    ensures
      var m := RetryMutation(g, g.tasks[k], op, error, next);
      GraphInv(m.graph, used + {op.eventId}) && GraphEvolves(g, m.graph)
  {
    LeavingRetried(g.tasks[k], op.run, error, op.now, next);
    QuietChange(g, used, {op.eventId}, k, RetriedTask(g.tasks[k], op.run, error, op.now, next));
  }

  lemma AbortKeeps(g: Graph, used: set<Id>, op: Op)
    requires op.Abort? && GraphInv(g, used) && Admissible(g, used, op)
    ensures Keeps(g, used, op, ReduceAbort(g, op))
  {
    if ReduceAbort(g, op).Ok? {
      var k := FencedTask(g, used, op.run);
      var t := g.tasks[k];
      var error := CancelError(t.cancellation.Some? && t.cancellation.value.reason == SessionAbort, t.id, op.now);
      LeavingAborted(t, op.run, error, op.now);
      QuietChange(g, used, {op.eventId}, k, AbortedTask(t, op.run, error, op.now));
    }
  }

  lemma ExpireKeeps(g: Graph, used: set<Id>, op: Op)
    requires op.ExpireLease? && GraphInv(g, used) && Admissible(g, used, op)
    ensures Keeps(g, used, op, ReduceExpire(g, op))
  {
    if ReduceExpire(g, op).Ok? {
      var k := IndexOf(g.tasks, op.run.taskId);
      var t := g.tasks[k];
      var error := RecoveryError(t, op.now);
      LeavingExpired(t, op.run, DispositionOf(t) != RequeueReadOnly, error, op.now);
      if DispositionOf(t) != RequeueReadOnly {
        AnnouncedChange(g, used, k, RecoveredTask(t, op.run, true, error, op.now), op.eventId, op.now,
                        ReportFailed(false, RanAs(op.run), error));
      } else {
        QuietChange(g, used, {op.eventId}, k, RecoveredTask(t, op.run, false, error, op.now));
      }
    }
  }

  lemma CancelQueuedKeeps(g: Graph, used: set<Id>, op: Op)
    requires op.CancelQueued? && GraphInv(g, used) && Admissible(g, used, op)
    ensures Keeps(g, used, op, ReduceCancelQueued(g, op))
  {
    if ReduceCancelQueued(g, op).Ok? {
      var k := IndexOf(g.tasks, op.taskId);
      var error := CancelError(op.reason == SessionAbort, op.taskId, op.now);
      var cancellation := Cancellation(op.requestId, op.now, op.reason);
      CancelledTaskInv(g.tasks[k], cancellation, error, op.now);
      AnnouncedChange(g, used, k, CancelledTask(g.tasks[k], cancellation, error, op.now), op.eventId, op.now,
                      ReportFailed(true, BeforeRun(op.requestId), error));
    }
  }

  lemma RequestCancelKeeps(g: Graph, used: set<Id>, op: Op)
    requires op.RequestCancel? && GraphInv(g, used) && Admissible(g, used, op)
    ensures Keeps(g, used, op, ReduceRequestCancel(g, op))
  {
    if ReduceRequestCancel(g, op).Ok? {
      var k := IndexOf(g.tasks, op.taskId);
      var cancellation := Cancellation(op.requestId, op.now, op.reason);
      CancelledTaskInv(g.tasks[k], cancellation, CancelError(false, op.taskId, op.now), op.now);
      QuietChange(g, used, {op.eventId}, k, g.tasks[k].(cancellation := Some(cancellation)));
    }
  }

  lemma AcknowledgeKeeps(g: Graph, used: set<Id>, op: Op)
    requires op.Acknowledge? && GraphInv(g, used) && Admissible(g, used, op)
    ensures Keeps(g, used, op, ReduceAcknowledge(g, op))
  {
    if ReduceAcknowledge(g, op).Ok? {
      ReceiptOutbox(g.tasks, g.outbox, op.receipt, used, op.eventId);
      LiftTasks(g.tasks, g.tasks, used, {op.eventId}, g.actionSeq);
    }
  }

  lemma ReceiptOutbox(tasks: seq<Task>, outbox: seq<OutboxEntry>, receipt: Acknowledgement, used: set<Id>, eventId: Id)
    requires OutboxInv(tasks, outbox, used)
    requires var e := FindEntry(outbox, receipt.notificationId); e.Some? && e.value.receipt.None?
    ensures OutboxInv(tasks, Receipted(outbox, receipt), used + {eventId})
    ensures forall j | 0 <= j < |outbox| :: EntryEvolves(outbox[j], Receipted(outbox, receipt)[j])
  {
    var k :| 0 <= k < |outbox| && outbox[k] == FindEntry(outbox, receipt.notificationId).value;
    forall j | 0 <= j < |outbox|
      ensures outbox[j].notification.notificationId == receipt.notificationId ==> j == k
    {
      assert EntryInv(outbox[j], used) && EntryInv(outbox[k], used);
    }
    assert EntryTasks(Receipted(outbox, receipt)) == EntryTasks(outbox);
  }

  lemma AdvanceKeeps(g: Graph, used: set<Id>, op: Op)
    requires op.AdvanceClock? && GraphInv(g, used) && Admissible(g, used, op)
    ensures Keeps(g, used, op, ReduceAdvance(g, op))
  {
    LiftTasks(g.tasks, g.tasks, used, {op.eventId}, g.actionSeq);
    LiftOutbox(g.tasks, g.tasks, g.outbox, used, {op.eventId});
  }

  lemma SpawnedTask(input: TaskInput, now: Time)
    requires 1 <= input.maxAttempts
    ensures TaskInv(CreateTask(input, now)) && LeaseIds(CreateTask(input, now)) == {}
  {
  }

  lemma SpawnAdds(limits: Limits, g: Graph, op: Op)
    requires op.Spawn? && ReduceSpawn(limits, g, op).Ok?
    ensures AddTask(g.tasks, CreateTask(op.input, op.now)) == Ok(ReduceSpawn(limits, g, op).value.graph.tasks)
  {
    var added := AddTask(g.tasks, CreateTask(op.input, op.now));
    assert added.Ok?;
  }

  lemma SpawnKeeps(limits: Limits, g: Graph, used: set<Id>, op: Op)
    requires op.Spawn? && GraphInv(g, used) && LinkedGraph(g.tasks) && Admissible(g, used, op)
    ensures Keeps(g, used, op, ReduceSpawn(limits, g, op))
  {
    if ReduceSpawn(limits, g, op).Ok? {
      var t := CreateTask(op.input, op.now);
      SpawnedTask(op.input, op.now);
      AdditionShape(g.tasks, t);
      AppendedTask(g, AddTask(g.tasks, t).value, t, used, op.eventId);
    }
  }

  lemma AdditionShape(tasks: seq<Task>, t: Task)
    requires LinkedGraph(tasks) && Distinct(t.blocks) && Distinct(t.blockedBy) && AddTask(tasks, t).Ok?
    ensures
      var r := AddTask(tasks, t).value;
      && |r| == |tasks| + 1 && UniqueIds(r) && r[|tasks|] == t
      && forall i | 0 <= i < |tasks| :: r[i] == Extended(tasks[i], t) && tasks[i].idempotencyKey != t.idempotencyKey
  {
    AddTaskKeepsLinkedGraph(tasks, t);
    SyncOfAddition(tasks, t);
    forall i | 0 <= i < |tasks|
      ensures tasks[i].idempotencyKey != t.idempotencyKey
    {
      assert tasks[i] in tasks;
    }
  }

  lemma AppendedTask(g: Graph, r: seq<Task>, t: Task, used: set<Id>, eventId: Id)
    requires GraphInv(g, used) && |r| == |g.tasks| + 1 && UniqueIds(r)
    requires r[|g.tasks|] == t && TaskInv(t) && LeaseIds(t) == {} && !Announced(t)
    requires t.actionBinding.BrowserAction? ==> t.actionBinding.sourceActionSeq <= g.actionSeq
    requires forall i | 0 <= i < |g.tasks| ::
               r[i] == Extended(g.tasks[i], t) && g.tasks[i].idempotencyKey != t.idempotencyKey
    ensures
      var h := g.(tasks := r);
      GraphInv(h, used + {eventId}) && GraphEvolves(g, h)
  {
    forall i | 0 <= i < |g.tasks|
      ensures TaskInv(r[i]) && LeaseIds(r[i]) == LeaseIds(g.tasks[i])
      ensures TaskEvolves(g.tasks[i], r[i]) && Announced(r[i]) == Announced(g.tasks[i])
      ensures SameDefinition(g.tasks[i], r[i])
    {
      ExtendedTask(g.tasks[i], t);
    }
    AppendTasksInv(g.tasks, r, used, g.actionSeq, eventId);
    SameAnnouncedIds(g.tasks, r[..|g.tasks|]);
    assert AnnouncedIds(r) == AnnouncedIds(r[..|g.tasks|]);
    LiftOutbox(g.tasks, r, g.outbox, used, {eventId});
  }

  lemma ExtendedTask(s: Task, t: Task)
    requires TaskInv(s)
    ensures
      var u := Extended(s, t);
      && SameDefinition(s, u) && TaskInv(u) && LeaseIds(u) == LeaseIds(s)
      && TaskEvolves(s, u) && Announced(u) == Announced(s)
  {
    SameLeaseIds(s, Extended(s, t));
  }

  lemma AppendTasksInv(xs: seq<Task>, ys: seq<Task>, used: set<Id>, clock: nat, eventId: Id)
    requires TasksInv(xs, used, clock) && |ys| == |xs| + 1 && UniqueIds(ys)
    requires forall i | 0 <= i < |xs| ::
               SameDefinition(xs[i], ys[i]) && TaskInv(ys[i]) && LeaseIds(ys[i]) == LeaseIds(xs[i])
    requires var t := ys[|xs|];
             && TaskInv(t) && LeaseIds(t) == {}
             && (t.actionBinding.BrowserAction? ==> t.actionBinding.sourceActionSeq <= clock)
             && forall i | 0 <= i < |xs| :: xs[i].idempotencyKey != t.idempotencyKey
    ensures TasksInv(ys, used + {eventId}, clock)
  {
    var front := ys[..|xs|];
    assert ys == front + [ys[|xs|]];
    LiftTasks(xs, front, used, {eventId}, clock);
    AppendOne(front, ys[|xs|], used + {eventId}, clock);
  }

  lemma AppendOne(xs: seq<Task>, t: Task, used: set<Id>, clock: nat)
    requires TasksInv(xs, used, clock) && UniqueIds(xs + [t]) && TaskInv(t) && LeaseIds(t) == {}
    requires t.actionBinding.BrowserAction? ==> t.actionBinding.sourceActionSeq <= clock
    requires forall i | 0 <= i < |xs| :: xs[i].idempotencyKey != t.idempotencyKey
    ensures TasksInv(xs + [t], used, clock)
  {
  }

  /** Every reducer keeps the invariant and moves every task, record and outbox entry only forward. */
  lemma ReduceKeeps(limits: Limits, g: Graph, used: set<Id>, op: Op)
    requires GraphInv(g, used) && LinkedGraph(g.tasks) && Admissible(g, used, op)
    ensures Keeps(g, used, op, Reduce(limits, g, op))
  {
    match op
    case Spawn(_, _, _) => SpawnKeeps(limits, g, used, op);
    case Claim(_, _, _, _, _, _, _, _) => ClaimKeeps(limits, g, used, op);
    case Progress(_, _, _, _) => ProgressKeeps(g, used, op);
    case Succeed(_, _, _, _) => SucceedKeeps(g, used, op);
    case Fail(_, _, _, _, _) => FailKeeps(g, used, op);
    case Abort(_, _, _) => AbortKeeps(g, used, op);
    case ExpireLease(_, _, _) => ExpireKeeps(g, used, op);
    case CancelQueued(_, _, _, _, _) => CancelQueuedKeeps(g, used, op);
    case RequestCancel(_, _, _, _, _) => RequestCancelKeeps(g, used, op);
    case Acknowledge(_, _) => AcknowledgeKeeps(g, used, op);
    case AdvanceClock(_, _, _, _) => AdvanceKeeps(g, used, op);
  }
}
