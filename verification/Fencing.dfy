/**
 The two fences a transaction passes: the reducer's check of the run identity and the store's
 check of the lease expiry (packages/web-buddy/src/agents/task-scheduler.ts:699-709;
 packages/web-buddy/src/agents/task-graph-store.ts:153-217). Together they accept an outcome
 exactly while its own lease is current and unexpired, and they never reject anything else
 that the reducers produce.
 */
module Fencing {
  import opened Wrappers
  import opened Contracts
  import opened TaskGraph
  import opened Reducers
  import opened Invariants

  // ---------------------------------------------------------------- closed leases

  /** The lease belongs to a record of the graph that has already left `running`. */
  ghost predicate ClosedLease(g: Graph, leaseId: Id) {
    exists i, k | 0 <= i < |g.tasks| && 0 <= k < |g.tasks[i].attempts| ::
      g.tasks[i].attempts[k].runIdentity.leaseId == leaseId && g.tasks[i].attempts[k].state != InProgress
  }

  lemma ClosedLeaseRunsNothing(g: Graph, used: set<Id>, run: RunIdentity, j: nat)
    requires GraphInv(g, used) && ClosedLease(g, run.leaseId) && j < |g.tasks|
    ensures !RunsAs(g.tasks[j], run)
  {
    var i, k :| 0 <= i < |g.tasks| && 0 <= k < |g.tasks[i].attempts| &&
      g.tasks[i].attempts[k].runIdentity.leaseId == run.leaseId && g.tasks[i].attempts[k].state != InProgress;
    assert TaskInv(g.tasks[i]) && TaskInv(g.tasks[j]);
    if i == j {
      ClosedHereRunsNothing(g.tasks[i], run, k);
    } else {
      LeaseIsHere(g.tasks[i], k);
      RunHoldsLease(g.tasks[j], run);
      assert LeaseIds(g.tasks[if i < j then i else j]) !! LeaseIds(g.tasks[if i < j then j else i]);
    }
  }

  lemma LeaseIsHere(t: Task, k: nat)
    requires k < |t.attempts|
    ensures t.attempts[k].runIdentity.leaseId in LeaseIds(t)
  {
    assert t.attempts[k] in t.attempts;
  }

  lemma ClosedHereRunsNothing(t: Task, run: RunIdentity, k: nat)
    requires TaskInv(t) && k < |t.attempts| && t.attempts[k].runIdentity.leaseId == run.leaseId
    requires t.attempts[k].state != InProgress
    ensures !RunsAs(t, run)
  {
    RunHoldsLease(t, run);
  }

  /** A run in progress has exactly one record, and that record is open. */
  lemma RunHoldsLease(t: Task, run: RunIdentity)
    requires TaskInv(t)
    ensures RunsAs(t, run) ==> run.leaseId in LeaseIds(t)
    ensures RunsAs(t, run) ==>
              forall k | 0 <= k < |t.attempts| ::
                t.attempts[k].runIdentity.leaseId == run.leaseId ==> t.attempts[k].state == InProgress
  {
    if RunsAs(t, run) {
      assert t.attempts[|t.attempts| - 1] in t.attempts;
    }
  }

  lemma ClosedLeaseStaysClosed(g: Graph, h: Graph, leaseId: Id)
    requires GraphEvolves(g, h) && ClosedLease(g, leaseId)
    ensures ClosedLease(h, leaseId)
  {
    var i, k :| 0 <= i < |g.tasks| && 0 <= k < |g.tasks[i].attempts| &&
      g.tasks[i].attempts[k].runIdentity.leaseId == leaseId && g.tasks[i].attempts[k].state != InProgress;
    assert TaskEvolves(g.tasks[i], h.tasks[i]);
    assert h.tasks[i].attempts[k].runIdentity.leaseId == leaseId && h.tasks[i].attempts[k].state != InProgress;
  }

  predicate CarriesRun(op: Op) {
    op.Progress? || op.Succeed? || op.Fail? || op.Abort? || op.ExpireLease?
  }

  lemma RefusedUnlessRunning(limits: Limits, g: Graph, op: Op)
    requires CarriesRun(op)
    requires var t := Find(g.tasks, op.run.taskId); t.Some? ==> !RunsAs(t.value, op.run)
    ensures Reduce(limits, g, op).Err?
  {
  }

  /** An outcome under a closed lease is refused by the reducer, whatever it reports. */
  lemma ClosedLeaseIsRefused(limits: Limits, g: Graph, used: set<Id>, op: Op)
    requires GraphInv(g, used) && CarriesRun(op) && ClosedLease(g, op.run.leaseId)
    ensures Reduce(limits, g, op).Err?
  {
    if Find(g.tasks, op.run.taskId).Some? {
      var k := IndexOf(g.tasks, op.run.taskId);
      ClosedLeaseRunsNothing(g, used, op.run, k);
    }
    RefusedUnlessRunning(limits, g, op);
  }

  // ---------------------------------------------------------------- when a commit succeeds

  /** The task whose lease the transaction relies on. */
  function LeasedTask(op: Op): Id
    requires CarriesRun(op) || op.RequestCancel?
  {
    if op.RequestCancel? then op.taskId else op.run.taskId
  }

  /** The transaction needs a live lease, and its event would come after that lease's expiry. */
  predicate Late(g: Graph, op: Op) {
    && (CarriesRun(op) || op.RequestCancel?)
    && !op.ExpireLease?
    && var t := Find(g.tasks, LeasedTask(op));
       t.Some? && t.value.lease.Some? && t.value.lease.value.expiresAt < op.now
  }

  lemma FindAfter(xs: seq<Task>, ys: seq<Task>, k: nat, claiming: bool)
    requires UniqueIds(xs) && SameShape(xs, ys, claiming) && k < |xs|
    ensures Find(ys, xs[k].id) == Some(ys[k])
  {
    assert UniqueIds(ys);
    FindIsUnique(ys, k);
  }

  /** Leaving the fence aside, whatever a reducer builds through `finalize` is a valid mutation. */
  lemma OnlyTheFenceCanObject(limits: Limits, g: Graph, op: Op)
    requires Reduce(limits, g, op).Ok?
    ensures
      var m := Reduce(limits, g, op).value;
      ValidationError(g, m, g.identity.sessionId) == FenceError(g, m.graph, m.event)
  {
  }

  lemma ClaimPassesFence(limits: Limits, g: Graph, op: Op)
    requires op.Claim? && UniqueIds(g.tasks) && ReduceClaim(limits, g, op).Ok?
    ensures var m := ReduceClaim(limits, g, op).value; FenceError(g, m.graph, m.event).None?
  {
    var k := IndexOf(g.tasks, op.taskId);
    ClaimMutationPassesFence(g, k, op);
  }

  lemma ClaimMutationPassesFence(g: Graph, k: nat, op: Op)
    requires op.Claim? && UniqueIds(g.tasks) && k < |g.tasks| && g.tasks[k].status == Pending
    ensures var m := ClaimMutation(g, g.tasks[k], op); FenceError(g, m.graph, m.event).None?
  {
    var u := ClaimedTask(g, g.tasks[k], op.schedulerId, op.leaseId, op.now);
    ReplaceAt(g.tasks, k, u);
    FindIsUnique(g.tasks, k);
    FindIsUnique(g.tasks[k := u], k);
  }

  lemma FoundIsKnown(tasks: seq<Task>, id: Id)
    ensures Find(tasks, id).Some? ==> id in Ids(tasks)
  {
  }

  lemma SpawnPassesFence(limits: Limits, g: Graph, op: Op)
    requires op.Spawn? && LinkedGraph(g.tasks) && ReduceSpawn(limits, g, op).Ok?
    ensures var m := ReduceSpawn(limits, g, op).value; FenceError(g, m.graph, m.event).None?
  {
    var t := CreateTask(op.input, op.now);
    AdditionShape(g.tasks, t);
    FindIsUnique(AddTask(g.tasks, t).value, |g.tasks|);
    FoundIsKnown(g.tasks, t.id);
  }

  /** The reducer answered for a task that the graph has, with an event about it. */
  predicate About(g: Graph, r: Result<Mutation, ErrorCode>, id: Id) {
    r.Ok? ==>
      && !r.value.event.body.BrowserActionAdvanced? && r.value.graph.actionSeq == g.actionSeq
      && EventTask(r.value.event.body) == Some(id) && Find(g.tasks, id).Some?
  }

  /** ... and the event names the run that holds the lease of that task. */
  predicate AboutRun(g: Graph, op: Op, r: Result<Mutation, ErrorCode>, id: Id)
    requires CarriesRun(op) || op.RequestCancel?
  {
    && About(g, r, id)
    && (r.Ok? ==>
          && RunScoped(r.value.event.body) && !r.value.event.body.TaskClaimed?
          && (r.value.event.body.TaskLeaseExpired? <==> op.ExpireLease?)
          && r.value.event.occurredAt == op.now
          && Find(g.tasks, id).value.lease.Some?
          && RunsAs(Find(g.tasks, id).value, r.value.event.body.run))
  }

  lemma SuccessAboutRun(g: Graph, op: Op)
    ensures op.Succeed? ==> AboutRun(g, op, ReduceSucceed(g, op), op.run.taskId)
  {
  }

  lemma ProgressAboutRun(g: Graph, op: Op)
    ensures op.Progress? ==> AboutRun(g, op, ReduceProgress(g, op), op.run.taskId)
    ensures op.Abort? ==> AboutRun(g, op, ReduceAbort(g, op), op.run.taskId)
  {
  }

  lemma FailureAboutRun(g: Graph, op: Op)
    ensures op.Fail? ==> AboutRun(g, op, ReduceFail(g, op), op.run.taskId)
    ensures op.ExpireLease? ==> AboutRun(g, op, ReduceExpire(g, op), op.run.taskId)
    ensures op.RequestCancel? ==> AboutRun(g, op, ReduceRequestCancel(g, op), op.taskId)
  {
  }

  lemma FenceOnOneTask(g: Graph, m: Mutation, k: nat)
    requires UniqueIds(g.tasks) && SameShape(g.tasks, m.graph.tasks, false) && k < |g.tasks|
    requires About(g, Ok(m), g.tasks[k].id) && !m.event.body.TaskCreated? && !m.event.body.TaskClaimed?
    ensures !RunScoped(m.event.body) ==> FenceError(g, m.graph, m.event).None?
    ensures RunScoped(m.event.body) && RunsAs(g.tasks[k], m.event.body.run) ==>
              FenceError(g, m.graph, m.event)
              == if g.tasks[k].lease.value.expiresAt < m.event.occurredAt && !m.event.body.TaskLeaseExpired?
                 then Some(ErrorCode.LeaseExpired) else None
  {
    FindIsUnique(g.tasks, k);
    FindAfter(g.tasks, m.graph.tasks, k, false);
  }

  lemma CancelPassesFence(limits: Limits, g: Graph, op: Op)
    requires op.CancelQueued? && UniqueIds(g.tasks) && Reduce(limits, g, op).Ok?
    ensures var m := Reduce(limits, g, op).value; FenceError(g, m.graph, m.event).None?
  {
    OtherReducersKeepShape(limits, g, op);
    var k := IndexOf(g.tasks, op.taskId);
    FenceOnOneTask(g, Reduce(limits, g, op).value, k);
  }

  lemma AcknowledgePassesFence(limits: Limits, g: Graph, op: Op)
    requires op.Acknowledge? && UniqueIds(g.tasks) && Reduce(limits, g, op).Ok?
    ensures var m := Reduce(limits, g, op).value; FenceError(g, m.graph, m.event).None?
  {
    OtherReducersKeepShape(limits, g, op);
    var k := IndexOf(g.tasks, FindEntry(g.outbox, op.receipt.notificationId).value.notification.taskId);
    FenceOnOneTask(g, Reduce(limits, g, op).value, k);
  }

  lemma RunFence(limits: Limits, g: Graph, op: Op)
    requires (CarriesRun(op) || op.RequestCancel?) && UniqueIds(g.tasks) && Reduce(limits, g, op).Ok?
    ensures var m := Reduce(limits, g, op).value;
            FenceError(g, m.graph, m.event) == if Late(g, op) then Some(ErrorCode.LeaseExpired) else None
  {
    OtherReducersKeepShape(limits, g, op);
    ProgressAboutRun(g, op);
    SuccessAboutRun(g, op);
    FailureAboutRun(g, op);
    assert AboutRun(g, op, Reduce(limits, g, op), LeasedTask(op));
    RunFenceAt(g, op, Reduce(limits, g, op).value);
  }

  lemma RunFenceAt(g: Graph, op: Op, m: Mutation)
    requires (CarriesRun(op) || op.RequestCancel?) && UniqueIds(g.tasks)
    requires SameShape(g.tasks, m.graph.tasks, false) && AboutRun(g, op, Ok(m), LeasedTask(op))
    ensures FenceError(g, m.graph, m.event) == if Late(g, op) then Some(ErrorCode.LeaseExpired) else None
  {
    var k := IndexOf(g.tasks, LeasedTask(op));
    FenceOnOneTask(g, m, k);
  }

  /** A transaction commits exactly what its reducer built, except that the store turns late outcomes away. */
  lemma CommitCondition(limits: Limits, g: Graph, op: Op)
    requires LinkedGraph(g.tasks)
    ensures Commit(limits, g, op) ==
              if Reduce(limits, g, op).Ok? && Late(g, op) then Err(ErrorCode.LeaseExpired) else Reduce(limits, g, op)
  {
    if Reduce(limits, g, op).Ok? {
      OnlyTheFenceCanObject(limits, g, op);
      if op.Claim? { ClaimPassesFence(limits, g, op); }
      else if op.Spawn? { SpawnPassesFence(limits, g, op); }
      else if op.CancelQueued? { CancelPassesFence(limits, g, op); }
      else if op.Acknowledge? { AcknowledgePassesFence(limits, g, op); }
      else if !op.AdvanceClock? { RunFence(limits, g, op); }
    }
  }
}
