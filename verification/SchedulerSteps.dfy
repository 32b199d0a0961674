/**
 Single transactions of the scheduler on a reachable session, when nobody else commits in
 between (packages/web-buddy/src/agents/task-scheduler.ts:97-196, 268-330, 525-591).
 */
module SchedulerSteps {
  import opened Wrappers
  import opened Contracts
  import opened TaskGraph
  import opened Reducers
  import opened Invariants
  import opened EventLog
  import opened Measures
  import opened Fencing
  import opened Runs
  import opened Guarantees
  import opened Outcomes

  ghost predicate IdsBelow(used: set<Id>, next: Id) {
    forall x | x in used :: x < next
  }

  lemma NextStaysReachable(limits: Limits, identity: GraphIdentity, clock: nat, s: System, op: Op)
    requires Reachable(limits, identity, clock, s) && Admissible(s.graph, s.used, op)
    ensures Reachable(limits, identity, clock, Next(limits, s, op))
  {
    var first := Start(identity, clock);
    var ops :| Plausible(limits, first, ops) && After(limits, first, ops) == s;
    assert (ops + [op])[..|ops|] == ops;
    assert Plausible(limits, first, ops + [op]) && After(limits, first, ops + [op]) == Next(limits, s, op);
  }

  lemma ReachableIsLinked(limits: Limits, identity: GraphIdentity, clock: nat, s: System)
    requires Reachable(limits, identity, clock, s)
    ensures LinkedGraph(s.graph.tasks)
  {
    ReachableInv(limits, identity, clock, s);
  }

  lemma AcceptedNext(limits: Limits, s: System, op: Op, m: Mutation)
    requires Commit(limits, s.graph, op) == Ok(m) && !Replayed(s, op)
    ensures Next(limits, s, op) == System(m.graph, s.log + [m.event], s.used + FreshIds(op))
  {
  }

  // ---------------------------------------------------------------- recovering one lease

  predicate LeaseOver(t: Task, now: Time) {
    t.status == Running && t.lease.Some? && t.lease.value.expiresAt <= now
  }

  /** The event recovers the run that the task was in, with the disposition that its kind and attempt force. */
  predicate Recovers(e: Event, t: Task) {
    && t.lease.Some?
    && e.body.TaskLeaseExpired? && e.body.run == IdentityOf(t)
    && (e.body.recovery.disposition == RequeueReadOnly <==> t.kind != MainBrowserStep && t.attempt < t.maxAttempts)
    && (e.body.recovery.disposition == FailBrowserWrite <==> t.kind == MainBrowserStep)
    && t.lease.value.expiresAt <= e.occurredAt
  }

  /** The one recovery that the event records: of its task, of the locks, of the outbox. */
  ghost predicate RecoveredBy(g: Graph, h: Graph, e: Event, k: nat)
    requires k < |g.tasks| == |h.tasks| && g.tasks[k].lease.Some?
  {
    && Recovers(e, g.tasks[k])
    && RecoveryOutcome(g, ExpireLease(IdentityOf(g.tasks[k]), e.eventId, e.occurredAt), Mutation(h, e), k)
  }

  lemma ExpireCommits(limits: Limits, g: Graph, k: nat, op: Op)
    requires LinkedGraph(g.tasks) && k < |g.tasks| && op.ExpireLease? && LeaseOver(g.tasks[k], op.now)
    requires op.run == IdentityOf(g.tasks[k])
    ensures Commit(limits, g, op).Ok?
  {
    FindIsUnique(g.tasks, k);
    CommitCondition(limits, g, op);
  }

  /** Any commit of the recovery has the outcome, whatever the reducer did to get there. */
  lemma RecoveryAdvances(limits: Limits, start: View, s: System, k: nat, op: Op)
    requires SystemInv(limits, start, s) && k < |s.graph.tasks| && op.ExpireLease?
    requires LeaseOver(s.graph.tasks[k], op.now) && op.run == IdentityOf(s.graph.tasks[k])
    ensures
      var n := Next(limits, s, op);
      && Commit(limits, s.graph, op).Ok? && n.used == s.used + FreshIds(op)
      && |n.log| == |s.log| + 1 && n.log[..|s.log|] == s.log
      && |n.graph.tasks| == |s.graph.tasks|
      && RecoveryOutcome(s.graph, op, Mutation(n.graph, n.log[|s.log|]), k)
      && n.log[|s.log|].eventId == op.eventId && n.log[|s.log|].occurredAt == op.now
  {
    ExpireCommits(limits, s.graph, k, op);
    var m := Commit(limits, s.graph, op).value;
    var i := CommitHasOutcome(limits, s.graph, s.used, op);
    SameIndex(s.graph.tasks, i, k);
    AcceptedNext(limits, s, op, m);
    LogExtended(s.log, m.event);
  }

  lemma SameIndex(tasks: seq<Task>, i: nat, k: nat)
    requires UniqueIds(tasks) && i < |tasks| && k < |tasks| && tasks[i].id == tasks[k].id
    ensures i == k
  {
  }

  lemma OutcomeRecovers(g: Graph, h: Graph, e: Event, k: nat, op: Op)
    requires k < |g.tasks| == |h.tasks| && op.ExpireLease? && LeaseOver(g.tasks[k], op.now)
    requires op.run == IdentityOf(g.tasks[k]) && e.eventId == op.eventId && e.occurredAt == op.now
    requires RecoveryOutcome(g, op, Mutation(h, e), k)
    ensures RecoveredBy(g, h, e, k)
  {
  }

  lemma RecoveryReaches(limits: Limits, identity: GraphIdentity, clock: nat, s: System, op: Op)
    requires Reachable(limits, identity, clock, s) && IdsBelow(s.used, op.eventId) && op.ExpireLease?
    requires Next(limits, s, op).used == s.used + FreshIds(op)
    ensures Reachable(limits, identity, clock, Next(limits, s, op))
    ensures IdsBelow(Next(limits, s, op).used, op.eventId + 1)
  {
    NextStaysReachable(limits, identity, clock, s, op);
  }

  /**
   Recovering an expired lease always commits. The task is pending again when it does no browser
   writes and has an attempt left, and has failed otherwise, which is announced; its locks are free,
   and no other task changes.
   */
  lemma RecoverStep(limits: Limits, identity: GraphIdentity, clock: nat, s: System, k: nat, eventId: Id, now: Time)
    requires Reachable(limits, identity, clock, s) && IdsBelow(s.used, eventId)
    requires k < |s.graph.tasks| && LeaseOver(s.graph.tasks[k], now)
    ensures
      var op := ExpireLease(IdentityOf(s.graph.tasks[k]), eventId, now);
      var n := Next(limits, s, op);
      && Commit(limits, s.graph, op).Ok?
      && Reachable(limits, identity, clock, n) && IdsBelow(n.used, eventId + 1)
      && |n.graph.tasks| == |s.graph.tasks|
      && |n.log| == |s.log| + 1 && n.log[..|s.log|] == s.log && n.log[|s.log|].occurredAt == now
      && RecoveredBy(s.graph, n.graph, n.log[|s.log|], k)
  {
    var op := ExpireLease(IdentityOf(s.graph.tasks[k]), eventId, now);
    ReachableInv(limits, identity, clock, s);
    RecoveryAdvances(limits, StartView(identity, clock), s, k, op);
    var n := Next(limits, s, op);
    OutcomeRecovers(s.graph, n.graph, n.log[|s.log|], k, op);
    RecoveryReaches(limits, identity, clock, s, op);
  }

  lemma LogExtended(log: seq<Event>, e: Event)
    ensures (log + [e])[..|log|] == log && (log + [e])[|log|] == e
  {
  }

  // ---------------------------------------------------------------- claiming one task

  /** What has to hold of a pending task for its claim to commit. */
  ghost predicate Claimable(limits: Limits, tasks: seq<Task>, k: nat, at: Time) {
    && k < |tasks| && IsRunnable(tasks, tasks[k], at) && tasks[k].kind != MainBrowserStep
    && tasks[k].attempt < tasks[k].maxAttempts
    && HasCapacity(limits, tasks, CapacityOf(tasks[k].kind))
  }

  lemma ClaimCommits(limits: Limits, g: Graph, k: nat, op: Op)
    requires LinkedGraph(g.tasks) && op.Claim? && Claimable(limits, g.tasks, k, op.checkedAt)
    requires op.taskId == g.tasks[k].id && !op.sessionAborted && op.setup.None?
    ensures Commit(limits, g, op).Ok?
  {
    FindIsUnique(g.tasks, k);
    CommitCondition(limits, g, op);
  }

  /** The log only grew by claims. */
  ghost predicate ClaimsOnly(before: seq<Event>, after: seq<Event>) {
    before <= after && forall i | |before| <= i < |after| :: after[i].body.TaskClaimed?
  }

  lemma ClaimAdvances(limits: Limits, start: View, s: System, k: nat, op: Op)
    requires SystemInv(limits, start, s) && op.Claim?
    requires Claimable(limits, s.graph.tasks, k, op.checkedAt) && op.taskId == s.graph.tasks[k].id
    requires !op.sessionAborted && op.setup.None?
    ensures
      var n := Next(limits, s, op);
      && Commit(limits, s.graph, op).Ok? && n.graph == Commit(limits, s.graph, op).value.graph
      && n.used == s.used + FreshIds(op)
      && |n.log| == |s.log| + 1 && n.log[..|s.log|] == s.log
      && |n.graph.tasks| == |s.graph.tasks|
      && ClaimOutcome(s.graph, op, Mutation(n.graph, n.log[|s.log|]), k)
  {
    ClaimCommits(limits, s.graph, k, op);
    var m := Commit(limits, s.graph, op).value;
    var i := CommitHasOutcome(limits, s.graph, s.used, op);
    SameIndex(s.graph.tasks, i, k);
    AcceptedNext(limits, s, op, m);
    LogExtended(s.log, m.event);
  }

  lemma ClaimIsLogged(before: seq<Event>, after: seq<Event>)
    requires |after| == |before| + 1 && after[..|before|] == before && after[|before|].body.TaskClaimed?
    ensures ClaimsOnly(before, after)
  {
  }

  lemma ClaimReaches(limits: Limits, identity: GraphIdentity, clock: nat, s: System, op: Op)
    requires Reachable(limits, identity, clock, s) && IdsBelow(s.used, op.eventId) && op.Claim?
    requires op.leaseId == op.eventId + 1 && Next(limits, s, op).used == s.used + FreshIds(op)
    ensures Reachable(limits, identity, clock, Next(limits, s, op))
    ensures IdsBelow(Next(limits, s, op).used, op.eventId + 2)
  {
    NextStaysReachable(limits, identity, clock, s, op);
  }

  /**
   Claiming a runnable task within capacity commits, starts exactly that task under a lease of its
   own duration, and leaves the others alone.
   */
  lemma ClaimStep(limits: Limits, identity: GraphIdentity, clock: nat, s: System, k: nat, op: Op)
    requires Reachable(limits, identity, clock, s) && op.Claim? && IdsBelow(s.used, op.eventId)
    requires op.leaseId == op.eventId + 1
    requires Claimable(limits, s.graph.tasks, k, op.checkedAt) && op.taskId == s.graph.tasks[k].id
    requires !op.sessionAborted && op.setup.None?
    ensures
      var n := Next(limits, s, op);
      && Commit(limits, s.graph, op).Ok?
      && Reachable(limits, identity, clock, n) && IdsBelow(n.used, op.eventId + 2)
      && n.graph == Commit(limits, s.graph, op).value.graph
      && ClaimsOnly(s.log, n.log) && |n.log| == |s.log| + 1
      && |n.graph.tasks| == |s.graph.tasks|
      && ClaimOutcome(s.graph, op, Mutation(n.graph, n.log[|s.log|]), k)
  {
    ReachableInv(limits, identity, clock, s);
    ClaimAdvances(limits, StartView(identity, clock), s, k, op);
    ClaimIsLogged(s.log, Next(limits, s, op).log);
    ClaimReaches(limits, identity, clock, s, op);
  }

  lemma OutcomeClaims(g: Graph, op: Op, m: Mutation, k: nat)
    requires op.Claim? && k < |g.tasks| == |m.graph.tasks| && g.tasks[k].status == Pending && op.taskId == g.tasks[k].id
    requires ClaimOutcome(g, op, m, k)
    ensures ClaimedFrom(g.tasks[k], m.graph.tasks[k]) && m.graph.tasks == g.tasks[k := m.graph.tasks[k]]
    ensures LeasedBy(m.graph.tasks[k], op.schedulerId, op.leaseId, op.now)
  {
  }

  lemma ClaimLeavesOutbox(limits: Limits, s: System, op: Op)
    requires op.Claim?
    ensures Next(limits, s, op).graph.outbox == s.graph.outbox
  {
  }

  // ---------------------------------------------------------------- a tick in progress

  /** Compared with the graph the tick loaded, some of its runnable tasks were started and nothing else happened. */
  ghost predicate Started(seen: seq<Task>, now: seq<Task>) {
    && |now| == |seen|
    && forall j | 0 <= j < |seen| ::
         now[j] == seen[j] || ClaimedFrom(seen[j], now[j])
  }

  lemma StillCompleted(seen: seq<Task>, now: seq<Task>, id: Id)
    requires UniqueIds(seen) && Started(seen, now) && CompletedIn(seen, id)
    ensures CompletedIn(now, id)
  {
    var k := IndexOf(seen, id);
    assert UniqueIds(now);
    FindIsUnique(now, k);
  }

  /** A task that was runnable and has not been started is still runnable. */
  lemma StillRunnable(seen: seq<Task>, now: seq<Task>, k: nat, at: Time, later: Time)
    requires UniqueIds(seen) && Started(seen, now) && k < |seen| && now[k] == seen[k] && at <= later
    requires IsRunnable(seen, seen[k], at)
    ensures IsRunnable(now, now[k], later)
  {
    forall b | b in seen[k].blockedBy
      ensures CompletedIn(now, b)
    {
      UnresolvedEmpty(seen, seen[k].blockedBy, b);
      StillCompleted(seen, now, b);
    }
    AllResolved(now, seen[k].blockedBy);
  }

  /** The tick is done with the task: it is the main agent's, it runs, or its capacity class is full. */
  ghost predicate Settled(limits: Limits, now: seq<Task>, k: nat) {
    k < |now| && (now[k].kind == MainBrowserStep || now[k].status == Running
                  || !HasCapacity(limits, now, CapacityOf(now[k].kind)))
  }

  lemma StartingKeepsSettled(limits: Limits, now: seq<Task>, k: nat, u: Task, j: nat)
    requires k < |now| && ClaimedFrom(now[k], u) && Settled(limits, now, j)
    ensures Settled(limits, now[k := u], j)
  {
    ClaimGrowth(now, k, u);
  }

  /** `isExpectedClaimConflict`. */
  predicate ExpectedClaimConflict(e: ErrorCode) {
    e == InvalidTransition || e == DependencyUnresolved || e == QueueCapacityExceeded || e == MaxAttemptsExceeded
      || e == SessionAborted
  }

  /** The runner could not be set up, but for a reason the tick passes over. */
  predicate Excused(setup: Id -> Option<ErrorCode>, id: Id) {
    setup(id).Some? && ExpectedClaimConflict(setup(id).value)
  }

  /** After the listed candidates: only candidates were started, and each that is not excused is settled. */
  ghost predicate TickSoFar(limits: Limits, setup: Id -> Option<ErrorCode>, seen: seq<Task>, now: seq<Task>,
                            handled: seq<Task>) {
    && Started(seen, now)
    && (forall j | 0 <= j < |seen| && seen[j] !in handled :: now[j] == seen[j])
    && (forall j | 0 <= j < |seen| && seen[j] in handled && !Excused(setup, seen[j].id) :: Settled(limits, now, j))
  }

  lemma TickSkips(limits: Limits, setup: Id -> Option<ErrorCode>, seen: seq<Task>, now: seq<Task>, handled: seq<Task>,
                  k: nat)
    requires TickSoFar(limits, setup, seen, now, handled) && UniqueIds(seen) && k < |seen|
    requires !Excused(setup, seen[k].id) ==> Settled(limits, now, k)
    ensures TickSoFar(limits, setup, seen, now, handled + [seen[k]])
  {
    forall j | 0 <= j < |seen| && seen[j] in handled + [seen[k]] && !Excused(setup, seen[j].id)
      ensures Settled(limits, now, j)
    {
      if seen[j] !in handled { assert j == k; }
    }
  }

  lemma TickStarts(limits: Limits, setup: Id -> Option<ErrorCode>, seen: seq<Task>, now: seq<Task>, handled: seq<Task>,
                   k: nat, u: Task)
    requires TickSoFar(limits, setup, seen, now, handled) && UniqueIds(seen) && k < |seen|
    requires now[k] == seen[k] && ClaimedFrom(now[k], u)
    ensures TickSoFar(limits, setup, seen, now[k := u], handled + [seen[k]])
  {
    forall j | 0 <= j < |seen| && seen[j] in handled + [seen[k]] && !Excused(setup, seen[j].id)
      ensures Settled(limits, now[k := u], j)
    {
      if j != k { StartingKeepsSettled(limits, now, k, u, j); }
    }
  }

  lemma RunnableHasAttempts(limits: Limits, start: View, s: System, k: nat)
    requires SystemInv(limits, start, s) && k < |s.graph.tasks| && s.graph.tasks[k].status == Pending
    ensures s.graph.tasks[k].attempt < s.graph.tasks[k].maxAttempts
  {
    assert TaskInv(s.graph.tasks[k]);
  }

  /** Only claimable tasks are ever claimed. */
  lemma ClaimNeedsClaimable(limits: Limits, g: Graph, k: nat, op: Op)
    requires UniqueIds(g.tasks) && k < |g.tasks| && op.Claim? && op.taskId == g.tasks[k].id
    requires Reduce(limits, g, op).Ok?
    ensures Claimable(limits, g.tasks, k, op.checkedAt) && !op.sessionAborted && op.setup.None?
  {
    FindIsUnique(g.tasks, k);
  }

  /** A claimable task is refused only for what its runner setup throws. */
  lemma ClaimableRefusal(limits: Limits, g: Graph, k: nat, op: Op)
    requires LinkedGraph(g.tasks) && k < |g.tasks| && op.Claim? && op.taskId == g.tasks[k].id && !op.sessionAborted
    requires Claimable(limits, g.tasks, k, op.checkedAt) && op.setup.Some?
    ensures Commit(limits, g, op) == Err(op.setup.value)
  {
    FindIsUnique(g.tasks, k);
  }

  lemma ClaimableLater(limits: Limits, tasks: seq<Task>, k: nat, at: Time, later: Time)
    requires Claimable(limits, tasks, k, at) && at <= later
    ensures Claimable(limits, tasks, k, later)
  {
  }

  /** The claimed version of a task: running a further attempt, under a lease as long as it asks for. */
  ghost predicate ClaimedFrom(t: Task, u: Task) {
    && t.status == Pending && u.lease.Some? && u.lease.value.attempt == t.attempt + 1
    && u.lease.value.expiresAt == u.lease.value.acquiredAt + t.leaseDuration
    && u == t.(status := Running, attempt := t.attempt + 1, lease := u.lease,
               attempts := t.attempts + [AttemptRecord(RunIdentity(t.id, t.attempt + 1, u.lease.value.leaseId,
                                                                   u.lease.value.ownerId),
                                                       u.lease.value.acquiredAt, InProgress)])
  }

  ghost predicate LeasedBy(u: Task, schedulerId: Id, leaseId: Id, at: Time) {
    u.lease.Some? && u.lease.value.ownerId == schedulerId && u.lease.value.leaseId == leaseId
      && u.lease.value.acquiredAt == at
  }

  // ---------------------------------------------------------------- cancelling

  lemma CancelCommits(limits: Limits, g: Graph, k: nat, op: Op)
    requires LinkedGraph(g.tasks) && k < |g.tasks| && op.CancelQueued? && op.taskId == g.tasks[k].id
    requires g.tasks[k].status == Pending || g.tasks[k].status == Blocked
    ensures Commit(limits, g, op) == Ok(CancelMutation(g, g.tasks[k], op))
  {
    FindIsUnique(g.tasks, k);
    CommitCondition(limits, g, op);
  }

  /** The task is as good as stopped: it has ended, or its run was asked to stop for the given reason. */
  predicate Stopped(t: Task, reason: CancelReason) {
    Terminal(t.status) || (t.status == Running && t.cancellation.Some? && t.cancellation.value.reason == reason)
  }

  /** The lease has run out: the store refuses what its run still reports, or is asked, at that time. */
  predicate RunOut(t: Task, at: Time) {
    t.status == Running && t.lease.Some? && t.lease.value.expiresAt < at
  }

  lemma CancelAdvances(limits: Limits, s: System, k: nat, op: Op)
    requires LinkedGraph(s.graph.tasks) && op.CancelQueued? && k < |s.graph.tasks| && op.taskId == s.graph.tasks[k].id
    requires s.graph.tasks[k].status == Pending || s.graph.tasks[k].status == Blocked
    ensures
      var n := Next(limits, s, op);
      && Commit(limits, s.graph, op).Ok? && n.used == s.used + FreshIds(op)
      && |n.graph.tasks| == |s.graph.tasks| && n.graph.tasks[k].status == Killed
        && n.graph.tasks[k].id == s.graph.tasks[k].id
      && (forall j | 0 <= j < |s.graph.tasks| && j != k :: n.graph.tasks[j] == s.graph.tasks[j])
  {
    CancelCommits(limits, s.graph, k, op);
    AcceptedNext(limits, s, op, CancelMutation(s.graph, s.graph.tasks[k], op));
  }

  /** Cancelling a task that has not started kills it and nothing else. */
  lemma CancelStep(limits: Limits, identity: GraphIdentity, clock: nat, s: System, k: nat, op: Op)
    requires Reachable(limits, identity, clock, s) && op.CancelQueued? && IdsBelow(s.used, op.eventId)
    requires k < |s.graph.tasks| && op.taskId == s.graph.tasks[k].id
    requires s.graph.tasks[k].status == Pending || s.graph.tasks[k].status == Blocked
    ensures
      var n := Next(limits, s, op);
      && Commit(limits, s.graph, op).Ok? && Reachable(limits, identity, clock, n) && IdsBelow(n.used, op.eventId + 1)
      && |n.graph.tasks| == |s.graph.tasks| && n.graph.tasks[k].status == Killed
        && n.graph.tasks[k].id == s.graph.tasks[k].id
      && (forall j | 0 <= j < |s.graph.tasks| && j != k :: n.graph.tasks[j] == s.graph.tasks[j])
  {
    ReachableIsLinked(limits, identity, clock, s);
    CancelAdvances(limits, s, k, op);
    NextStaysReachable(limits, identity, clock, s, op);
  }

  lemma RequestCommits(limits: Limits, g: Graph, k: nat, op: Op)
    requires LinkedGraph(g.tasks) && k < |g.tasks| && op.RequestCancel? && op.taskId == g.tasks[k].id
    requires g.tasks[k].status == Running && g.tasks[k].lease.Some?
    ensures Commit(limits, g, op)
         == if g.tasks[k].lease.value.expiresAt < op.now then Err(ErrorCode.LeaseExpired)
           else Ok(RequestMutation(g, g.tasks[k], op))
  {
    FindIsUnique(g.tasks, k);
    CommitCondition(limits, g, op);
  }

  lemma RunningHoldsLease(limits: Limits, start: View, s: System, k: nat)
    requires SystemInv(limits, start, s) && k < |s.graph.tasks| && s.graph.tasks[k].status == Running
    ensures s.graph.tasks[k].lease.Some?
  {
    assert TaskInv(s.graph.tasks[k]);
  }

  lemma RequestAdvances(limits: Limits, s: System, k: nat, op: Op)
    requires LinkedGraph(s.graph.tasks) && op.RequestCancel? && k < |s.graph.tasks| && op.taskId == s.graph.tasks[k].id
    requires s.graph.tasks[k].status == Running && s.graph.tasks[k].lease.Some? && !RunOut(s.graph.tasks[k], op.now)
    ensures
      var n := Next(limits, s, op);
      && Commit(limits, s.graph, op).Ok? && n.used == s.used + FreshIds(op)
      && |n.graph.tasks| == |s.graph.tasks| && Stopped(n.graph.tasks[k], op.reason)
      && n.graph.tasks[k].id == s.graph.tasks[k].id
      && (forall j | 0 <= j < |s.graph.tasks| && j != k :: n.graph.tasks[j] == s.graph.tasks[j])
  {
    RequestCommits(limits, s.graph, k, op);
    AcceptedNext(limits, s, op, RequestMutation(s.graph, s.graph.tasks[k], op));
  }

  /** Asking a run to stop is recorded while its lease lasts, and refused by the store afterwards. */
  lemma RequestStep(limits: Limits, identity: GraphIdentity, clock: nat, s: System, k: nat, op: Op)
    requires Reachable(limits, identity, clock, s) && op.RequestCancel? && IdsBelow(s.used, op.eventId)
    requires k < |s.graph.tasks| && op.taskId == s.graph.tasks[k].id && s.graph.tasks[k].status == Running
    ensures s.graph.tasks[k].lease.Some?
    ensures
      var n := Next(limits, s, op);
      if RunOut(s.graph.tasks[k], op.now) then Commit(limits, s.graph, op) == Err(ErrorCode.LeaseExpired)
      else
        && Commit(limits, s.graph, op).Ok? && Reachable(limits, identity, clock, n) && IdsBelow(n.used, op.eventId + 1)
        && |n.graph.tasks| == |s.graph.tasks| && Stopped(n.graph.tasks[k], op.reason)
        && n.graph.tasks[k].id == s.graph.tasks[k].id
        && (forall j | 0 <= j < |s.graph.tasks| && j != k :: n.graph.tasks[j] == s.graph.tasks[j])
  {
    ReachableInv(limits, identity, clock, s);
    RunningHoldsLease(limits, StartView(identity, clock), s, k);
    if RunOut(s.graph.tasks[k], op.now) {
      RequestCommits(limits, s.graph, k, op);
    } else {
      RequestAdvances(limits, s, k, op);
      NextStaysReachable(limits, identity, clock, s, op);
    }
  }
}
