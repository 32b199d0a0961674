/**
 When each transaction is accepted, and what a refusal code means, in terms of the task it names
 (packages/web-buddy/src/agents/task-scheduler.ts:118-196, 229-330, 374-519, 532-586, 599-602,
 693-709; packages/web-buddy/src/agents/async-task-runtime.ts:388-399, 475-508;
 packages/web-buddy/src/agents/task-graph.ts:724-739; packages/web-buddy/src/agents/task-graph-store.ts:177-217).
 The conditions are written without the checks that the reducers and the store are made of.
 */
module Acceptance {
  import opened Wrappers
  import opened Contracts
  import opened Sorting
  import opened TaskGraph
  import opened GraphLinks
  import opened Reducers
  import opened Invariants
  import opened Fencing
  import opened Outcomes
  import Dag
  import StoreMachine

  // ---------------------------------------------------------------- the conditions

  predicate ForLlm(kind: TaskKind) {
    kind == CandidateJobResearch || kind == TraceSummarization
  }

  /** The running background tasks that compete for the same slots. */
  ghost function Rivals(tasks: seq<Task>, kind: TaskKind): set<Task> {
    set t | t in tasks && t.status == Running && t.kind != MainBrowserStep && ForLlm(t.kind) == ForLlm(kind)
  }

  ghost function Slots(limits: Limits, kind: TaskKind): nat {
    if ForLlm(kind) then limits.maxReadOnly else limits.maxDeterministic
  }

  /** The run identity is that of the task's present lease. */
  ghost predicate Holds(t: Task, run: RunIdentity) {
    && t.status == Running && t.lease.Some?
    && run.taskId == t.id && run.attempt == t.attempt
    && run.leaseId == t.lease.value.leaseId && run.leaseOwnerId == t.lease.value.ownerId
  }

  ghost predicate Claims(limits: Limits, tasks: seq<Task>, op: Op, t: Task)
    requires op.Claim?
  {
    && !op.sessionAborted && t.status == Pending && t.kind != MainBrowserStep
    && (forall b | b in t.blockedBy :: IsDone(tasks, b))
    && (t.nextAttemptAt.Some? ==> t.nextAttemptAt.value <= op.checkedAt)
    && t.attempt < t.maxAttempts
    && |Rivals(tasks, t.kind)| < Slots(limits, t.kind)
    && op.setup.None?
  }

  /** A run may report only under its present lease, up to the instant that lease ends. */
  ghost predicate Reports(t: Task, run: RunIdentity, now: Time) {
    t.kind != MainBrowserStep && Holds(t, run) && now <= t.lease.value.expiresAt
  }

  /** The transaction suits the task that it names. */
  ghost predicate Suits(limits: Limits, g: Graph, op: Op, t: Task)
    requires TaskNamed(op).Some?
  {
    match op
    case Claim(_, _, _, _, _, _, _, _) => Claims(limits, g.tasks, op, t)
    case Succeed(run, _, _, now) =>
      Reports(t, run, now) && (t.actionBinding.BrowserAction? ==> t.actionBinding.sourceActionSeq <= g.actionSeq)
    case ExpireLease(run, _, now) => Holds(t, run) && t.lease.value.expiresAt <= now
    case CancelQueued(_, _, _, _, _) => t.status == Pending || t.status == Blocked
    case RequestCancel(_, _, _, _, now) => t.status == Running && t.lease.Some? && now <= t.lease.value.expiresAt
    case Progress(run, _, _, now) => Reports(t, run, now)
    case Fail(run, _, _, _, now) => Reports(t, run, now)
    case Abort(run, _, now) => Reports(t, run, now)
    case _ => false
  }

  ghost function Open(tasks: seq<Task>): set<Task> {
    set t | t in tasks && (t.status == Pending || t.status == Blocked || t.status == Running)
  }

  ghost predicate Knows(tasks: seq<Task>, id: Id) {
    exists i :: 0 <= i < |tasks| && tasks[i].id == id
  }

  /** The new task would wait for one that it blocks already. */
  ghost predicate ClosesLoop(tasks: seq<Task>, input: TaskInput) {
    exists b, d :: && b in input.blocks && b != input.id && d in input.blockedBy && d != input.id
                   && Dag.Reaches(LinksOf(tasks), b, d)
  }

  ghost predicate Spawns(limits: Limits, tasks: seq<Task>, input: TaskInput) {
    && input.kind != MainBrowserStep
    && !Knows(tasks, input.id) && (forall i | 0 <= i < |tasks| :: tasks[i].idempotencyKey != input.idempotencyKey)
    && |Open(tasks)| < limits.maxQueued
    && (forall b | b in input.blockedBy && b != input.id :: Knows(tasks, b))
    && (forall b | b in input.blocks && b != input.id :: Knows(tasks, b))
    && !ClosesLoop(tasks, input)
  }

  ghost predicate Delivers(outbox: seq<OutboxEntry>, id: NotificationId) {
    exists k :: 0 <= k < |outbox| && outbox[k].notification.notificationId == id && outbox[k].receipt.None?
  }

  ghost predicate Acceptable(limits: Limits, g: Graph, op: Op) {
    match op
    case Spawn(input, _, _) => Spawns(limits, g.tasks, input)
    case Acknowledge(receipt, _) => Delivers(g.outbox, receipt.notificationId)
    case AdvanceClock(_, _, _, _) => true
    case _ =>
      exists k :: 0 <= k < |g.tasks| && g.tasks[k].id == TaskNamed(op).value && Suits(limits, g, op, g.tasks[k])
  }

  // ---------------------------------------------------------------- counting

  lemma HeadIsNew(tasks: seq<Task>)
    requires UniqueIds(tasks) && tasks != []
    ensures tasks[0] !in tasks[1..] && UniqueIds(tasks[1..])
  {
    forall i | 0 <= i < |tasks[1..]|
      ensures tasks[1..][i].id != tasks[0].id
    {
      assert tasks[1..][i] == tasks[i + 1];
    }
  }

  lemma HeadOrRest(tasks: seq<Task>, t: Task)
    requires tasks != []
    ensures t in tasks <==> t == tasks[0] || t in tasks[1..]
  {
    assert tasks == [tasks[0]] + tasks[1..];
  }

  lemma OneMore(all: set<Task>, rest: set<Task>, t: Task, counts: bool)
    requires t !in rest && forall x :: x in all <==> (x == t && counts) || x in rest
    ensures |all| == |rest| + if counts then 1 else 0
  {
    assert all == if counts then rest + {t} else rest;
  }

  lemma {:induction false} CountsRivals(tasks: seq<Task>, kind: TaskKind)
    requires UniqueIds(tasks) && kind != MainBrowserStep
    ensures CountRunning(tasks, CapacityOf(kind)) == |Rivals(tasks, kind)|
  {
    if tasks == [] {
      assert Rivals(tasks, kind) == {};
    } else {
      var t, rest := tasks[0], tasks[1..];
      HeadIsNew(tasks);
      CountsRivals(rest, kind);
      var counts := t.status == Running && t.kind != MainBrowserStep && ForLlm(t.kind) == ForLlm(kind);
      forall x
        ensures x in Rivals(tasks, kind) <==> (x == t && counts) || x in Rivals(rest, kind)
      {
        HeadOrRest(tasks, x);
      }
      OneMore(Rivals(tasks, kind), Rivals(rest, kind), t, counts);
    }
  }

  lemma {:induction false} CountsOpen(tasks: seq<Task>)
    requires UniqueIds(tasks)
    ensures CountOpen(tasks) == |Open(tasks)|
  {
    if tasks == [] {
      assert Open(tasks) == {};
    } else {
      var t, rest := tasks[0], tasks[1..];
      HeadIsNew(tasks);
      CountsOpen(rest);
      forall x
        ensures x in Open(tasks) <==> (x == t && !Terminal(t.status)) || x in Open(rest)
      {
        HeadOrRest(tasks, x);
      }
      OneMore(Open(tasks), Open(rest), t, !Terminal(t.status));
    }
  }

  lemma NothingUnresolved(tasks: seq<Task>, ids: seq<Id>)
    requires UniqueIds(tasks)
    ensures Unresolved(tasks, ids) == [] <==> forall b | b in ids :: IsDone(tasks, b)
  {
    NothingLeft(tasks, ids);
  }

  // ---------------------------------------------------------------- transactions on a known task

  lemma ClaimSuits(limits: Limits, g: Graph, op: Op, k: nat)
    requires UniqueIds(g.tasks) && op.Claim? && k < |g.tasks| && g.tasks[k].id == op.taskId
    ensures ReduceClaim(limits, g, op).Ok? <==> Claims(limits, g.tasks, op, g.tasks[k])
  {
    var t := g.tasks[k];
    FindIsUnique(g.tasks, k);
    NothingUnresolved(g.tasks, t.blockedBy);
    if t.kind != MainBrowserStep { CountsRivals(g.tasks, t.kind); }
  }

  lemma RunSuits(limits: Limits, g: Graph, op: Op, k: nat)
    requires UniqueIds(g.tasks) && CarriesRun(op) && k < |g.tasks| && g.tasks[k].id == op.run.taskId
    ensures Reduce(limits, g, op).Ok? && !Late(g, op) <==> Suits(limits, g, op, g.tasks[k])
  {
    FindIsUnique(g.tasks, k);
  }

  lemma CancelSuits(limits: Limits, g: Graph, op: Op, k: nat)
    requires UniqueIds(g.tasks) && (op.CancelQueued? || op.RequestCancel?)
    requires k < |g.tasks| && g.tasks[k].id == op.taskId
    ensures Reduce(limits, g, op).Ok? && !Late(g, op) <==> Suits(limits, g, op, g.tasks[k])
  {
    FindIsUnique(g.tasks, k);
  }

  lemma NamedSuits(limits: Limits, g: Graph, op: Op, k: nat)
    requires LinkedGraph(g.tasks) && TaskNamed(op).Some? && k < |g.tasks| && g.tasks[k].id == TaskNamed(op).value
    ensures Commit(limits, g, op).Ok? <==> Suits(limits, g, op, g.tasks[k])
  {
    CommitCondition(limits, g, op);
    if op.Claim? { ClaimSuits(limits, g, op, k); }
    else if op.CancelQueued? || op.RequestCancel? { CancelSuits(limits, g, op, k); }
    else { RunSuits(limits, g, op, k); }
  }

  lemma UnknownIsRefused(limits: Limits, g: Graph, op: Op)
    requires LinkedGraph(g.tasks) && TaskNamed(op).Some? && !Knows(g.tasks, TaskNamed(op).value)
    requires op.Claim? ==> !op.sessionAborted
    ensures Commit(limits, g, op) == Err(TaskNotFound)
  {
    CommitCondition(limits, g, op);
    FoundIsKnown(g.tasks, TaskNamed(op).value);
  }

  lemma FoundIsKnown(tasks: seq<Task>, id: Id)
    ensures Find(tasks, id).Some? ==> Knows(tasks, id)
  {
  }

  lemma NamedAcceptable(limits: Limits, g: Graph, op: Op, k: nat)
    requires UniqueIds(g.tasks) && TaskNamed(op).Some? && k < |g.tasks| && g.tasks[k].id == TaskNamed(op).value
    ensures Acceptable(limits, g, op) <==> Suits(limits, g, op, g.tasks[k])
  {
    forall i | 0 <= i < |g.tasks| && g.tasks[i].id == TaskNamed(op).value
      ensures i == k
    {
    }
  }

  lemma AbortedIsRefused(limits: Limits, g: Graph, op: Op)
    requires LinkedGraph(g.tasks) && op.Claim? && op.sessionAborted
    ensures Commit(limits, g, op) == Err(SessionAborted)
  {
    CommitCondition(limits, g, op);
  }

  lemma NamedCondition(limits: Limits, g: Graph, op: Op)
    requires LinkedGraph(g.tasks) && TaskNamed(op).Some?
    ensures Commit(limits, g, op).Ok? <==> Acceptable(limits, g, op)
  {
    if k :| 0 <= k < |g.tasks| && g.tasks[k].id == TaskNamed(op).value {
      NamedSuits(limits, g, op, k);
      NamedAcceptable(limits, g, op, k);
    } else if op.Claim? && op.sessionAborted {
      AbortedIsRefused(limits, g, op);
    } else {
      UnknownIsRefused(limits, g, op);
    }
  }

  // ---------------------------------------------------------------- spawns and receipts

  lemma KnownIds(tasks: seq<Task>)
    ensures forall x :: x in Ids(tasks) <==> Knows(tasks, x)
  {
    forall x
      ensures x in Ids(tasks) <==> Knows(tasks, x)
    {
      if i :| 0 <= i < |tasks| && tasks[i].id == x { assert tasks[i] in tasks; }
    }
  }

  lemma LoopIsCycle(tasks: seq<Task>, input: TaskInput, t: Task)
    requires Created(input, t.createdAt, t)
    ensures ClosesLoop(tasks, input)
       <==> exists b, d :: b in Elements(t.blocks) && d in Elements(t.blockedBy) && Dag.Reaches(LinksOf(tasks), b, d)
  {
  }

  lemma ReferencesKnown(tasks: seq<Task>, input: TaskInput, t: Task)
    requires Created(input, t.createdAt, t)
    ensures References(t, Ids(tasks))
       <==> && (forall b | b in input.blockedBy && b != input.id :: Knows(tasks, b))
            && (forall b | b in input.blocks && b != input.id :: Knows(tasks, b))
  {
    KnownIds(tasks);
  }

  lemma AdditionChecks(tasks: seq<Task>, t: Task)
    requires LinkedGraph(tasks) && Distinct(t.blocks) && Distinct(t.blockedBy)
    ensures AddTask(tasks, t).Ok?
       <==> && t.id !in Ids(tasks) && (forall s | s in tasks :: s.idempotencyKey != t.idempotencyKey)
            && References(t, Ids(tasks))
            && !exists b, d :: b in Elements(t.blocks) && d in Elements(t.blockedBy)
                               && Dag.Reaches(LinksOf(tasks), b, d)
  {
    if Addable(tasks, t) && forall s | s in tasks :: s.idempotencyKey != t.idempotencyKey {
      CycleErrorCondition(tasks, t);
    }
  }

  lemma AdditionCondition(tasks: seq<Task>, input: TaskInput, now: Time)
    requires LinkedGraph(tasks)
    ensures AddTask(tasks, CreateTask(input, now)).Ok?
       <==> && !Knows(tasks, input.id)
            && (forall i | 0 <= i < |tasks| :: tasks[i].idempotencyKey != input.idempotencyKey)
            && (forall b | b in input.blockedBy && b != input.id :: Knows(tasks, b))
            && (forall b | b in input.blocks && b != input.id :: Knows(tasks, b))
            && !ClosesLoop(tasks, input)
  {
    var t := CreateTask(input, now);
    KnownIds(tasks);
    IsCreated(input, now);
    AdditionChecks(tasks, t);
    ReferencesKnown(tasks, input, t);
    LoopIsCycle(tasks, input, t);
  }

  lemma SpawnChecks(limits: Limits, g: Graph, op: Op)
    requires op.Spawn?
    ensures ReduceSpawn(limits, g, op).Ok?
       <==> && op.input.kind != MainBrowserStep && FindKey(g.tasks, op.input.idempotencyKey).None?
            && CountOpen(g.tasks) < limits.maxQueued && AddTask(g.tasks, CreateTask(op.input, op.now)).Ok?
  {
  }

  lemma FreeKey(tasks: seq<Task>, key: Id)
    ensures FindKey(tasks, key).None? <==> forall i | 0 <= i < |tasks| :: tasks[i].idempotencyKey != key
  {
  }

  lemma SpawnCondition(limits: Limits, g: Graph, op: Op)
    requires LinkedGraph(g.tasks) && op.Spawn?
    ensures Commit(limits, g, op).Ok? <==> Spawns(limits, g.tasks, op.input)
  {
    CommitCondition(limits, g, op);
    SpawnChecks(limits, g, op);
    FreeKey(g.tasks, op.input.idempotencyKey);
    AdditionCondition(g.tasks, op.input, op.now);
    CountsOpen(g.tasks);
  }

  lemma AnnouncedIsKnown(g: Graph, used: set<Id>, k: nat)
    requires GraphInv(g, used) && k < |g.outbox|
    ensures Find(g.tasks, g.outbox[k].notification.taskId).Some?
  {
    assert g.outbox[k].notification.taskId in EntryTasks(g.outbox);
  }

  lemma ReceiptCondition(limits: Limits, g: Graph, used: set<Id>, op: Op)
    requires GraphInv(g, used) && LinkedGraph(g.tasks) && op.Acknowledge?
    ensures Commit(limits, g, op).Ok? <==> Delivers(g.outbox, op.receipt.notificationId)
  {
    CommitCondition(limits, g, op);
    EntriesDiffer(g, used);
    var found := FindEntry(g.outbox, op.receipt.notificationId);
    if found.Some? {
      var k :| 0 <= k < |g.outbox| && g.outbox[k] == found.value;
      AnnouncedIsKnown(g, used, k);
    }
  }

  /** Every transaction commits exactly when it is acceptable. */
  lemma CommitAccepts(limits: Limits, g: Graph, used: set<Id>, op: Op)
    requires GraphInv(g, used) && LinkedGraph(g.tasks)
    ensures Commit(limits, g, op).Ok? <==> Acceptable(limits, g, op)
  {
    if op.Spawn? { SpawnCondition(limits, g, op); }
    else if op.Acknowledge? { ReceiptCondition(limits, g, used, op); }
    else if op.AdvanceClock? { CommitCondition(limits, g, op); }
    else { NamedCondition(limits, g, op); }
  }

  // ---------------------------------------------------------------- what a refusal means

  ghost predicate RefusesReport(t: Task, run: RunIdentity, now: Time, e: ErrorCode) {
    || (e == InvalidTransition && t.status != Running)
    || (e == PolicyViolation && t.status == Running && t.kind == MainBrowserStep)
    || (e == StaleLease && t.status == Running && !Holds(t, run))
    || (e == ErrorCode.LeaseExpired && Holds(t, run) && t.lease.value.expiresAt < now)
  }

  /** The code is an objection to the task, or to the time. */
  ghost predicate Objects(limits: Limits, g: Graph, op: Op, t: Task, e: ErrorCode)
    requires TaskNamed(op).Some?
  {
    match op
    case Claim(_, _, _, setup, _, checkedAt, _, _) =>
      || (e == InvalidTransition
          && (t.status != Pending || (t.nextAttemptAt.Some? && checkedAt < t.nextAttemptAt.value)))
      || (e == PolicyViolation && t.status == Pending && t.kind == MainBrowserStep)
      || (e == DependencyUnresolved && t.status == Pending && exists b :: b in t.blockedBy && !IsDone(g.tasks, b))
      || (e == MaxAttemptsExceeded && t.status == Pending && t.maxAttempts <= t.attempt)
      || (e == QueueCapacityExceeded && t.kind != MainBrowserStep && Slots(limits, t.kind) <= |Rivals(g.tasks, t.kind)|)
      || (setup == Some(e) && Claims(limits, g.tasks, op.(setup := None), t))
    case ExpireLease(run, _, now) =>
      || (e == InvalidTransition && (t.status != Running || (Holds(t, run) && now < t.lease.value.expiresAt)))
      || (e == StaleLease && t.status == Running && !Holds(t, run))
    case CancelQueued(_, _, _, _, _) => e == InvalidTransition && t.status != Pending && t.status != Blocked
    case RequestCancel(_, _, _, _, now) =>
      || (e == InvalidTransition && t.status != Running)
      || (e == StaleLease && t.status == Running && t.lease.None?)
      || (e == ErrorCode.LeaseExpired && t.status == Running && t.lease.Some? && t.lease.value.expiresAt < now)
    case Succeed(run, _, _, now) =>
      || RefusesReport(t, run, now, e)
      || (e == InvalidSourceActionSeq && t.actionBinding.BrowserAction?
          && g.actionSeq < t.actionBinding.sourceActionSeq)
    case Progress(run, _, _, now) => RefusesReport(t, run, now, e)
    case Fail(run, _, _, _, now) => RefusesReport(t, run, now, e)
    case Abort(run, _, now) => RefusesReport(t, run, now, e)
    case _ => false
  }

  ghost predicate RefusesSpawn(limits: Limits, tasks: seq<Task>, input: TaskInput, e: ErrorCode) {
    || (e == PolicyViolation && input.kind == MainBrowserStep)
    || (e == IdempotencyConflict
        && (Knows(tasks, input.id)
            || exists i :: 0 <= i < |tasks| && tasks[i].idempotencyKey == input.idempotencyKey))
    || (e == QueueCapacityExceeded && limits.maxQueued <= |Open(tasks)|)
    || (e == DependencyUnresolved
        && exists b :: (b in input.blockedBy || b in input.blocks) && b != input.id && !Knows(tasks, b))
    || (e == DagCycle && ClosesLoop(tasks, input))
  }

  predicate ClaimsForAborted(op: Op) {
    op.Claim? && op.sessionAborted
  }

  /** The code says something that is the case. */
  ghost predicate Justified(limits: Limits, g: Graph, op: Op, e: ErrorCode) {
    match op
    case Spawn(input, _, _) => RefusesSpawn(limits, g.tasks, input, e)
    case Acknowledge(receipt, _) => e == NotificationAckConflict && !Delivers(g.outbox, receipt.notificationId)
    case AdvanceClock(_, _, _, _) => false
    case _ =>
      || (ClaimsForAborted(op) && e == SessionAborted)
      || (e == TaskNotFound && !Knows(g.tasks, TaskNamed(op).value))
      || exists k :: 0 <= k < |g.tasks| && g.tasks[k].id == TaskNamed(op).value && Objects(limits, g, op, g.tasks[k], e)
  }

  lemma ClaimRefusal(limits: Limits, g: Graph, op: Op, k: nat)
    requires UniqueIds(g.tasks) && op.Claim? && !op.sessionAborted && k < |g.tasks| && g.tasks[k].id == op.taskId
    requires ReduceClaim(limits, g, op).Err?
    ensures Objects(limits, g, op, g.tasks[k], ReduceClaim(limits, g, op).error)
  {
    var t := g.tasks[k];
    FindIsUnique(g.tasks, k);
    NothingUnresolved(g.tasks, t.blockedBy);
    if t.kind != MainBrowserStep { CountsRivals(g.tasks, t.kind); }
  }

  lemma RunRefusal(limits: Limits, g: Graph, op: Op, k: nat)
    requires UniqueIds(g.tasks) && CarriesRun(op) && k < |g.tasks| && g.tasks[k].id == op.run.taskId
    ensures Reduce(limits, g, op).Err? ==> Objects(limits, g, op, g.tasks[k], Reduce(limits, g, op).error)
  {
    FindIsUnique(g.tasks, k);
  }

  lemma ReducedHolds(g: Graph, op: Op, k: nat)
    requires UniqueIds(g.tasks) && CarriesRun(op) && k < |g.tasks| && g.tasks[k].id == op.run.taskId
    requires RequireFenced(g.tasks, op.run).Ok?
    ensures Holds(g.tasks[k], op.run)
  {
    FindIsUnique(g.tasks, k);
  }

  lemma LateRefusal(limits: Limits, g: Graph, op: Op, k: nat)
    requires UniqueIds(g.tasks) && CarriesRun(op) && k < |g.tasks| && g.tasks[k].id == op.run.taskId
    requires Reduce(limits, g, op).Ok? && Late(g, op)
    ensures Objects(limits, g, op, g.tasks[k], ErrorCode.LeaseExpired)
  {
    assert RequireFenced(g.tasks, op.run).Ok?;
    ReducedHolds(g, op, k);
    FindIsUnique(g.tasks, k);
  }

  lemma CancelRefusal(limits: Limits, g: Graph, op: Op, k: nat)
    requires UniqueIds(g.tasks) && (op.CancelQueued? || op.RequestCancel?)
    requires k < |g.tasks| && g.tasks[k].id == op.taskId
    ensures Reduce(limits, g, op).Err? ==> Objects(limits, g, op, g.tasks[k], Reduce(limits, g, op).error)
    ensures Reduce(limits, g, op).Ok? && Late(g, op) ==> Objects(limits, g, op, g.tasks[k], ErrorCode.LeaseExpired)
  {
    FindIsUnique(g.tasks, k);
  }

  lemma NamedRefusal(limits: Limits, g: Graph, op: Op)
    requires LinkedGraph(g.tasks) && TaskNamed(op).Some? && Commit(limits, g, op).Err?
    ensures Justified(limits, g, op, Commit(limits, g, op).error)
  {
    if op.Claim? && op.sessionAborted {
      AbortedIsRefused(limits, g, op);
    } else if k :| 0 <= k < |g.tasks| && g.tasks[k].id == TaskNamed(op).value {
      CommitCondition(limits, g, op);
      if op.Claim? { ClaimRefusal(limits, g, op, k); }
      else if op.CancelQueued? || op.RequestCancel? { CancelRefusal(limits, g, op, k); }
      else if Reduce(limits, g, op).Err? { RunRefusal(limits, g, op, k); }
      else { LateRefusal(limits, g, op, k); }
    } else {
      UnknownIsRefused(limits, g, op);
    }
  }

  /** Where a spawn is refused. */
  lemma SpawnErrors(limits: Limits, g: Graph, op: Op)
    requires op.Spawn? && ReduceSpawn(limits, g, op).Err?
    ensures
      var e := ReduceSpawn(limits, g, op).error;
      || (e == PolicyViolation && op.input.kind == MainBrowserStep)
      || (e == IdempotencyConflict && FindKey(g.tasks, op.input.idempotencyKey).Some?)
      || (e == QueueCapacityExceeded && limits.maxQueued <= CountOpen(g.tasks))
      || AddTask(g.tasks, CreateTask(op.input, op.now)) == Err(e)
  {
  }

  lemma SpawnRefusal(limits: Limits, g: Graph, op: Op)
    requires LinkedGraph(g.tasks) && op.Spawn? && ReduceSpawn(limits, g, op).Err?
    ensures RefusesSpawn(limits, g.tasks, op.input, ReduceSpawn(limits, g, op).error)
  {
    SpawnErrors(limits, g, op);
    FreeKey(g.tasks, op.input.idempotencyKey);
    CountsOpen(g.tasks);
    if AddTask(g.tasks, CreateTask(op.input, op.now)).Err? { AdditionRefusal(g.tasks, op.input, op.now); }
  }

  /** Where the addition is refused. */
  lemma AdditionErrors(tasks: seq<Task>, t: Task)
    requires LinkedGraph(tasks) && Distinct(t.blocks) && Distinct(t.blockedBy) && AddTask(tasks, t).Err?
    ensures
      var e := AddTask(tasks, t).error;
      || (e == IdempotencyConflict
          && (t.id in Ids(tasks) || exists s :: s in tasks && s.idempotencyKey == t.idempotencyKey))
      || (e == DependencyUnresolved && !References(t, Ids(tasks)))
      || (e == DagCycle && exists b, d :: b in Elements(t.blocks) && d in Elements(t.blockedBy)
                                          && Dag.Reaches(LinksOf(tasks), b, d))
  {
    if Addable(tasks, t) && forall s | s in tasks :: s.idempotencyKey != t.idempotencyKey {
      CycleErrorCondition(tasks, t);
    }
  }

  lemma AdditionRefusal(tasks: seq<Task>, input: TaskInput, now: Time)
    requires LinkedGraph(tasks) && AddTask(tasks, CreateTask(input, now)).Err?
    ensures
      var e := AddTask(tasks, CreateTask(input, now)).error;
      || (e == IdempotencyConflict
          && (Knows(tasks, input.id)
              || exists i :: 0 <= i < |tasks| && tasks[i].idempotencyKey == input.idempotencyKey))
      || (e == DependencyUnresolved
          && exists b :: (b in input.blockedBy || b in input.blocks) && b != input.id && !Knows(tasks, b))
      || (e == DagCycle && ClosesLoop(tasks, input))
  {
    var t := CreateTask(input, now);
    IsCreated(input, now);
    KnownIds(tasks);
    AdditionErrors(tasks, t);
    LoopIsCycle(tasks, input, t);
    ReferencesKnown(tasks, input, t);
  }

  /** Every refusal names something that is the case. */
  lemma RefusalIsJustified(limits: Limits, g: Graph, used: set<Id>, op: Op)
    requires GraphInv(g, used) && LinkedGraph(g.tasks) && Commit(limits, g, op).Err?
    ensures Justified(limits, g, op, Commit(limits, g, op).error)
  {
    if op.Spawn? {
      CommitCondition(limits, g, op);
      SpawnRefusal(limits, g, op);
    }
    else if op.Acknowledge? {
      ReceiptCondition(limits, g, used, op);
      ReceiptRefusal(limits, g, used, op);
    }
    else if op.AdvanceClock? { CommitCondition(limits, g, op); }
    else { NamedRefusal(limits, g, op); }
  }

  lemma ReceiptRefusal(limits: Limits, g: Graph, used: set<Id>, op: Op)
    requires GraphInv(g, used) && LinkedGraph(g.tasks) && op.Acknowledge? && Commit(limits, g, op).Err?
    ensures Commit(limits, g, op).error == NotificationAckConflict
  {
    CommitCondition(limits, g, op);
    var found := FindEntry(g.outbox, op.receipt.notificationId);
    if found.Some? {
      var k :| 0 <= k < |g.outbox| && g.outbox[k] == found.value;
      AnnouncedIsKnown(g, used, k);
    }
  }

  // ---------------------------------------------------------------- the store's own check

  ghost predicate HoldsYet(t: Task, run: RunIdentity, at: Time) {
    Holds(t, run) && at <= t.lease.value.expiresAt
  }

  /** The event is about one task, before and after, and respects the run that task is in. */
  ghost predicate Fenced(g: Graph, h: Graph, e: Event, id: Id) {
    exists i, k ::
      && 0 <= i < |g.tasks| && g.tasks[i].id == id && 0 <= k < |h.tasks| && h.tasks[k].id == id
      && match e.body
         case TaskClaimed(run, _) => g.tasks[i].status == Pending && Holds(h.tasks[k], run)
         case TaskCancelledBeforeRun(_, _, _) => true
         case TaskNotificationAcknowledged(_, _) => true
         case TaskLeaseExpired(run, _) => Holds(g.tasks[i], run)
         case TaskProgressed(run, _) => HoldsYet(g.tasks[i], run, e.occurredAt)
         case TaskRetryScheduled(run, _, _) => HoldsYet(g.tasks[i], run, e.occurredAt)
         case TaskCancelRequested(run, _) => HoldsYet(g.tasks[i], run, e.occurredAt)
         case TaskCompleted(run, _, _) => HoldsYet(g.tasks[i], run, e.occurredAt)
         case TaskFailed(run, _) => HoldsYet(g.tasks[i], run, e.occurredAt)
         case TaskKilled(run, _) => HoldsYet(g.tasks[i], run, e.occurredAt)
         case _ => false
  }

  ghost predicate Adds(g: Graph, h: Graph, id: Id, key: Id) {
    !Knows(g.tasks, id) && exists k :: 0 <= k < |h.tasks| && h.tasks[k].id == id && h.tasks[k].idempotencyKey == key
  }

  /** Only a browser action moves the clock, and by one; every other event respects its task. */
  ghost predicate FenceHolds(g: Graph, h: Graph, e: Event) {
    match e.body
    case BrowserActionAdvanced(_, previous, current, _) =>
      previous == g.actionSeq && current == previous + 1 && h.actionSeq == current
    case TaskCreated(id, key, _) => h.actionSeq == g.actionSeq && Adds(g, h, id, key)
    case TaskCancelledBeforeRun(id, _, _) => h.actionSeq == g.actionSeq && Fenced(g, h, e, id)
    case TaskNotificationAcknowledged(id, _) => h.actionSeq == g.actionSeq && Fenced(g, h, e, id)
    case _ => h.actionSeq == g.actionSeq && Fenced(g, h, e, e.body.run.taskId)
  }

  /** One step of the session, by one event. */
  ghost predicate Follows(g: Graph, m: Mutation, sessionId: Id) {
    var h, e := m.graph, m.event;
    && h.identity.sessionId == sessionId
    && h.identity.graphId == g.identity.graphId && h.identity.runId == g.identity.runId
    && h.revision == g.revision + 1 && e.revisionBefore == g.revision && e.revisionAfter == h.revision
    && e.eventSeq == g.nextEventSeq && h.nextEventSeq == g.nextEventSeq + 1
    && e.sessionId == sessionId && e.graphId == g.identity.graphId
    && FenceHolds(g, h, e)
  }

  lemma FoundExactly(tasks: seq<Task>, id: Id)
    requires UniqueIds(tasks)
    ensures Find(tasks, id).Some? <==> Knows(tasks, id)
    ensures forall i | 0 <= i < |tasks| && tasks[i].id == id :: Find(tasks, id) == Some(tasks[i])
  {
    forall i | 0 <= i < |tasks| && tasks[i].id == id
      ensures Find(tasks, id) == Some(tasks[i])
    {
      FindIsUnique(tasks, i);
    }
    FoundIsKnown(tasks, id);
  }

  /** Of any change, whoever proposes it, the store accepts exactly what is one step of the session. */
  lemma StoreAccepts(g: Graph, m: Mutation, sessionId: Id)
    requires UniqueIds(g.tasks) && UniqueIds(m.graph.tasks)
    ensures ValidationError(g, m, sessionId).None? <==> Follows(g, m, sessionId)
  {
    FenceAccepts(g, m.graph, m.event);
  }

  lemma FenceAccepts(g: Graph, h: Graph, e: Event)
    requires UniqueIds(g.tasks) && UniqueIds(h.tasks)
    ensures FenceError(g, h, e).None? <==> FenceHolds(g, h, e)
  {
    if EventTask(e.body).Some? {
      var id := EventTask(e.body).value;
      FoundExactly(g.tasks, id);
      FoundExactly(h.tasks, id);
      if Knows(g.tasks, id) && Knows(h.tasks, id) && !e.body.TaskCreated? && h.actionSeq == g.actionSeq {
        var i :| 0 <= i < |g.tasks| && g.tasks[i].id == id;
        var k :| 0 <= k < |h.tasks| && h.tasks[k].id == id;
        FenceAt(g, h, e, id, i, k);
      }
    }
  }

  lemma FenceAt(g: Graph, h: Graph, e: Event, id: Id, i: nat, k: nat)
    requires UniqueIds(g.tasks) && UniqueIds(h.tasks) && h.actionSeq == g.actionSeq
    requires EventTask(e.body) == Some(id) && !e.body.TaskCreated?
    requires i < |g.tasks| && g.tasks[i].id == id && k < |h.tasks| && h.tasks[k].id == id
    ensures FenceError(g, h, e).None? <==> Fenced(g, h, e, id)
  {
    FindIsUnique(g.tasks, i);
    FindIsUnique(h.tasks, k);
    assert forall j | 0 <= j < |g.tasks| && g.tasks[j].id == id :: j == i;
    assert forall j | 0 <= j < |h.tasks| && h.tasks[j].id == id :: j == k;
  }

  /** A write-ahead file is installed exactly when its graph is there already or one step ahead of the snapshot. */
  lemma RecoveryAccepts(snapshot: Option<Graph>, wal: StoreMachine.Wal)
    requires UniqueIds(wal.graph.tasks) && (snapshot.Some? ==> UniqueIds(snapshot.value.tasks))
    ensures StoreMachine.RecoveryRefusal(snapshot, wal).None?
       <==> && snapshot.Some?
            && (snapshot.value.revision == wal.graph.revision
                || Follows(snapshot.value, Mutation(wal.graph, wal.event), snapshot.value.identity.sessionId))
    ensures snapshot.None? ==> StoreMachine.RecoveryRefusal(snapshot, wal) == Some(GraphNotFound)
  {
    if snapshot.Some? {
      StoreAccepts(snapshot.value, Mutation(wal.graph, wal.event), snapshot.value.identity.sessionId);
    }
  }
}
