/**
 Who unblocks a task: only the transaction of a success refreshes dependency blocks
 (packages/web-buddy/src/agents/task-scheduler.ts:416-460, 955-967), so a task spawned on blockers
 that are already completed (packages/web-buddy/src/agents/task-graph.ts:685-722) stays blocked
 until some other task succeeds.
 */
module Stalling {
  import opened Wrappers
  import opened Contracts
  import opened TaskGraph
  import opened GraphLinks
  import opened Reducers
  import opened Invariants
  import opened Runs
  import opened Guarantees

  predicate WaitsForDependencies(t: Task) {
    t.status == Blocked && t.blockReason.Some? && t.blockReason.value.DependencyWait?
  }

  /** Nothing runs and nothing may be claimed. */
  ghost predicate Idle(tasks: seq<Task>) {
    forall i | 0 <= i < |tasks| :: tasks[i].status != Pending && tasks[i].status != Running
  }

  // ---------------------------------------------------------------- spawning

  /** The task waits for its dependencies, and all of them are completed. */
  ghost predicate Stuck(tasks: seq<Task>, i: nat) {
    i < |tasks| && WaitsForDependencies(tasks[i]) && AllCompleted(tasks, tasks[i].blockedBy)
  }

  ghost predicate NoneStuck(tasks: seq<Task>) {
    forall i: nat :: !Stuck(tasks, i)
  }

  ghost predicate AllCompleted(tasks: seq<Task>, ids: seq<Id>) {
    forall b | b in ids :: CompletedIn(tasks, b)
  }

  /** The spawn of a task that names blockers, all of which are completed already. */
  ghost predicate StuckSpawn(tasks: seq<Task>, op: Op) {
    op.Spawn? && var t := CreateTask(op.input, op.now); t.blockedBy != [] && AllCompleted(tasks, t.blockedBy)
  }

  lemma SpawnShape(limits: Limits, g: Graph, op: Op)
    requires LinkedGraph(g.tasks) && op.Spawn? && ReduceSpawn(limits, g, op).Ok?
    ensures
      var t := CreateTask(op.input, op.now);
      var next := ReduceSpawn(limits, g, op).value.graph.tasks;
      ExtendedBy(g.tasks, t, next) && UniqueIds(next) && Addable(g.tasks, t)
  {
    var t := CreateTask(op.input, op.now);
    SpawnAdds(limits, g, op);
    AddTaskKeepsLinkedGraph(g.tasks, t);
    AdditionShape(g.tasks, t);
  }

  /** The addition of an uncompleted task completes nothing. */
  lemma CompletedBeside(xs: seq<Task>, ys: seq<Task>, t: Task, id: Id)
    requires UniqueIds(xs) && UniqueIds(ys) && ExtendedBy(xs, t, ys) && t.status != Completed && t.id !in Ids(xs)
    ensures CompletedIn(ys, id) <==> CompletedIn(xs, id)
  {
    if id in Ids(xs) {
      var k := IndexOf(xs, id);
      FindIsUnique(ys, k);
    } else {
      assert forall k | 0 <= k < |xs| :: xs[k] in xs && ys[k].id != id;
    }
  }

  lemma StuckBeside(xs: seq<Task>, ys: seq<Task>, t: Task, i: nat)
    requires UniqueIds(xs) && UniqueIds(ys) && ExtendedBy(xs, t, ys) && t.status != Completed && t.id !in Ids(xs)
    requires i < |xs|
    ensures Stuck(ys, i) <==> Stuck(xs, i) && xs[i].id !in t.blocks
  {
    CompletedBeside(xs, ys, t, t.id);
    assert !CompletedIn(xs, t.id);
    forall b | b in xs[i].blockedBy
      ensures CompletedIn(ys, b) <==> CompletedIn(xs, b)
    {
      CompletedBeside(xs, ys, t, b);
    }
    assert ys[i] == Extended(xs[i], t);
    assert forall b | b in xs[i].blockedBy :: b in ys[i].blockedBy;
    assert xs[i].id in t.blocks ==> t.id in ys[i].blockedBy;
  }

  lemma StuckAtOnce(xs: seq<Task>, ys: seq<Task>, t: Task)
    requires UniqueIds(xs) && UniqueIds(ys) && ExtendedBy(xs, t, ys) && t.status != Completed && t.id !in Ids(xs)
    ensures Stuck(ys, |xs|) <==> WaitsForDependencies(t) && AllCompleted(xs, t.blockedBy)
  {
    forall b | b in t.blockedBy
      ensures CompletedIn(ys, b) <==> CompletedIn(xs, b)
    {
      CompletedBeside(xs, ys, t, b);
    }
  }

  lemma WaitsFromTheStart(input: TaskInput, now: Time)
    ensures var t := CreateTask(input, now); t.status != Completed && (WaitsForDependencies(t) <==> t.blockedBy != [])
  {
  }

  /** A task spawned on completed blockers is stuck from the start; in an idle session that leaves nothing to do. */
  lemma SpawnedStuck(limits: Limits, g: Graph, op: Op)
    requires LinkedGraph(g.tasks) && op.Spawn? && ReduceSpawn(limits, g, op).Ok?
    ensures
      var next := ReduceSpawn(limits, g, op).value.graph.tasks;
      && |next| == |g.tasks| + 1
      && (Stuck(next, |g.tasks|) <==> StuckSpawn(g.tasks, op))
      && (Idle(g.tasks) && StuckSpawn(g.tasks, op) ==> Idle(next))
  {
    WaitsFromTheStart(op.input, op.now);
    SpawnShape(limits, g, op);
    StuckAtOnce(g.tasks, ReduceSpawn(limits, g, op).value.graph.tasks, CreateTask(op.input, op.now));
  }

  // ---------------------------------------------------------------- being released

  /**
   `u` takes the place of a task that was neither ended nor, unless it is cancelled, blocked; it is
   neither completed nor blocked.
   */
  predicate Replacement(t: Task, op: Op, u: Task) {
    && u.id == t.id && u.status != Completed && u.status != Blocked && t.status != Completed
    && (if op.CancelQueued? then op.taskId == u.id && u.status == Killed
        else t.status == Pending || t.status == Running)
  }

  /** One task at most is replaced; a cancellation replaces the task it names. */
  ghost predicate Replaces(g: Graph, op: Op, h: Graph) {
    || (h.tasks == g.tasks && !op.CancelQueued?)
    || exists k: nat, u: Task :: k < |g.tasks| && Replacement(g.tasks[k], op, u) && h.tasks == Replace(g.tasks, u)
  }

  lemma IsReplacement(g: Graph, op: Op, h: Graph, k: nat, u: Task)
    requires k < |g.tasks| && Replacement(g.tasks[k], op, u) && h.tasks == Replace(g.tasks, u)
    ensures Replaces(g, op, h)
  {
  }

  lemma RunsReplace(g: Graph, op: Op, r: Result<Mutation, ErrorCode>)
    requires UniqueIds(g.tasks) && r.Ok?
    requires (op.Progress? && r == ReduceProgress(g, op)) || (op.Fail? && r == ReduceFail(g, op))
               || (op.Abort? && r == ReduceAbort(g, op))
    ensures Replaces(g, op, r.value.graph)
  {
    var k := IndexOf(g.tasks, op.run.taskId);
    var t := g.tasks[k];
    match op
    case Progress(_, _, _, _) => IsReplacement(g, op, r.value.graph, k, t);
    case Abort(_, _, _) =>
      var bySession := t.cancellation.Some? && t.cancellation.value.reason == SessionAbort;
      IsReplacement(g, op, r.value.graph, k, AbortedTask(t, op.run, CancelError(bySession, t.id, op.now), op.now));
    case Fail(_, _, _, _, _) =>
      var error := MapRunnerError(op.error, t.id, op.now);
      var again := op.error.retrySameTask && t.attempt < t.maxAttempts;
      IsReplacement(g, op, r.value.graph, k,
                    if again then RetriedTask(t, op.run, error, op.now, op.nextAttemptAt)
                    else FailedTask(t, op.run, error, op.now));
  }

  lemma ControlReplaces(limits: Limits, g: Graph, op: Op, r: Result<Mutation, ErrorCode>)
    requires UniqueIds(g.tasks) && r.Ok?
    requires (op.Claim? && r == ReduceClaim(limits, g, op)) || (op.CancelQueued? && r == ReduceCancelQueued(g, op))
             || (op.RequestCancel? && r == ReduceRequestCancel(g, op))
    ensures Replaces(g, op, r.value.graph)
  {
    var k := IndexOf(g.tasks, op.taskId);
    var t := g.tasks[k];
    match op
    case Claim(_, _, _, _, _, _, _, _) =>
      IsReplacement(g, op, r.value.graph, k, ClaimedTask(g, t, op.schedulerId, op.leaseId, op.now));
    case RequestCancel(_, _, _, _, _) =>
      IsReplacement(g, op, r.value.graph, k, t.(cancellation := Some(Cancellation(op.requestId, op.now, op.reason))));
    case CancelQueued(_, _, _, _, _) =>
      var error := CancelError(op.reason == SessionAbort, t.id, op.now);
      IsReplacement(g, op, r.value.graph, k,
                    CancelledTask(t, Cancellation(op.requestId, op.now, op.reason), error, op.now));
  }

  lemma ExpiryReplaces(g: Graph, op: Op)
    requires UniqueIds(g.tasks) && op.ExpireLease? && ReduceExpire(g, op).Ok?
    ensures Replaces(g, op, ReduceExpire(g, op).value.graph)
  {
    var k := IndexOf(g.tasks, op.run.taskId);
    var t := g.tasks[k];
    IsReplacement(g, op, ReduceExpire(g, op).value.graph, k,
                  RecoveredTask(t, op.run, DispositionOf(t) != RequeueReadOnly, RecoveryError(t, op.now), op.now));
  }

  lemma ReducersReplace(limits: Limits, g: Graph, op: Op)
    requires UniqueIds(g.tasks) && Reduce(limits, g, op).Ok? && !op.Spawn? && !op.Succeed?
    ensures Replaces(g, op, Reduce(limits, g, op).value.graph)
  {
    if op.ExpireLease? { ExpiryReplaces(g, op); }
    else if op.Progress? || op.Fail? || op.Abort? { RunsReplace(g, op, Reduce(limits, g, op)); }
    else if op.Claim? || op.CancelQueued? || op.RequestCancel? {
      ControlReplaces(limits, g, op, Reduce(limits, g, op));
    }
  }

  /** Apart from a success, a transaction leaves a blocked task blocked, or kills it. */
  lemma OnlySuccessReleases(limits: Limits, g: Graph, op: Op, i: nat)
    requires LinkedGraph(g.tasks) && Reduce(limits, g, op).Ok? && !op.Succeed?
    requires i < |g.tasks| && g.tasks[i].status == Blocked
    ensures
      var next := Reduce(limits, g, op).value.graph.tasks;
      i < |next| && (next[i].status == Blocked
                     || (next[i].status == Killed && op.CancelQueued? && op.taskId == g.tasks[i].id))
  {
    if op.Spawn? {
      SpawnShape(limits, g, op);
      assert ReduceSpawn(limits, g, op).value.graph.tasks[i] == Extended(g.tasks[i], CreateTask(op.input, op.now));
    } else {
      ReducersReplace(limits, g, op);
      ReplacedStaysBlocked(g, op, Reduce(limits, g, op).value.graph, i);
    }
  }

  lemma ReplacedStaysBlocked(g: Graph, op: Op, h: Graph, i: nat)
    requires UniqueIds(g.tasks) && Replaces(g, op, h) && i < |g.tasks| && g.tasks[i].status == Blocked
    ensures i < |h.tasks|
    ensures h.tasks[i].status == Blocked
              || (h.tasks[i].status == Killed && op.CancelQueued? && op.taskId == g.tasks[i].id)
  {
  }

  lemma SuccessRefreshes(g: Graph, op: Op, i: nat)
    requires UniqueIds(g.tasks) && op.Succeed? && ReduceSucceed(g, op).Ok? && i < |g.tasks|
    requires g.tasks[i].status == Blocked
    ensures
      var next := ReduceSucceed(g, op).value.graph.tasks;
      var done := Replace(g.tasks, CompletedTask(RequireFenced(g.tasks, op.run).value, op.run, op.outputRefs,
                                                 AssessFreshness(RequireFenced(g.tasks, op.run).value.actionBinding,
                                                                 g.actionSeq).value, op.now));
      next == Refresh(done) && UniqueIds(done) && |done| == |g.tasks| && done[i] == g.tasks[i]
  {
    FindIsUnique(g.tasks, i);
    var k := IndexOf(g.tasks, op.run.taskId);
    assert k != i;
  }

  /**
   A task that waits for its dependencies becomes pending in a transaction if and only if that is
   the success of a run and all its blockers are completed afterwards.
   */
  lemma ReleasedExactly(limits: Limits, g: Graph, op: Op, i: nat)
    requires LinkedGraph(g.tasks) && Reduce(limits, g, op).Ok? && i < |g.tasks| && WaitsForDependencies(g.tasks[i])
    ensures
      var next := Reduce(limits, g, op).value.graph.tasks;
      && i < |next|
      && (next[i].status == Pending <==> op.Succeed? && forall b | b in g.tasks[i].blockedBy :: CompletedIn(next, b))
  {
    if op.Succeed? {
      SuccessRefreshes(g, op, i);
      var next := Reduce(limits, g, op).value.graph.tasks;
      var t := RequireFenced(g.tasks, op.run).value;
      var done := Replace(g.tasks,
          CompletedTask(t, op.run, op.outputRefs, AssessFreshness(t.actionBinding, g.actionSeq).value, op.now));
      forall b | b in g.tasks[i].blockedBy
        ensures CompletedIn(next, b) <==> CompletedIn(done, b)
      {
        RefreshedStatus(done, b);
      }
      if forall b | b in g.tasks[i].blockedBy :: CompletedIn(next, b) {
        AllResolved(done, g.tasks[i].blockedBy);
      } else {
        var b :| b in g.tasks[i].blockedBy && !CompletedIn(next, b);
        assert b in Unresolved(done, g.tasks[i].blockedBy);
      }
    } else {
      OnlySuccessReleases(limits, g, op, i);
    }
  }

  // ---------------------------------------------------------------- being stuck

  lemma RefreshLeavesNoneStuck(tasks: seq<Task>)
    requires UniqueIds(tasks)
    ensures NoneStuck(Refresh(tasks))
  {
    forall i: nat
      ensures !Stuck(Refresh(tasks), i)
    {
      if i < |tasks| && WaitsForDependencies(Refresh(tasks)[i]) {
        var unresolved := Unresolved(tasks, tasks[i].blockedBy);
        assert unresolved[0] in unresolved;
        RefreshedStatus(tasks, unresolved[0]);
      }
    }
  }

  lemma SuccessLeavesNoneStuck(g: Graph, op: Op)
    requires UniqueIds(g.tasks) && op.Succeed? && ReduceSucceed(g, op).Ok?
    ensures NoneStuck(ReduceSucceed(g, op).value.graph.tasks)
    ensures |ReduceSucceed(g, op).value.graph.tasks| == |g.tasks|
  {
    var k := IndexOf(g.tasks, op.run.taskId);
    var t := g.tasks[k];
    var u := CompletedTask(t, op.run, op.outputRefs, AssessFreshness(t.actionBinding, g.actionSeq).value, op.now);
    SameIds(g.tasks, Replace(g.tasks, u));
    RefreshLeavesNoneStuck(Replace(g.tasks, u));
  }

  lemma CompletedWithout(xs: seq<Task>, k: nat, u: Task, id: Id)
    requires UniqueIds(xs) && k < |xs| && u.id == xs[k].id && u.status != Completed && xs[k].status != Completed
    ensures CompletedIn(xs[k := u], id) <==> CompletedIn(xs, id)
  {
    SameIds(xs, xs[k := u]);
    if id in Ids(xs) {
      var i := IndexOf(xs, id);
      FindIsUnique(xs[k := u], i);
    }
  }

  lemma StuckWithout(xs: seq<Task>, k: nat, u: Task, op: Op, i: nat)
    requires UniqueIds(xs) && k < |xs| && Replacement(xs[k], op, u) && i < |xs|
    ensures Stuck(xs[k := u], i) <==> Stuck(xs, i) && !(op.CancelQueued? && op.taskId == xs[i].id)
  {
    forall b | b in xs[i].blockedBy
      ensures CompletedIn(xs[k := u], b) <==> CompletedIn(xs, b)
    {
      CompletedWithout(xs, k, u, b);
    }
  }

  lemma ReplacedStuck(g: Graph, op: Op, h: Graph, i: nat)
    requires UniqueIds(g.tasks) && Replaces(g, op, h) && i < |g.tasks|
    ensures |h.tasks| == |g.tasks|
    ensures Stuck(h.tasks, i) <==> Stuck(g.tasks, i) && !(op.CancelQueued? && op.taskId == g.tasks[i].id)
  {
    if h.tasks != g.tasks || op.CancelQueued? {
      var k: nat, u: Task :| k < |g.tasks| && Replacement(g.tasks[k], op, u) && h.tasks == Replace(g.tasks, u);
      ReplaceAt(g.tasks, k, u);
      StuckWithout(g.tasks, k, u, op, i);
    }
  }

  /**
   A stuck task stays stuck through every transaction but three: the success of any run, its own
   cancellation, and the spawn of a task that is to run before it. No transaction makes a task of
   the session stuck.
   */
  lemma StuckStep(limits: Limits, g: Graph, op: Op, i: nat)
    requires LinkedGraph(g.tasks) && Reduce(limits, g, op).Ok? && i < |g.tasks|
    ensures
      var next := Reduce(limits, g, op).value.graph.tasks;
      && |next| == |g.tasks| + (if op.Spawn? then 1 else 0)
      && (Stuck(next, i)
          <==> Stuck(g.tasks, i) && !op.Succeed? && !(op.CancelQueued? && op.taskId == g.tasks[i].id)
               && !(op.Spawn? && g.tasks[i].id in CreateTask(op.input, op.now).blocks))
  {
    if op.Spawn? {
      SpawnShape(limits, g, op);
      StuckBeside(g.tasks, ReduceSpawn(limits, g, op).value.graph.tasks, CreateTask(op.input, op.now), i);
    } else if op.Succeed? {
      SuccessLeavesNoneStuck(g, op);
    } else {
      ReducersReplace(limits, g, op);
      ReplacedStuck(g, op, Reduce(limits, g, op).value.graph, i);
    }
  }

  /**
   While every waiting task has a blocker that is not completed, a transaction ends that if and only
   if it spawns a task on completed blockers.
   */
  lemma StuckExactly(limits: Limits, g: Graph, op: Op)
    requires LinkedGraph(g.tasks) && NoneStuck(g.tasks) && Reduce(limits, g, op).Ok?
    ensures NoneStuck(Reduce(limits, g, op).value.graph.tasks) <==> !StuckSpawn(g.tasks, op)
  {
    OldOnesStayFree(limits, g, op);
    NextLength(limits, g, op);
    if op.Spawn? { SpawnedStuck(limits, g, op); }
    OnlyTheLast(Reduce(limits, g, op).value.graph.tasks, |g.tasks|, op.Spawn?);
  }

  lemma OnlyTheLast(tasks: seq<Task>, n: nat, spawned: bool)
    requires |tasks| == n + (if spawned then 1 else 0) && forall i: nat | i < n :: !Stuck(tasks, i)
    ensures NoneStuck(tasks) <==> !(spawned && Stuck(tasks, n))
  {
  }

  lemma OldOnesStayFree(limits: Limits, g: Graph, op: Op)
    requires LinkedGraph(g.tasks) && NoneStuck(g.tasks) && Reduce(limits, g, op).Ok?
    ensures forall i: nat | i < |g.tasks| :: !Stuck(Reduce(limits, g, op).value.graph.tasks, i)
  {
    forall i: nat | i < |g.tasks|
      ensures !Stuck(Reduce(limits, g, op).value.graph.tasks, i)
    {
      StuckStep(limits, g, op, i);
    }
  }

  lemma NextLength(limits: Limits, g: Graph, op: Op)
    requires LinkedGraph(g.tasks) && Reduce(limits, g, op).Ok?
    ensures |Reduce(limits, g, op).value.graph.tasks| == |g.tasks| + (if op.Spawn? then 1 else 0)
  {
    if op.Spawn? { SpawnShape(limits, g, op); }
    else if op.Succeed? { SuccessLeavesNoneStuck(g, op); }
    else { ReducersReplace(limits, g, op); }
  }

  /** At no point of the continuation a task is stuck. */
  ghost predicate NeverAnyStuck(limits: Limits, s: System, ops: seq<Op>) {
    && NoneStuck(After(limits, s, ops).graph.tasks)
    && (ops != [] ==> NeverAnyStuck(limits, s, ops[..|ops| - 1]))
  }

  /** No spawn on completed blockers is accepted. */
  ghost predicate NoStuckSpawns(limits: Limits, s: System, ops: seq<Op>) {
    ops != [] ==>
      var front, last := ops[..|ops| - 1], ops[|ops| - 1];
      var mid := After(limits, s, front);
      NoStuckSpawns(limits, s, front) && !(Accepted(limits, mid, last) && StuckSpawn(mid.graph.tasks, last))
  }

  /** Without a stuck task, a continuation never has one if and only if it accepts no spawn on completed blockers. */
  lemma {:induction false} StuckRunsExactly(limits: Limits, identity: GraphIdentity, clock: nat, s: System,
                                            more: seq<Op>)
    requires Reachable(limits, identity, clock, s) && Plausible(limits, s, more) && NoneStuck(s.graph.tasks)
    ensures NeverAnyStuck(limits, s, more) <==> NoStuckSpawns(limits, s, more)
  {
    if more != [] {
      var front, last := more[..|more| - 1], more[|more| - 1];
      StuckRunsExactly(limits, identity, clock, s, front);
      ReachableInv(limits, identity, clock, s);
      ContinuationKeeps(limits, StartView(identity, clock), s, front);
      if NoneStuck(After(limits, s, front).graph.tasks) {
        StuckNext(limits, After(limits, s, front), last);
      }
    }
  }

  lemma StuckNext(limits: Limits, s: System, op: Op)
    requires LinkedGraph(s.graph.tasks) && NoneStuck(s.graph.tasks)
    ensures NoneStuck(Next(limits, s, op).graph.tasks) <==> !(Accepted(limits, s, op) && StuckSpawn(s.graph.tasks, op))
  {
    if Accepted(limits, s, op) { StuckExactly(limits, s.graph, op); }
  }

  // ---------------------------------------------------------------- an idle session

  /** Without something running or pending, only spawning, cancelling, acknowledging and browser actions commit. */
  lemma IdleStays(g: Graph, op: Op, h: Graph)
    requires Idle(g.tasks) && Replaces(g, op, h)
    ensures Idle(h.tasks)
  {
  }

  lemma IdleSpawn(xs: seq<Task>, ys: seq<Task>, t: Task)
    requires Idle(xs) && ExtendedBy(xs, t, ys)
    ensures Idle(ys) <==> t.status != Pending && t.status != Running
  {
    assert ys[|xs|] == t;
  }

  lemma NothingSucceedsIdle(g: Graph, op: Op)
    requires UniqueIds(g.tasks) && Idle(g.tasks) && op.Succeed?
    ensures ReduceSucceed(g, op).Err?
  {
    if Find(g.tasks, op.run.taskId).Some? {
      var k := IndexOf(g.tasks, op.run.taskId);
    }
  }

  /** A transaction ends the idleness if and only if it spawns a task without blockers. */
  lemma IdleEndsExactly(limits: Limits, g: Graph, op: Op)
    requires LinkedGraph(g.tasks) && Idle(g.tasks) && Reduce(limits, g, op).Ok?
    ensures
      Idle(Reduce(limits, g, op).value.graph.tasks)
      <==> !(op.Spawn? && CreateTask(op.input, op.now).blockedBy == [])
  {
    if op.Spawn? {
      SpawnShape(limits, g, op);
      IdleSpawn(g.tasks, ReduceSpawn(limits, g, op).value.graph.tasks, CreateTask(op.input, op.now));
    } else if op.Succeed? {
      NothingSucceedsIdle(g, op);
    } else {
      ReducersReplace(limits, g, op);
      IdleStays(g, op, Reduce(limits, g, op).value.graph);
    }
  }

  /** The transactions hold no spawn of a task without blockers. */
  predicate NoFreeSpawn(ops: seq<Op>) {
    forall k | 0 <= k < |ops| && ops[k].Spawn? :: CreateTask(ops[k].input, ops[k].now).blockedBy != []
  }

  /**
   Along any continuation without such a spawn nothing ever runs again: blocked tasks wait for ever,
   their blockers completed or not.
   */
  lemma {:induction false} IdleForever(limits: Limits, identity: GraphIdentity, clock: nat, s: System, more: seq<Op>)
    requires Reachable(limits, identity, clock, s) && Plausible(limits, s, more) && Idle(s.graph.tasks)
    requires NoFreeSpawn(more)
    ensures Idle(After(limits, s, more).graph.tasks)
  {
    if more != [] {
      var front, last := more[..|more| - 1], more[|more| - 1];
      assert NoFreeSpawn(front);
      IdleForever(limits, identity, clock, s, front);
      ReachableInv(limits, identity, clock, s);
      ContinuationKeeps(limits, StartView(identity, clock), s, front);
      IdleStep(limits, After(limits, s, front), last);
    }
  }

  lemma IdleStep(limits: Limits, s: System, op: Op)
    requires LinkedGraph(s.graph.tasks) && Idle(s.graph.tasks)
    requires op.Spawn? ==> CreateTask(op.input, op.now).blockedBy != []
    ensures Idle(Next(limits, s, op).graph.tasks)
  {
    if Accepted(limits, s, op) {
      IdleEndsExactly(limits, s.graph, op);
    }
  }
}
