/**
 One session with a task that is blocked although its only blocker is completed: the run of the
 abandoned session succeeds in time, and then a task is spawned behind the completed one
 (packages/web-buddy/src/agents/task-graph.ts:685-722).
 */
module StuckSession {
  import opened Contracts
  import opened Sorting
  import opened TaskGraph
  import opened GraphLinks
  import opened Reducers
  import opened Invariants
  import opened Runs
  import opened Guarantees
  import opened Fencing
  import opened SchedulerSteps
  import opened AbandonedLease
  import opened Stalling

  const REPORT := TaskInput(8, 0, CandidateJobResearch, [1], [], 9, 9, NotActionBound, DoesNotBlock, 1, 10)
  const SUCCEED := Succeed(RunIdentity(1, 1, 4, 5), [77], 6, 5)
  const FOLLOW := Spawn(REPORT, 7, 6)

  function Finished(limits: Limits, identity: GraphIdentity): System {
    Next(limits, Abandoned(limits, identity), SUCCEED)
  }

  /** The research has been claimed under the lease of the abandoned session. */
  ghost predicate OnlyResearch(s: System, g: Graph) {
    s.graph.tasks == [ClaimedTask(g, CreateTask(RESEARCH, 0), 5, 4, 0)] && IdsBelow(s.used, 5)
  }

  /** The research is completed, and nothing else is there. */
  ghost predicate OnlyCompleted(s: System) {
    && IdsBelow(s.used, 7) && |s.graph.tasks| == 1
    && s.graph.tasks[0].id == 1 && s.graph.tasks[0].status == Completed && s.graph.tasks[0].idempotencyKey == 7
  }

  lemma SuccessCommits(limits: Limits, s: System, g: Graph)
    requires LinkedGraph(s.graph.tasks) && OnlyResearch(s, g)
    ensures Admissible(s.graph, s.used, SUCCEED) && OnlyCompleted(Next(limits, s, SUCCEED))
  {
    CommitCondition(limits, s.graph, SUCCEED);
  }

  lemma ResearchSucceeds(limits: Limits, identity: GraphIdentity, s: System, g: Graph)
    requires Reachable(limits, identity, 0, s) && OnlyResearch(s, g)
    ensures Reachable(limits, identity, 0, Next(limits, s, SUCCEED)) && OnlyCompleted(Next(limits, s, SUCCEED))
  {
    ReachableIsLinked(limits, identity, 0, s);
    SuccessCommits(limits, s, g);
    NextStaysReachable(limits, identity, 0, s, SUCCEED);
  }

  /** The run succeeds at time 5, under its lease to time 10. */
  lemma FinishedTasks(limits: Limits, identity: GraphIdentity)
    requires limits.maxQueued > 0 && limits.maxReadOnly > 0
    ensures Reachable(limits, identity, 0, Finished(limits, identity)) && OnlyCompleted(Finished(limits, identity))
  {
    AbandonedTasks(limits, identity);
    ResearchSucceeds(limits, identity, Abandoned(limits, identity), Next(limits, Start(identity, 0), SPAWN).graph);
  }

  lemma ReportWaits()
    ensures IsReport(FOLLOW)
  {
  }

  lemma AddedBehind(tasks: seq<Task>, t: Task)
    requires LinkedGraph(tasks) && |tasks| == 1 && tasks[0].id == 1 && tasks[0].idempotencyKey == 7
    requires t.id == 8 && t.idempotencyKey == 9 && t.blockedBy == [1] && t.blocks == []
    ensures AddTask(tasks, t).Ok?
  {
    assert tasks[0] in tasks && forall s | s in tasks :: s == tasks[0];
    CycleErrorCondition(tasks, t);
    assert Elements(t.blocks) == {};
  }

  /** What the report is, whatever else it holds. */
  predicate IsReport(op: Op) {
    && op.Spawn? && op.input.kind != MainBrowserStep
    && var t := CreateTask(op.input, op.now);
       t.id == 8 && t.idempotencyKey == 9 && t.inputDigest == 9 && t.blockedBy == [1] && t.blocks == []
  }

  lemma ReportReduces(limits: Limits, g: Graph, op: Op)
    requires limits.maxQueued > 0 && LinkedGraph(g.tasks) && |g.tasks| == 1 && IsReport(op)
    requires g.tasks[0].id == 1 && g.tasks[0].idempotencyKey == 7 && g.tasks[0].status == Completed
    ensures ReduceSpawn(limits, g, op).Ok? && Commit(limits, g, op) == Reduce(limits, g, op)
  {
    AddedBehind(g.tasks, CreateTask(op.input, op.now));
    NothingOpen(g.tasks);
    SpawnReduces(limits, g, op);
    CommitCondition(limits, g, op);
  }

  lemma SpawnReduces(limits: Limits, g: Graph, op: Op)
    requires op.Spawn? && op.input.kind != MainBrowserStep && CountOpen(g.tasks) < limits.maxQueued
    requires
      var t := CreateTask(op.input, op.now);
      ResolveSpawn(g.tasks, t.idempotencyKey, t.inputDigest) == ToCreate && AddTask(g.tasks, t).Ok?
    ensures ReduceSpawn(limits, g, op).Ok?
  {
  }

  lemma NothingOpen(tasks: seq<Task>)
    requires |tasks| == 1 && tasks[0].idempotencyKey == 7 && tasks[0].status == Completed
    ensures CountOpen(tasks) == 0 && ResolveSpawn(tasks, 9, 9) == ToCreate
  {
    assert tasks[1..] == [] && tasks[..0] == [];
  }

  lemma OneCompleted(tasks: seq<Task>)
    requires UniqueIds(tasks) && |tasks| == 1 && tasks[0].id == 1 && tasks[0].status == Completed
    ensures NoneStuck(tasks) && AllCompleted(tasks, [1])
  {
    FindIsUnique(tasks, 0);
  }

  lemma ReportIsStuckSpawn(tasks: seq<Task>)
    requires AllCompleted(tasks, [1])
    ensures StuckSpawn(tasks, FOLLOW)
  {
    ReportWaits();
  }

  lemma ReportGetsStuck(limits: Limits, identity: GraphIdentity, s: System)
    requires limits.maxQueued > 0 && Reachable(limits, identity, 0, s) && OnlyCompleted(s)
    ensures Admissible(s.graph, s.used, FOLLOW) && Accepted(limits, s, FOLLOW)
    ensures
      var n := Next(limits, s, FOLLOW);
      Reachable(limits, identity, 0, n) && |n.graph.tasks| == 2 && Stuck(n.graph.tasks, 1)
  {
    ReachableIsLinked(limits, identity, 0, s);
    ReportWaits();
    ReportReduces(limits, s.graph, FOLLOW);
    OneCompleted(s.graph.tasks);
    ReportIsStuckSpawn(s.graph.tasks);
    SpawnedStuck(limits, s.graph, FOLLOW);
    NextStaysReachable(limits, identity, 0, s, FOLLOW);
  }

  /** No task is stuck in the finished session; the accepted spawn of the next one leaves it stuck. */
  lemma SpawnGetsStuck(limits: Limits, identity: GraphIdentity)
    requires limits.maxQueued > 0 && limits.maxReadOnly > 0
    ensures
      var s := Finished(limits, identity);
      && Reachable(limits, identity, 0, s) && Admissible(s.graph, s.used, FOLLOW) && Accepted(limits, s, FOLLOW)
      && NoneStuck(s.graph.tasks) && StuckSpawn(s.graph.tasks, FOLLOW)
    ensures
      var n := Next(limits, Finished(limits, identity), FOLLOW);
      Reachable(limits, identity, 0, n) && |n.graph.tasks| == 2 && Stuck(n.graph.tasks, 1)
  {
    FinishedTasks(limits, identity);
    OneCompleted(Finished(limits, identity).graph.tasks);
    ReportIsStuckSpawn(Finished(limits, identity).graph.tasks);
    ReportGetsStuck(limits, identity, Finished(limits, identity));
  }
}
