/**
 One session on which three operations of the scheduler fail: a read-only task was claimed at time
 0 and its lease runs to time 10 (packages/web-buddy/src/agents/task-scheduler.ts:173-209;
 packages/web-buddy/src/agents/async-task-resume.ts:108-140, 190-202).
 */
module AbandonedLease {
  import opened Wrappers
  import opened Contracts
  import opened TaskGraph
  import opened GraphLinks
  import opened Reducers
  import opened Runs
  import opened Fencing
  import opened Guarantees
  import opened SchedulerSteps
  import opened OutboxDelivery
  import opened Scheduler
  import NQ = NotificationQueue

  const RESEARCH := TaskInput(1, 0, CandidateJobResearch, [], [], 7, 7, NotActionBound, DoesNotBlock, 1, 10)
  const SPAWN := Spawn(RESEARCH, 2, 0)
  const CLAIM := Claim(1, 5, 4, None, false, 0, 3, 0)

  lemma StartIsReachable(limits: Limits, identity: GraphIdentity)
    ensures Reachable(limits, identity, 0, Start(identity, 0)) && LinkedGraph([])
  {
    assert After(limits, Start(identity, 0), []) == Start(identity, 0);
    ReachableIsLinked(limits, identity, 0, Start(identity, 0));
  }

  lemma SpawnedAlone()
    requires LinkedGraph([])
    ensures AddTask([], CreateTask(RESEARCH, 0)) == Ok([CreateTask(RESEARCH, 0)])
  {
    var t := CreateTask(RESEARCH, 0);
    assert t.blocks == [] && t.blockedBy == [];
    CycleErrorCondition([], t);
    SyncOfAddition([], t);
    assert SyncLinks([] + [t]) == [t];
  }

  lemma SpawnCommits(limits: Limits, identity: GraphIdentity)
    requires limits.maxQueued > 0 && LinkedGraph([])
    ensures Commit(limits, EmptyGraph(identity, 0), SPAWN).Ok?
    ensures Commit(limits, EmptyGraph(identity, 0), SPAWN).value.graph.tasks == [CreateTask(RESEARCH, 0)]
  {
    SpawnedAlone();
    assert CountOpen([]) == 0 && ResolveSpawn([], 7, 7) == ToCreate;
    CommitCondition(limits, EmptyGraph(identity, 0), SPAWN);
  }

  lemma ReadyToClaim(limits: Limits)
    requires limits.maxReadOnly > 0
    ensures Claimable(limits, [CreateTask(RESEARCH, 0)], 0, 0)
  {
    var t := CreateTask(RESEARCH, 0);
    assert [t][1..] == [] && t.blockedBy == [] && t.status == Pending;
    assert CountRunning([], ReadOnlyLlm) == 0;
    assert CountRunning([t], ReadOnlyLlm) == 0;
  }

  function Abandoned(limits: Limits, identity: GraphIdentity): System {
    Next(limits, Next(limits, Start(identity, 0), SPAWN), CLAIM)
  }

  lemma AbandonedTasks(limits: Limits, identity: GraphIdentity)
    requires limits.maxQueued > 0 && limits.maxReadOnly > 0
    ensures
      var s := Abandoned(limits, identity);
      && Reachable(limits, identity, 0, s) && IdsBelow(s.used, 5)
      && s.graph.tasks == [ClaimedTask(Next(limits, Start(identity, 0), SPAWN).graph, CreateTask(RESEARCH, 0), 5, 4, 0)]
  {
    SpawnedTasks(limits, identity);
    ReadyToClaim(limits);
    ClaimStep(limits, identity, 0, Next(limits, Start(identity, 0), SPAWN), 0, CLAIM);
  }

  lemma SpawnedTasks(limits: Limits, identity: GraphIdentity)
    requires limits.maxQueued > 0
    ensures
      var s := Next(limits, Start(identity, 0), SPAWN);
      Reachable(limits, identity, 0, s) && IdsBelow(s.used, 3) && s.graph.tasks == [CreateTask(RESEARCH, 0)]
  {
    StartIsReachable(limits, identity);
    SpawnCommits(limits, identity);
    NextStaysReachable(limits, identity, 0, Start(identity, 0), SPAWN);
  }

  /** Whatever the limits, unless they forbid the task altogether. */
  lemma LeaseCanRunOut(limits: Limits, identity: GraphIdentity)
    requires limits.maxQueued > 0 && limits.maxReadOnly > 0
    ensures
      var s := Abandoned(limits, identity);
      && Reachable(limits, identity, 0, s) && IdsBelow(s.used, 5)
      && |s.graph.tasks| == 1 && s.graph.tasks[0].id == 1 && s.graph.tasks[0].status == Running
      && s.graph.tasks[0].lease.Some? && s.graph.tasks[0].lease.value.expiresAt == 10
  {
    AbandonedTasks(limits, identity);
  }

  /** Asked to stop at time 10 the run is asked; at time 11 the store refuses. */
  lemma CancelAfterTheLease(limits: Limits, identity: GraphIdentity)
    requires limits.maxQueued > 0 && limits.maxReadOnly > 0
    ensures Commit(limits, Abandoned(limits, identity).graph, RequestCancel(1, 9, UserRequest, 5, 10)).Ok?
    ensures Commit(limits, Abandoned(limits, identity).graph, RequestCancel(1, 9, UserRequest, 5, 11))
              == Err(ErrorCode.LeaseExpired)
  {
    LeaseCanRunOut(limits, identity);
    var s := Abandoned(limits, identity);
    RequestStep(limits, identity, 0, s, 0, RequestCancel(1, 9, UserRequest, 5, 10));
    RequestStep(limits, identity, 0, s, 0, RequestCancel(1, 9, UserRequest, 5, 11));
  }

  method SchedulerAt(limits: Limits, identity: GraphIdentity, clock: Time) returns (scheduler: AgentTaskScheduler)
    requires limits.maxQueued > 0 && limits.maxReadOnly > 0
    ensures fresh(scheduler) && fresh(scheduler.notifications) && scheduler.Valid() && !scheduler.aborted
    ensures scheduler.notifications.Valid() && scheduler.notifications.State() == NQ.EMPTY
    ensures forall id :: scheduler.setup(id).None?
    ensures scheduler.clock == clock && scheduler.store == Abandoned(limits, identity)
  {
    LeaseCanRunOut(limits, identity);
    var queue := new NQ.TaskNotificationQueue();
    scheduler := new AgentTaskScheduler(limits, 5, id => None, queue, identity, 0, Abandoned(limits, identity), 5,
                                        clock);
  }

  /** Told to abort first, the scheduler recovers nothing, and the resume at time 10 fails. */
  method ResumeAfterAbort(limits: Limits, identity: GraphIdentity) returns (r: Result<seq<RunIdentity>, ResumeError>)
    requires limits.maxQueued > 0 && limits.maxReadOnly > 0
    ensures r == Err(NotRecovered)
  {
    LeaseCanRunOut(limits, identity);
    var scheduler := SchedulerAt(limits, identity, 10);
    scheduler.aborted := true;
    assert LeaseOver(scheduler.store.graph.tasks[0], 10);
    ghost var candidates: seq<Task>;
    r, candidates := scheduler.Resume(10);
  }

  /** Never told to abort, but on a clock that stays before 10, it recovers nothing either: a resume at 10 fails. */
  method ResumeAheadOfTheClock(limits: Limits, identity: GraphIdentity)
    returns (r: Result<seq<RunIdentity>, ResumeError>, ended: Time)
    requires limits.maxQueued > 0 && limits.maxReadOnly > 0
    ensures ended < 10 ==> r == Err(NotRecovered)
  {
    LeaseCanRunOut(limits, identity);
    var scheduler := SchedulerAt(limits, identity, 0);
    r, ended := ResumeQuietly(scheduler);
  }

  /** Without anything queued and with every runner at hand, the tick of the resume cannot throw. */
  method ResumeQuietly(scheduler: AgentTaskScheduler) returns (r: Result<seq<RunIdentity>, ResumeError>, ended: Time)
    requires scheduler.Valid() && !scheduler.aborted && OverAt10(scheduler.store.graph.tasks)
    requires scheduler.notifications.Valid() && scheduler.notifications.State() == NQ.EMPTY
    requires forall id :: scheduler.setup(id).None?
    modifies scheduler, scheduler.notifications
    ensures ended < 10 ==> r == Err(NotRecovered)
  {
    ghost var tasks := scheduler.store.graph.tasks;
    ghost var candidates: seq<Task>;
    r, candidates := scheduler.Resume(10);
    ended := scheduler.clock;
    NothingThrows(scheduler.setup, candidates);
    NothingQueued(scheduler.store.graph.outbox);
    if ended < 10 { OverInBetween(tasks, ended); }
  }

  ghost predicate OverAt10(tasks: seq<Task>) {
    |tasks| == 1 && tasks[0].status == Running && tasks[0].lease.Some? && tasks[0].lease.value.expiresAt == 10
  }

  lemma OverInBetween(tasks: seq<Task>, now: Time)
    requires OverAt10(tasks) && now < 10
    ensures SomeLeaseBetween(tasks, now, 10)
  {
    assert LeaseOver(tasks[0], 10) && !LeaseOver(tasks[0], now);
  }

  lemma NothingThrows(setup: Id -> Option<ErrorCode>, tasks: seq<Task>)
    requires forall id :: setup(id).None?
    ensures forall e :: !SetupThrows(setup, tasks, e)
  {
  }

  lemma NothingQueued(outbox: seq<OutboxEntry>)
    ensures Sourced(NQ.EMPTY, outbox)
  {
  }

  /** At time 11 the abort of the session throws, and the task goes on unasked. */
  method AbortAfterTheLease(limits: Limits, identity: GraphIdentity) returns (r: Result<nat, ErrorCode>, store: System)
    requires limits.maxQueued > 0 && limits.maxReadOnly > 0
    ensures r == Err(ErrorCode.LeaseExpired) && store.graph.tasks == Abandoned(limits, identity).graph.tasks
  {
    LeaseCanRunOut(limits, identity);
    var scheduler := SchedulerAt(limits, identity, 11);
    assert RunOut(scheduler.store.graph.tasks[0], 11);
    ghost var at: nat;
    r, at := scheduler.AbortSession(id => id);
    store := scheduler.store;
    assert store.graph.tasks == Abandoned(limits, identity).graph.tasks;
  }
}
