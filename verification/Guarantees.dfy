/**
 What users of the control plane rely on, for every reachable state and every continuation:
 the log explains the snapshot, stale leases stay dead, retries are bounded, blocked work is
 never started, idempotency keys are never reused, the action clock counts distinct actions
 and the task graph cannot deadlock.
 */
module Guarantees {
  import opened Wrappers
  import opened Contracts
  import opened Sorting
  import opened TaskGraph
  import opened GraphLinks
  import opened Reducers
  import opened Invariants
  import opened EventLog
  import opened LogRules
  import opened Measures
  import opened Fencing
  import opened Runs
  import Dag

  // ---------------------------------------------------------------- reachable states and continuations

  ghost predicate Reachable(limits: Limits, identity: GraphIdentity, clock: nat, s: System) {
    exists ops :: Plausible(limits, Start(identity, clock), ops) && After(limits, Start(identity, clock), ops) == s
  }

  function StartView(identity: GraphIdentity, clock: nat): View {
    Project(EmptyGraph(identity, clock))
  }

  lemma ReachableInv(limits: Limits, identity: GraphIdentity, clock: nat, s: System)
    requires Reachable(limits, identity, clock, s)
    ensures SystemInv(limits, StartView(identity, clock), s)
  {
    var ops :| Plausible(limits, Start(identity, clock), ops) && After(limits, Start(identity, clock), ops) == s;
    RunKeepsInv(limits, identity, clock, ops);
  }

  /** Later states keep the invariant and only extend what was there. */
  lemma {:induction false} ContinuationKeeps(limits: Limits, start: View, s: System, more: seq<Op>)
    requires SystemInv(limits, start, s) && Plausible(limits, s, more)
    ensures SystemInv(limits, start, After(limits, s, more))
    ensures GraphEvolves(s.graph, After(limits, s, more).graph)
  {
    if more == [] {
      EvolvesReflexive(s.graph);
    } else {
      var front := more[..|more| - 1];
      var mid := After(limits, s, front);
      ContinuationKeeps(limits, start, s, front);
      StepKeepsInv(limits, start, mid, more[|more| - 1]);
      GraphEvolvesTransitive(s.graph, mid.graph, After(limits, s, more).graph);
    }
  }

  // ---------------------------------------------------------------- the log explains the snapshot

  /**
   In every reachable state the log is contiguous and chained, folding it gives the snapshot's
   projection, and each task's attempt is the number of its claims.
   */
  lemma LogDeterminesSnapshot(limits: Limits, identity: GraphIdentity, clock: nat, s: System)
    requires Reachable(limits, identity, clock, s)
    ensures Chained(s.log) && s.graph.revision == |s.log| && s.graph.nextEventSeq == |s.log| + 1
    ensures Fold(StartView(identity, clock), s.log) == Project(s.graph)
    ensures forall t | t in s.graph.tasks ::
              t.attempt == CountClaims(s.log, t.id) && CountEnds(s.log, t.id) == (if Terminal(t.status) then 1 else 0)
    ensures OutboxTold(Project(s.graph), s.log)
  {
    ReachableInv(limits, identity, clock, s);
    forall t | t in s.graph.tasks
      ensures t.attempt == CountClaims(s.log, t.id) && CountEnds(s.log, t.id) == (if Terminal(t.status) then 1 else 0)
    {
      HistoryOfTask(StartView(identity, clock), s.graph, s.log, t);
    }
    OutboxIsAnnouncedMinusAcknowledged(StartView(identity, clock), s.log);
  }

  lemma HistoryOfTask(start: View, g: Graph, log: seq<Event>, t: Task)
    requires start.tasks == map[] && LegalLog(start, log) && Fold(start, log) == Project(g) && UniqueIds(g.tasks)
    requires t in g.tasks
    ensures t.attempt == CountClaims(log, t.id) && CountEnds(log, t.id) == (if Terminal(t.status) then 1 else 0)
  {
    var k :| 0 <= k < |g.tasks| && g.tasks[k] == t;
    ViewAt(g.tasks, k);
    AttemptsAreClaims(start, log, t.id);
    OneEnding(start, log, t.id);
  }

  /** The notification outbox holds one entry for each task that ended otherwise than by `task_killed`, and no other. */
  lemma OutboxHoldsExactlyTheAnnounced(limits: Limits, identity: GraphIdentity, clock: nat, s: System)
    requires Reachable(limits, identity, clock, s)
    ensures forall t | t in s.graph.tasks ::
              (exists k :: 0 <= k < |s.graph.outbox| && s.graph.outbox[k].notification.taskId == t.id) <==> Announced(t)
    ensures forall j, k | 0 <= j < k < |s.graph.outbox| ::
              s.graph.outbox[j].notification.taskId != s.graph.outbox[k].notification.taskId
  {
    ReachableInv(limits, identity, clock, s);
    forall t | t in s.graph.tasks
      ensures t.id in EntryTasks(s.graph.outbox) <==> Announced(t)
    {
      var i :| 0 <= i < |s.graph.tasks| && s.graph.tasks[i] == t;
      assert Announced(t) ==> t.id in AnnouncedIds(s.graph.tasks);
      if t.id in AnnouncedIds(s.graph.tasks) {
        var j :| 0 <= j < |s.graph.tasks| && Announced(s.graph.tasks[j]) && s.graph.tasks[j].id == t.id;
        assert i == j;
      }
    }
  }

  // ---------------------------------------------------------------- stale leases

  lemma RefusedLater(limits: Limits, g: Graph, h: Graph, used: set<Id>, op: Op)
    requires GraphEvolves(g, h) && GraphInv(h, used) && CarriesRun(op) && ClosedLease(g, op.run.leaseId)
    ensures Commit(limits, h, op).Err?
  {
    ClosedLeaseStaysClosed(g, h, op.run.leaseId);
    ClosedLeaseIsRefused(limits, h, used, op);
  }

  /** Once a lease's record is closed, no outcome under that lease ever changes anything again. */
  lemma ClosedLeaseIsPowerless(limits: Limits, identity: GraphIdentity, clock: nat, s: System, more: seq<Op>, op: Op)
    requires Reachable(limits, identity, clock, s) && Plausible(limits, s, more)
    requires CarriesRun(op) && ClosedLease(s.graph, op.run.leaseId)
    ensures
      var later := After(limits, s, more);
      Next(limits, later, op) == later
  {
    var start := StartView(identity, clock);
    ReachableInv(limits, identity, clock, s);
    ContinuationKeeps(limits, start, s, more);
    var later := After(limits, s, more);
    RefusedLater(limits, s.graph, later.graph, later.used, op);
  }

  /** In a reachable state a transaction commits exactly when its reducer does and its lease has not run out. */
  lemma CommitsUnlessLate(limits: Limits, identity: GraphIdentity, clock: nat, s: System, op: Op)
    requires Reachable(limits, identity, clock, s) && !Replayed(s, op)
    ensures Accepted(limits, s, op) <==> Reduce(limits, s.graph, op).Ok? && !Late(s.graph, op)
  {
    ReachableInv(limits, identity, clock, s);
    CommitCondition(limits, s.graph, op);
  }

  /** A task that has ended keeps its record: no continuation changes anything in it but its links. */
  lemma EndedTasksAreFinal(limits: Limits, identity: GraphIdentity, clock: nat, s: System, more: seq<Op>, i: nat)
    requires Reachable(limits, identity, clock, s) && Plausible(limits, s, more)
    requires i < |s.graph.tasks| && Terminal(s.graph.tasks[i].status)
    ensures
      var later := After(limits, s, more).graph.tasks;
      i < |later| && later[i] == s.graph.tasks[i].(blocks := later[i].blocks, blockedBy := later[i].blockedBy)
  {
    ReachableInv(limits, identity, clock, s);
    ContinuationKeeps(limits, StartView(identity, clock), s, more);
    assert TaskEvolves(s.graph.tasks[i], After(limits, s, more).graph.tasks[i]);
  }

  // ---------------------------------------------------------------- bounded work

  /** How many transactions of the run changed some task's status. */
  function StatusChanges(limits: Limits, s: System, ops: seq<Op>): nat {
    if ops == [] then 0
    else
      var front := ops[..|ops| - 1];
      var mid := After(limits, s, front);
      StatusChanges(limits, s, front)
        + if StatusChanged(mid.graph.tasks, Next(limits, mid, ops[|ops| - 1]).graph.tasks) then 1 else 0
  }

  lemma {:induction false} ChangesUseRank(limits: Limits, start: View, s: System, ops: seq<Op>)
    requires SystemInv(limits, start, s) && Plausible(limits, s, ops)
    ensures
      var last := After(limits, s, ops).graph.tasks;
      SumRank(last) - Allowance(last)
        + StatusChanges(limits, s, ops) <= SumRank(s.graph.tasks) - Allowance(s.graph.tasks)
  {
    if ops != [] {
      var front := ops[..|ops| - 1];
      var op := ops[|ops| - 1];
      var mid := After(limits, s, front);
      ChangesUseRank(limits, start, s, front);
      ContinuationKeeps(limits, start, s, front);
      if Accepted(limits, mid, op) {
        ReduceUsesRank(limits, mid.graph, mid.used, op);
      }
    }
  }

  /**
   However the transactions interleave, a session makes at most two status changes per allowed
   attempt and two more per task, and claims at most as often as the tasks allow attempts.
   */
  lemma WorkIsBounded(limits: Limits, identity: GraphIdentity, clock: nat, ops: seq<Op>)
    requires Plausible(limits, Start(identity, clock), ops)
    ensures
      var s := After(limits, Start(identity, clock), ops);
      && StatusChanges(limits, Start(identity, clock), ops) <= Allowance(s.graph.tasks)
      && CountAllClaims(s.log) <= SumMaxAttempts(s.graph.tasks)
  {
    var start := Start(identity, clock);
    StartInv(limits, identity, clock);
    RunKeepsInv(limits, identity, clock, ops);
    ChangesUseRank(limits, Project(start.graph), start, ops);
    var s := After(limits, start, ops);
    InvariantFitsRank(s.graph.tasks, s.used, s.graph.actionSeq);
    RankBounds(s.graph.tasks);
  }

  /**
   In every reachable state a task is running exactly while it holds a lease, of its current
   attempt; it has one record per attempt, under distinct leases, of which at most the last is
   open and only while the task runs; it is completed exactly when its last attempt succeeded,
   and only then has outputs, all of that attempt and lease; unstarted and requeued tasks always
   have an attempt left.
   */
  lemma TaskStatesAreSound(limits: Limits, identity: GraphIdentity, clock: nat, s: System, k: nat)
    requires Reachable(limits, identity, clock, s) && k < |s.graph.tasks|
    ensures
      var t := s.graph.tasks[k];
      var last := |t.attempts| - 1;
      && (t.status == Running <==> t.lease.Some?) && (t.lease.Some? ==> t.lease.value.attempt == t.attempt)
      && |t.attempts| == t.attempt <= t.maxAttempts
      && (forall i, j | 0 <= i < j < |t.attempts| ::
          t.attempts[i].runIdentity.leaseId != t.attempts[j].runIdentity.leaseId)
      && (forall j | 0 <= j < |t.attempts| && t.attempts[j].state == InProgress :: j == last && t.status == Running)
      && (t.status == Running ==> last >= 0 && t.attempts[last].state == InProgress)
      && (t.status == Completed <==> last >= 0 && t.attempts[last].state.Succeeded?)
      && (t.outputs != [] <==> t.status == Completed)
      && (forall o | o in t.outputs ::
          last >= 0 && o.attempt == t.attempt && o.leaseId == t.attempts[last].runIdentity.leaseId)
      && (t.status == Pending || t.status == Blocked ==> t.attempt < t.maxAttempts)
  {
    ReachableInv(limits, identity, clock, s);
    assert TaskInv(s.graph.tasks[k]);
    RecordsAreSound(s.graph.tasks[k]);
  }

  lemma RecordsAreSound(t: Task)
    requires TaskInv(t)
    ensures forall j | 0 <= j < |t.attempts| && t.attempts[j].state == InProgress ::
              j == |t.attempts| - 1 && t.status == Running
    ensures t.attempts != [] && t.attempts[|t.attempts| - 1].state.Succeeded? ==> t.status == Completed
  {
  }

  /** Queue and capacity limits hold in every reachable state. */
  lemma LimitsHold(limits: Limits, identity: GraphIdentity, clock: nat, s: System)
    requires Reachable(limits, identity, clock, s)
    ensures WithinLimits(limits, s.graph.tasks)
  {
    ReachableInv(limits, identity, clock, s);
  }

  // ---------------------------------------------------------------- dependencies

  lemma {:induction false} UnresolvedEmpty(tasks: seq<Task>, ids: seq<Id>, x: Id)
    requires Unresolved(tasks, ids) == [] && x in ids
    ensures CompletedIn(tasks, x)
  {
    assert x in Unresolved(tasks, ids) <==> !CompletedIn(tasks, x);
  }

  /**
   Only a claim of the task itself starts an attempt, and only with all its blockers completed in
   the same snapshot.
   */
  lemma AttemptNeedsCompletedBlockers(limits: Limits, g: Graph, op: Op, i: nat)
    requires LinkedGraph(g.tasks) && Reduce(limits, g, op).Ok? && i < |g.tasks|
    requires i < |Reduce(limits, g, op).value.graph.tasks|
    requires Reduce(limits, g, op).value.graph.tasks[i].attempt != g.tasks[i].attempt
    ensures op.Claim? && op.taskId == g.tasks[i].id
    ensures forall b | b in g.tasks[i].blockedBy :: CompletedIn(g.tasks, b)
  {
    if op.Spawn? {
      AdditionShape(g.tasks, CreateTask(op.input, op.now));
    } else {
      OtherReducersKeepShape(limits, g, op);
      assert Moves(g.tasks[i], Reduce(limits, g, op).value.graph.tasks[i], op.Claim?);
      if op.Claim? {
        var k := IndexOf(g.tasks, op.taskId);
        forall b | b in g.tasks[k].blockedBy
          ensures CompletedIn(g.tasks, b)
        {
          UnresolvedEmpty(g.tasks, g.tasks[k].blockedBy, b);
        }
      }
    }
  }

  /** The task waits for one that ended without completing. */
  ghost predicate BehindDeadBlocker(tasks: seq<Task>, i: nat, b: nat) {
    && i < |tasks| && b < |tasks|
    && tasks[i].attempt == 0
    && tasks[b].id in tasks[i].blockedBy
    && (tasks[b].status == Failed || tasks[b].status == Killed)
  }

  lemma NeverStartsBlocked(limits: Limits, g: Graph, op: Op, i: nat, b: nat)
    requires LinkedGraph(g.tasks) && Reduce(limits, g, op).Ok? && BehindDeadBlocker(g.tasks, i, b)
    requires i < |Reduce(limits, g, op).value.graph.tasks|
    ensures Reduce(limits, g, op).value.graph.tasks[i].attempt == 0
  {
    if Reduce(limits, g, op).value.graph.tasks[i].attempt != 0 {
      AttemptNeedsCompletedBlockers(limits, g, op, i);
      FindIsUnique(g.tasks, b);
    }
  }

  lemma StepNeverStartsBlocked(limits: Limits, s: System, op: Op, i: nat, b: nat)
    requires LinkedGraph(s.graph.tasks) && GraphEvolves(s.graph, Next(limits, s, op).graph)
    requires BehindDeadBlocker(s.graph.tasks, i, b)
    ensures BehindDeadBlocker(Next(limits, s, op).graph.tasks, i, b)
  {
    if Accepted(limits, s, op) {
      NeverStartsBlocked(limits, s.graph, op, i, b);
    }
    StillBehind(s.graph, Next(limits, s, op).graph, i, b);
  }

  lemma StillBehind(g: Graph, h: Graph, i: nat, b: nat)
    requires GraphEvolves(g, h) && BehindDeadBlocker(g.tasks, i, b) && h.tasks[i].attempt == 0
    ensures BehindDeadBlocker(h.tasks, i, b)
  {
    assert TaskEvolves(g.tasks[i], h.tasks[i]) && TaskEvolves(g.tasks[b], h.tasks[b]);
  }

  /** An unstarted task behind a failed or killed blocker is never claimed in any continuation. */
  lemma {:induction false} DeadBlockerBlocksForever(limits: Limits, identity: GraphIdentity, clock: nat, s: System,
                                                    more: seq<Op>, i: nat, b: nat)
    requires Reachable(limits, identity, clock, s) && Plausible(limits, s, more)
    requires BehindDeadBlocker(s.graph.tasks, i, b)
    ensures BehindDeadBlocker(After(limits, s, more).graph.tasks, i, b)
  {
    if more != [] {
      var front := more[..|more| - 1];
      DeadBlockerBlocksForever(limits, identity, clock, s, front, i, b);
      ReachableInv(limits, identity, clock, s);
      ContinuationKeeps(limits, StartView(identity, clock), s, front);
      var mid := After(limits, s, front);
      StepKeepsInv(limits, StartView(identity, clock), mid, more[|more| - 1]);
      StepNeverStartsBlocked(limits, mid, more[|more| - 1], i, b);
    }
  }

  ghost predicate OnlyWaiting(tasks: seq<Task>) {
    forall t | t in tasks ::
      t.status == Completed || t.status == Pending
        || (t.status == Blocked && t.blockReason.Some? && t.blockReason.value.DependencyWait?)
  }

  lemma RefreshedStatus(tasks: seq<Task>, id: Id)
    requires UniqueIds(tasks)
    ensures CompletedIn(Refresh(tasks), id) <==> CompletedIn(tasks, id)
  {
    var ys := Refresh(tasks);
    SameIds(tasks, ys);
    if id in Ids(tasks) {
      var i :| 0 <= i < |tasks| && tasks[i].id == id;
      FindIsUnique(tasks, i);
      FindIsUnique(ys, i);
    }
  }

  lemma AllResolved(tasks: seq<Task>, ids: seq<Id>)
    requires forall x | x in ids :: CompletedIn(tasks, x)
    ensures Unresolved(tasks, ids) == []
  {
    NonEmptyHasMember(Unresolved(tasks, ids));
  }

  lemma BlockerIsEdge(tasks: seq<Task>, k: nat, b: Id)
    requires MirroredLinks(tasks) && k < |tasks| && b in tasks[k].blockedBy
    ensures b in Ids(tasks) && Dag.Edge(LinksOf(tasks), b, tasks[k].id)
  {
    assert tasks[k] in tasks;
    assert b in Ids(tasks);
    var j :| 0 <= j < |tasks| && tasks[j].id == b;
    assert tasks[j] in tasks;
    EdgeIsLink(tasks, b, tasks[k].id);
  }

  /** A set of waiting tasks always contains one all of whose blockers are completed. */
  lemma SomeTaskIsFirst(tasks: seq<Task>, waiting: set<Id>) returns (k: nat)
    requires LinkedGraph(tasks) && waiting != {} && waiting <= Ids(tasks)
    requires forall t | t in tasks :: t.id !in waiting ==> CompletedIn(tasks, t.id)
    ensures k < |tasks| && tasks[k].id in waiting && forall b | b in tasks[k].blockedBy :: CompletedIn(tasks, b)
  {
    assert MirroredLinks(tasks);
    var links := LinksOf(tasks);
    Dag.FirstElementExists(links, waiting);
    var first :| first in waiting && !Dag.PrecededFrom(links, waiting, first);
    k :| 0 <= k < |tasks| && tasks[k].id == first;
    forall b | b in tasks[k].blockedBy
      ensures CompletedIn(tasks, b)
    {
      BlockerIsEdge(tasks, k, b);
      assert b !in waiting;
    }
  }

  /**
   No deadlock: when nothing runs and nothing failed, was killed or is held manually, then after
   the dependency refresh either every task is completed or some pending task has all its blockers completed.
   */
  lemma NoDeadlock(tasks: seq<Task>)
    requires LinkedGraph(tasks) && OnlyWaiting(tasks)
    ensures
      || (forall t | t in Refresh(tasks) :: t.status == Completed)
      || (exists t :: t in Refresh(tasks) && t.status == Pending && Unresolved(Refresh(tasks), t.blockedBy) == [])
  {
    var waiting := set t | t in tasks && t.status != Completed :: t.id;
    if forall t | t in tasks :: t.status == Completed {
      forall t | t in Refresh(tasks)
        ensures t.status == Completed
      {
        var i :| 0 <= i < |tasks| && Refresh(tasks)[i] == t;
        assert tasks[i] in tasks;
      }
    } else {
      var open :| open in tasks && open.status != Completed;
      assert open.id in waiting;
      forall t | t in tasks && t.id !in waiting
        ensures CompletedIn(tasks, t.id)
      {
        FindMember(tasks, t);
      }
      var k := SomeTaskIsFirst(tasks, waiting);
      FirstIsRunnable(tasks, k, waiting);
      assert Refresh(tasks)[k] in Refresh(tasks);
    }
  }

  lemma FirstIsRunnable(tasks: seq<Task>, k: nat, waiting: set<Id>)
    requires UniqueIds(tasks) && OnlyWaiting(tasks) && k < |tasks| && tasks[k].id in waiting
    requires waiting == set t | t in tasks && t.status != Completed :: t.id
    requires forall b | b in tasks[k].blockedBy :: CompletedIn(tasks, b)
    ensures var t := Refresh(tasks)[k]; t.status == Pending && Unresolved(Refresh(tasks), t.blockedBy) == []
  {
    var other :| other in tasks && other.status != Completed && other.id == tasks[k].id;
    FindMember(tasks, other);
    FindIsUnique(tasks, k);
    AllResolved(tasks, tasks[k].blockedBy);
    forall b | b in tasks[k].blockedBy
      ensures CompletedIn(Refresh(tasks), b)
    {
      RefreshedStatus(tasks, b);
    }
    AllResolved(Refresh(tasks), tasks[k].blockedBy);
  }

  // ---------------------------------------------------------------- idempotency

  /**
   Once a task with an idempotency key exists, every later spawn under that key leaves the
   session unchanged and is answered with that task, or with a conflict when the digest differs.
   */
  lemma SpawnIsIdempotent(limits: Limits, identity: GraphIdentity, clock: nat, s: System, more: seq<Op>, i: nat, op: Op)
    requires Reachable(limits, identity, clock, s) && Plausible(limits, s, more)
    requires i < |s.graph.tasks| && op.Spawn? && op.input.idempotencyKey == s.graph.tasks[i].idempotencyKey
    ensures
      var later := After(limits, s, more);
      && Next(limits, later, op) == later
      && i < |later.graph.tasks| && later.graph.tasks[i].id == s.graph.tasks[i].id
      && ResolveSpawn(later.graph.tasks, op.input.idempotencyKey, op.input.inputDigest)
         == if op.input.inputDigest == s.graph.tasks[i].inputDigest
            then ExistingSameDigest(later.graph.tasks[i]) else Conflict(later.graph.tasks[i])
  {
    ReachableInv(limits, identity, clock, s);
    ContinuationKeeps(limits, StartView(identity, clock), s, more);
    KnownKeyResolves(limits, s.graph, After(limits, s, more).graph, i, op);
  }

  lemma KnownKeyResolves(limits: Limits, g: Graph, h: Graph, i: nat, op: Op)
    requires GraphEvolves(g, h) && i < |g.tasks| && op.Spawn? && op.input.idempotencyKey == g.tasks[i].idempotencyKey
    requires forall j, k | 0 <= j < k < |h.tasks| :: h.tasks[j].idempotencyKey != h.tasks[k].idempotencyKey
    ensures Commit(limits, h, op).Err? && i < |h.tasks| && h.tasks[i].id == g.tasks[i].id
    ensures ResolveSpawn(h.tasks, op.input.idempotencyKey, op.input.inputDigest)
         == if op.input.inputDigest == g.tasks[i].inputDigest then ExistingSameDigest(h.tasks[i])
           else Conflict(h.tasks[i])
  {
    assert TaskEvolves(g.tasks[i], h.tasks[i]);
    KeyIsUnique(h.tasks, i);
  }

  lemma {:induction false} KeyIsUnique(tasks: seq<Task>, i: nat)
    requires forall j, k | 0 <= j < k < |tasks| :: tasks[j].idempotencyKey != tasks[k].idempotencyKey
    requires i < |tasks|
    ensures FindKey(tasks, tasks[i].idempotencyKey) == Some(tasks[i])
  {
    if i > 0 {
      assert tasks[0].idempotencyKey != tasks[i].idempotencyKey;
      assert tasks[1..][i - 1] == tasks[i];
      KeyIsUnique(tasks[1..], i - 1);
    }
  }

  // ---------------------------------------------------------------- the action clock

  /** The clock is its initial value plus the number of distinct browser actions accepted. */
  lemma ClockCountsDistinctActions(limits: Limits, identity: GraphIdentity, clock: nat, s: System)
    requires Reachable(limits, identity, clock, s)
    ensures s.graph.actionSeq == clock + |ActionIds(s.log)|
  {
    ReachableInv(limits, identity, clock, s);
    ClockCountsActions(StartView(identity, clock), s.log);
  }

  lemma {:induction false} ClockPassedSource(start: View, log: seq<Event>, source: nat)
    requires LegalLog(start, log)
    ensures Fold(start, log).clock > source <==>
              start.clock > source
              || exists k ::
                   0 <= k < |log| && log[k].body.BrowserActionAdvanced? && log[k].body.currentActionSeq > source
    ensures start.clock <= Fold(start, log).clock
  {
    if log != [] {
      var n := |log| - 1;
      ClockPassedSource(start, log[..n], source);
      assert forall k | 0 <= k < n :: log[..n][k] == log[k];
      assert (exists k :: 0 <= k < |log| && log[k].body.BrowserActionAdvanced? && log[k].body.currentActionSeq > source)
        <==> (exists k ::
                0 <= k < n && log[..n][k].body.BrowserActionAdvanced? && log[..n][k].body.currentActionSeq > source)
             || (log[n].body.BrowserActionAdvanced? && log[n].body.currentActionSeq > source);
    }
  }

  /**
   Assessing freshness never fails at commit, and a result is stale exactly when a browser
   action after its source was recorded, or the session already started past it.
   */
  lemma FreshnessIsDecided(limits: Limits, identity: GraphIdentity, clock: nat, s: System, i: nat)
    requires Reachable(limits, identity, clock, s) && i < |s.graph.tasks|
    ensures
      var t := s.graph.tasks[i];
      var r := AssessFreshness(t.actionBinding, s.graph.actionSeq);
      && r.Ok?
      && (r.value.Assessed? <==> t.actionBinding.BrowserAction?)
      && (r.value.Assessed? ==>
            (r.value.stale <==>
               || clock > t.actionBinding.sourceActionSeq
               || exists k :: 0 <= k < |s.log| && s.log[k].body.BrowserActionAdvanced?
                              && s.log[k].body.currentActionSeq > t.actionBinding.sourceActionSeq))
  {
    ReachableInv(limits, identity, clock, s);
    var t := s.graph.tasks[i];
    assert TaskInv(t);
    if t.actionBinding.BrowserAction? {
      ClockPassedSource(StartView(identity, clock), s.log, t.actionBinding.sourceActionSeq);
    }
  }
}
