/**
 `AgentTaskScheduler` on one session (packages/web-buddy/src/agents/task-scheduler.ts:65-196,
 268-330, 525-591) and the resume that relies on it
 (packages/web-buddy/src/agents/async-task-resume.ts:50-72, 111-131, 178-202), when no other
 process commits in between. The store is its committed session; runner outcomes arrive as
 transactions of their own; the clock is any clock that does not go back.
 */
module Scheduler {
  import opened Wrappers
  import opened Contracts
  import opened TaskGraph
  import opened Reducers
  import opened Invariants
  import opened Runs
  import opened Guarantees
  import opened Outcomes
  import opened SchedulerSteps
  import opened OutboxDelivery
  import NQ = NotificationQueue

  /** The runner of one of the tasks could not be set up, for another reason than an expected conflict. */
  ghost predicate SetupThrows(setup: Id -> Option<ErrorCode>, tasks: seq<Task>, e: ErrorCode) {
    !ExpectedClaimConflict(e) && exists k :: 0 <= k < |tasks| && setup(tasks[k].id) == Some(e)
  }

  /** The recovery events are those of the listed tasks, in order. */
  ghost predicate RecoveryLog(tasks: seq<Task>, events: seq<Event>, done: seq<nat>) {
    && |events| == |done|
    && (forall k | 0 <= k < |done| :: done[k] < |tasks| && Recovers(events[k], tasks[done[k]]))
    && (forall j, k | 0 <= j < k < |done| :: done[j] < done[k])
  }

  lemma RecoveryLogGrows(tasks: seq<Task>, events: seq<Event>, done: seq<nat>, e: Event, i: nat)
    requires RecoveryLog(tasks, events, done) && i < |tasks| && Recovers(e, tasks[i])
    requires forall k | 0 <= k < |done| :: done[k] < i
    ensures RecoveryLog(tasks, events + [e], done + [i])
  {
  }

  /** One pending notification for each recovered task that failed, in order, and none for the others. */
  ghost predicate FailuresAnnounced(tasks: seq<Task>, events: seq<Event>, done: seq<nat>, entries: seq<OutboxEntry>)
    requires RecoveryLog(tasks, events, done)
  {
    if done == [] then entries == []
    else
      var last := |done| - 1;
      var n := if Requeued(tasks[done[last]]) then 0 else 1;
      && n <= |entries|
      && RecoveryAnnounced(tasks[done[last]], events[last], entries[|entries| - n..])
      && FailuresAnnounced(tasks, events[..last], done[..last], entries[..|entries| - n])
  }

  /**
   From one graph to the other the listed tasks were recovered, each at the time of its event: all
   other tasks are as before, and the outbox grew by one notification for each of them that failed.
   */
  ghost predicate Recovered(before: Graph, after: Graph, events: seq<Event>, done: seq<nat>) {
    && RecoveryLog(before.tasks, events, done) && |after.tasks| == |before.tasks|
    && (forall k | 0 <= k < |done| ::
          RecoveredAs(before.tasks[done[k]], after.tasks[done[k]], events[k].occurredAt))
    && (forall j | 0 <= j < |before.tasks| && j !in done :: after.tasks[j] == before.tasks[j])
    && before.outbox <= after.outbox
    && FailuresAnnounced(before.tasks, events, done, after.outbox[|before.outbox|..])
  }

  lemma AnnouncementsGrow(tasks: seq<Task>, events: seq<Event>, done: seq<nat>, e: Event, i: nat,
                          entries: seq<OutboxEntry>, added: seq<OutboxEntry>)
    requires RecoveryLog(tasks, events, done) && i < |tasks| && Recovers(e, tasks[i])
    requires forall k | 0 <= k < |done| :: done[k] < i
    requires FailuresAnnounced(tasks, events, done, entries) && RecoveryAnnounced(tasks[i], e, added)
    ensures RecoveryLog(tasks, events + [e], done + [i])
    ensures FailuresAnnounced(tasks, events + [e], done + [i], entries + added)
  {
    RecoveryLogGrows(tasks, events, done, e, i);
    assert (done + [i])[..|done|] == done && (events + [e])[..|done|] == events;
    assert (entries + added)[..|entries|] == entries && (entries + added)[|entries|..] == added;
  }

  lemma RecoveredGrows(before: Graph, seen: Graph, after: Graph, events: seq<Event>, done: seq<nat>, e: Event, i: nat)
    requires Recovered(before, seen, events, done) && i < |before.tasks| && seen.tasks[i] == before.tasks[i]
    requires forall k | 0 <= k < |done| :: done[k] < i
    requires |after.tasks| == |seen.tasks| && before.tasks[i].lease.Some? && RecoveredBy(seen, after, e, i)
    ensures Recovered(before, after, events + [e], done + [i])
  {
    var entries, added := seen.outbox[|before.outbox|..], after.outbox[|seen.outbox|..];
    AnnouncementsGrow(before.tasks, events, done, e, i, entries, added);
    assert after.outbox[|before.outbox|..] == entries + added;
    assert after.tasks == seen.tasks[i := after.tasks[i]];
  }

  /**
   A tick's part of the log: first the recoveries of the tasks in `done`, among them every lease over
   at `since` and none that is not over at `now`, then claims. The recoveries lead to the tasks and
   the outbox of the graph `seen`.
   */
  ghost predicate RecoveredFirst(first: Graph, seen: Graph, before: seq<Event>, after: seq<Event>, done: seq<nat>,
                                 since: Time, now: Time) {
    && |before| + |done| <= |after|
    && Recovered(first, seen, after[|before|..|before| + |done|], done)
    && ClaimsOnly(after[..|before| + |done|], after)
    && (forall i | 0 <= i < |first.tasks| && LeaseOver(first.tasks[i], since) :: i in done)
    && (forall k | 0 <= k < |done| :: LeaseOver(first.tasks[done[k]], now))
  }

  lemma RecoveredThenClaimed(first: Graph, seen: Graph, before: seq<Event>, recovered: seq<Event>, after: seq<Event>,
                             done: seq<nat>, since: Time, recoveredAt: Time, now: Time)
    requires before <= recovered && Recovered(first, seen, recovered[|before|..], done) && ClaimsOnly(recovered, after)
    requires recoveredAt <= now
    requires forall i | 0 <= i < |first.tasks| && LeaseOver(first.tasks[i], since) :: i in done
    requires forall k | 0 <= k < |done| :: LeaseOver(first.tasks[done[k]], recoveredAt)
    ensures RecoveredFirst(first, seen, before, after, done, since, now)
  {
    assert after[..|recovered|] == recovered;
    assert after[|before|..|recovered|] == recovered[|before|..];
  }

  /** The claims over at `releasedAt` are given back, and what the outbox has pending is queued. */
  ghost predicate Reenqueued(queue: NQ.Queue, outbox: seq<OutboxEntry>, releasedAt: Time, refreshed: NQ.Queue) {
    EnqueuePending(NQ.ReleaseExpired(queue, releasedAt), outbox) == Ok(refreshed)
  }

  /** What a tick did, up to the claims: the queue it found, the queue it left, and the log. */
  ghost predicate Ticked(first: System, seen: Graph, last: System, done: seq<nat>, queue: NQ.Queue, left: NQ.Queue,
                         since: Time, releasedAt: Time, now: Time) {
    && since <= releasedAt <= now && first.log <= last.log && NQ.Later(queue, left)
    && RecoveredFirst(first.graph, seen, first.log, last.log, done, since, now)
    && last.graph.outbox == seen.outbox
    && (Sourced(queue, seen.outbox) ==> Reenqueued(queue, seen.outbox, releasedAt, left))
  }

  class AgentTaskScheduler {
    const limits: Limits
    const schedulerId: Id
    /** What the runner registry or the envelope resolver throws for a task, if anything. */
    const setup: Id -> Option<ErrorCode>
    const notifications: NQ.TaskNotificationQueue
    ghost const identity: GraphIdentity
    ghost const firstClock: nat

    var store: System
    var running: map<Id, RunIdentity>
    var aborted: bool
    var clock: Time
    var nextId: Id

    ghost predicate Valid()
      reads this
    {
      Reachable(limits, identity, firstClock, store) && IdsBelow(store.used, nextId)
    }

    /** Over the store of any reachable session. */
    constructor (limits: Limits, schedulerId: Id, setup: Id -> Option<ErrorCode>,
                 notifications: NQ.TaskNotificationQueue,
                 ghost identity: GraphIdentity, ghost firstClock: nat, store: System, nextId: Id, clock: Time)
      requires Reachable(limits, identity, firstClock, store) && IdsBelow(store.used, nextId)
      ensures Valid() && this.limits == limits && this.schedulerId == schedulerId && this.setup == setup
      ensures this.notifications == notifications && this.store == store && this.clock == clock && !aborted
      ensures running == map[]
    {
      this.limits := limits;
      this.schedulerId := schedulerId;
      this.setup := setup;
      this.notifications := notifications;
      this.identity := identity;
      this.firstClock := firstClock;
      this.store := store;
      running := map[];
      aborted := false;
      this.clock := clock;
      this.nextId := nextId;
    }

    method Now() returns (now: Time)
      modifies this`clock
      ensures old(clock) <= now == clock
    {
      var passed: nat :| true;
      clock := clock + passed;
      now := clock;
    }

    /**
     `recoverExpiredLeases`. Every lease that is over at entry gets exactly one recovery event; all
     recovery events are for tasks that ran at entry, in order. Afterwards those that do no browser
     writes and have an attempt left are pending, the others have failed and are announced, and no
     other task is changed.
     */
    method RecoverExpiredLeases() returns (ghost done: seq<nat>)
      requires Valid()
      modifies this`store, this`clock, this`nextId, this`running
      ensures Valid() && old(clock) <= clock
      ensures old(store.log) <= store.log
      ensures Recovered(old(store.graph), store.graph, store.log[|old(store.log)|..], done)
      ensures forall i | 0 <= i < |old(store.graph.tasks)| && LeaseOver(old(store.graph.tasks)[i], old(clock)) ::
                i in done
      ensures forall k | 0 <= k < |done| :: LeaseOver(old(store.graph.tasks)[done[k]], clock)
    {
      var tasks := store.graph.tasks;
      ghost var first, log := store.graph, store.log;
      done := [];
      assert store.log[|log|..] == [];
      for i := 0 to |tasks|
        invariant Valid() && old(clock) <= clock && log <= store.log
        invariant Swept(first, store.graph, store.log[|log|..], i, done, old(clock), clock)
      {
        done := SweepTask(tasks, first, log, i, done, old(clock));
      }
    }

    /** One round of the recovery loop. */
    method SweepTask(tasks: seq<Task>, ghost first: Graph, ghost log: seq<Event>, i: nat, ghost done: seq<nat>,
                     ghost since: Time)
      returns (ghost swept: seq<nat>)
      requires Valid() && tasks == first.tasks && i < |tasks| && since <= clock && log <= store.log
      requires Swept(first, store.graph, store.log[|log|..], i, done, since, clock)
      modifies this`store, this`clock, this`nextId, this`running
      ensures Valid() && since <= clock && log <= store.log
      ensures Swept(first, store.graph, store.log[|log|..], i + 1, swept, since, clock)
    {
      swept := done;
      var checkedAt := Now();
      if LeaseOver(tasks[i], checkedAt) {
        var now := Now();
        SweepWaits(first, store.graph, store.log[|log|..], i, done, since, old(clock), now);
        ghost var e := RecoverOne(i, tasks[i], now);
        LogGrows(log, old(store.log), store.log, e);
        SweepRecovers(first, old(store.graph), store.graph, old(store.log)[|log|..], e, i, done, since, now);
        swept := done + [i];
      } else {
        SweepSkips(first, store.graph, store.log[|log|..], i, done, since, old(clock), checkedAt);
      }
    }

    /**
     The recovery loop before index `i`: the events are those of `done`, which holds every lease that
     was over at `since` and only leases over at `now`; the tasks from `i` on are untouched.
     */
    static ghost predicate Swept(first: Graph, current: Graph, events: seq<Event>, i: nat, done: seq<nat>, since: Time,
                                 now: Time) {
      && Recovered(first, current, events, done)
      && (forall k | 0 <= k < |done| :: done[k] < i && LeaseOver(first.tasks[done[k]], now))
      && (forall j | 0 <= j < i && j < |first.tasks| && LeaseOver(first.tasks[j], since) :: j in done)
    }

    static lemma SweepWaits(first: Graph, current: Graph, events: seq<Event>, i: nat, done: seq<nat>, since: Time,
                            now: Time, later: Time)
      requires Swept(first, current, events, i, done, since, now) && now <= later
      ensures Swept(first, current, events, i, done, since, later)
    {
    }

    static lemma SweepSkips(first: Graph, current: Graph, events: seq<Event>, i: nat, done: seq<nat>, since: Time,
                            now: Time, later: Time)
      requires Swept(first, current, events, i, done, since, now) && since <= now <= later && i < |first.tasks|
      requires !LeaseOver(first.tasks[i], later)
      ensures Swept(first, current, events, i + 1, done, since, later)
    {
      SweepWaits(first, current, events, i, done, since, now, later);
    }

    static lemma LogGrows(first: seq<Event>, before: seq<Event>, after: seq<Event>, e: Event)
      requires first <= before && after == before + [e]
      ensures first <= after && after[|first|..] == before[|first|..] + [e]
    {
    }

    static lemma SweepRecovers(first: Graph, seen: Graph, after: Graph, events: seq<Event>, e: Event, i: nat,
                               done: seq<nat>, since: Time, now: Time)
      requires Swept(first, seen, events, i, done, since, now) && i < |first.tasks|
      requires LeaseOver(first.tasks[i], now) && |after.tasks| == |seen.tasks| && RecoveredBy(seen, after, e, i)
      ensures Swept(first, after, events + [e], i + 1, done + [i], since, now)
    {
      RecoveredGrows(first, seen, after, events, done, e, i);
    }

    /** The transaction for one expired lease; the aborted run's controller is no longer of use. */
    method RecoverOne(i: nat, t: Task, now: Time) returns (ghost e: Event)
      requires Valid() && i < |store.graph.tasks| && store.graph.tasks[i] == t && LeaseOver(t, now)
      modifies this`store, this`nextId, this`running
      ensures Valid() && |store.graph.tasks| == |old(store.graph.tasks)|
      ensures store.log == old(store.log) + [e] && e.occurredAt == now
      ensures RecoveredBy(old(store.graph), store.graph, e, i)
    {
      var op := ExpireLease(IdentityOf(t), nextId, now);
      RecoverStep(limits, identity, firstClock, store, i, nextId, now);
      ghost var before := store;
      store := Next(limits, store, op);
      e := store.log[|before.log|];
      assert store.log == before.log + [e];
      nextId := nextId + 1;
    }

    /** `claim`: whether the task was claimed; unexpected errors are thrown. */
    method Claim(taskId: Id, ghost k: nat) returns (r: Result<bool, ErrorCode>)
      requires Valid() && k < |store.graph.tasks| && store.graph.tasks[k].id == taskId
      modifies this`store, this`clock, this`nextId
      ensures Valid() && old(clock) <= clock
      ensures r != Ok(true) ==> store == old(store)
      ensures store.graph.outbox == old(store.graph.outbox)
      ensures r == Ok(true) ==>
                && !aborted && Claimable(limits, old(store.graph.tasks), k, clock)
                && ClaimsOnly(old(store.log), store.log) && |store.graph.tasks| == |old(store.graph.tasks)|
                && ClaimedFrom(old(store.graph.tasks)[k], store.graph.tasks[k])
                && LeasedBy(store.graph.tasks[k], schedulerId, old(nextId) + 1, clock)
                && store.graph.tasks == old(store.graph.tasks)[k := store.graph.tasks[k]]
      ensures !aborted && Claimable(limits, old(store.graph.tasks), k, old(clock)) ==>
                r == (match setup(taskId)
                      case None => Ok(true)
                      case Some(e) =>
                        if e in {InvalidTransition, DependencyUnresolved, QueueCapacityExceeded, MaxAttemptsExceeded,
                                 SessionAborted}
                        then Ok(false) else Err(e))
    {
      if aborted { return Ok(false); }
      var checkedAt := Now();
      var now := Now();
      var op := Op.Claim(taskId, schedulerId, nextId + 1, setup(taskId), aborted, checkedAt, nextId, now);
      ClaimResult(op, k);
      ClaimLeavesOutbox(limits, store, op);
      match Commit(limits, store.graph, op) {
        case Ok(_) =>
          store := Next(limits, store, op);
          nextId := nextId + 2;
          return Ok(true);
        case Err(e) =>
          return if ExpectedClaimConflict(e) then Ok(false) else Err(e);
      }
    }

    lemma ClaimResult(op: Op, k: nat)
      requires Valid() && k < |store.graph.tasks| && op.Claim? && op.taskId == store.graph.tasks[k].id
      requires op.eventId == nextId && op.leaseId == nextId + 1 && !op.sessionAborted && op.checkedAt <= clock
      ensures
        Commit(limits, store.graph, op).Ok?
        <==> Claimable(limits, store.graph.tasks, k, op.checkedAt) && op.setup.None?
      ensures Claimable(limits, store.graph.tasks, k, op.checkedAt) && op.setup.Some? ==>
                Commit(limits, store.graph, op) == Err(op.setup.value)
      ensures Claimable(limits, store.graph.tasks, k, op.checkedAt) ==> Claimable(limits, store.graph.tasks, k, clock)
      ensures Commit(limits, store.graph, op).Ok? ==>
                var n := Next(limits, store, op);
                && Reachable(limits, identity, firstClock, n) && IdsBelow(n.used, op.eventId + 2)
                && ClaimsOnly(store.log, n.log) && |n.graph.tasks| == |store.graph.tasks|
                && ClaimedFrom(store.graph.tasks[k], n.graph.tasks[k])
                && LeasedBy(n.graph.tasks[k], op.schedulerId, op.leaseId, op.now)
                && n.graph.tasks == store.graph.tasks[k := n.graph.tasks[k]]
    {
      ReachableInv(limits, identity, firstClock, store);
      if Commit(limits, store.graph, op).Ok? { ClaimNeedsClaimable(limits, store.graph, k, op); }
      if Claimable(limits, store.graph.tasks, k, op.checkedAt) {
        ClaimableLater(limits, store.graph.tasks, k, op.checkedAt, clock);
        if op.setup.Some? { ClaimableRefusal(limits, store.graph, k, op); }
        else {
          ClaimStep(limits, identity, firstClock, store, k, op);
          var n := Next(limits, store, op);
          OutcomeClaims(store.graph, op, Mutation(n.graph, n.log[|store.log|]), k);
        }
      }
    }

    /**
     `tick`. Returns the tasks it loaded after lease recovery, when it looked at them and when it
     released the claims that had run out. It re-enqueues every pending notification. It throws only
     for a runnable task whose runner could not be set up, or when the queue holds something else
     under the identifier of a notification in the outbox. Otherwise every task that was runnable
     then now runs, or belongs to the main agent, or is held up by a full capacity class, or could
     not be set up because of an expected conflict.
     */
    method Tick() returns (r: Result<bool, ErrorCode>, ghost done: seq<nat>, ghost seen: Graph, ghost at: Time,
                           ghost releasedAt: Time)
      requires Valid() && notifications.Valid()
      modifies this`store, this`clock, this`nextId, this`running, notifications
      ensures Valid() && notifications.Valid()
      ensures old(aborted) ==>
                && r == Ok(true) && store == old(store) && clock == old(clock)
                && notifications.State() == old(notifications.State())
      ensures !aborted ==>
                Ticked(old(store), seen, store, done, old(notifications.State()), notifications.State(), old(clock),
                       releasedAt, clock)
      ensures r.Err? ==>
                !Sourced(old(notifications.State()), store.graph.outbox)
                  || SetupThrows(setup, Runnable(seen.tasks, at), r.error)
      ensures !aborted && r.Ok? ==> TickSoFar(limits, setup, seen.tasks, store.graph.tasks, Runnable(seen.tasks, at))
    {
      done, seen, at, releasedAt := [], store.graph, 0, clock;
      if aborted { return Ok(true), done, seen, at, releasedAt; }
      r, done, seen, at, releasedAt := TickUnaborted();
    }

    method TickUnaborted()
      returns (r: Result<bool, ErrorCode>, ghost done: seq<nat>, ghost seen: Graph, ghost at: Time,
               ghost releasedAt: Time)
      requires Valid() && notifications.Valid() && !aborted
      modifies this`store, this`clock, this`nextId, this`running, notifications
      ensures Valid() && notifications.Valid()
      ensures Ticked(old(store), seen, store, done, old(notifications.State()), notifications.State(), old(clock),
                     releasedAt, clock)
      ensures r.Err? ==>
                !Sourced(old(notifications.State()), store.graph.outbox)
                  || SetupThrows(setup, Runnable(seen.tasks, at), r.error)
      ensures r.Ok? ==> TickSoFar(limits, setup, seen.tasks, store.graph.tasks, Runnable(seen.tasks, at))
    {
      at := 0;
      var now := Now();
      releasedAt := now;
      ghost var queue := notifications.State();
      var released := notifications.ReleaseExpiredClaims(now);
      done := RecoverExpiredLeases();
      ghost var recovered, since := store.log, clock;
      seen := store.graph;
      var enqueued := ReconcileOutbox(queue, now);
      RecoveredThenClaimed(old(store.graph), seen, old(store.log), recovered, recovered, done, old(clock), since,
                           since);
      if enqueued.Err? { return Err(enqueued.error), done, seen, at, releasedAt; }
      r, at := ClaimRunnable();
      RecoveredThenClaimed(old(store.graph), seen, old(store.log), recovered, store.log, done, old(clock), since,
                           clock);
    }

    /** `reconcileOutbox` behind the release of expired claims: it conflicts only with a queue from elsewhere. */
    method ReconcileOutbox(ghost queue: NQ.Queue, ghost releasedAt: Time) returns (r: Result<bool, ErrorCode>)
      requires Valid() && notifications.Valid()
      requires notifications.State() == NQ.ReleaseExpired(queue, releasedAt) && NQ.Later(queue, notifications.State())
      modifies notifications
      ensures notifications.Valid() && NQ.Later(queue, notifications.State())
      ensures r.Ok? ==> Reenqueued(queue, store.graph.outbox, releasedAt, notifications.State())
      ensures Sourced(queue, store.graph.outbox) ==> r.Ok?
    {
      ghost var freed := notifications.State();
      NeverConflicts(queue, freed);
      r := EnqueueOutbox(notifications, store.graph.outbox);
      NQ.LaterTransitive(queue, freed, notifications.State());
    }

    /** Whatever the queue holds from this outbox, re-enqueueing the outbox does not conflict with it. */
    lemma NeverConflicts(queue: NQ.Queue, freed: NQ.Queue)
      requires Valid() && freed.records.Keys == queue.records.Keys && NQ.Later(queue, freed)
      ensures Sourced(queue, store.graph.outbox) ==> EnqueuePending(freed, store.graph.outbox).Ok?
    {
      ReachableInv(limits, identity, firstClock, store);
      ReachedDistinct(limits, StartView(identity, firstClock), store);
      if Sourced(queue, store.graph.outbox) {
        ReconcileIsExact(freed, store.graph.outbox, |store.graph.outbox|);
        assert store.graph.outbox[..|store.graph.outbox|] == store.graph.outbox;
      }
    }

    method ClaimRunnable() returns (r: Result<bool, ErrorCode>, ghost at: Time)
      requires Valid() && !aborted
      modifies this`store, this`clock, this`nextId, this`running
      ensures Valid() && old(clock) <= clock && ClaimsOnly(old(store.log), store.log)
      ensures store.graph.outbox == old(store.graph.outbox)
      ensures r.Err? ==> SetupThrows(setup, Runnable(old(store.graph.tasks), at), r.error)
      ensures r.Ok? ==>
                TickSoFar(limits, setup, old(store.graph.tasks), store.graph.tasks,
                          Runnable(old(store.graph.tasks), at))
    {
      var tasks := store.graph.tasks;
      var now := Now();
      at := now;
      LoadedTasks();
      RunnableIsSortedSelection(tasks, now);
      r := ClaimEach(Runnable(tasks, now), tasks, now);
    }

    method ClaimEach(candidates: seq<Task>, ghost tasks: seq<Task>, ghost at: Time) returns (r: Result<bool, ErrorCode>)
      requires Valid() && !aborted && at <= clock && store.graph.tasks == tasks && UniqueIds(tasks)
      requires UniqueIds(candidates)
      requires forall c | c in candidates :: c in tasks && IsRunnable(tasks, c, at)
      modifies this`store, this`clock, this`nextId, this`running
      ensures Valid() && at <= clock && old(clock) <= clock && ClaimsOnly(old(store.log), store.log)
      ensures store.graph.outbox == old(store.graph.outbox)
      ensures r.Err? ==> SetupThrows(setup, candidates, r.error)
      ensures r.Ok? ==> TickSoFar(limits, setup, tasks, store.graph.tasks, candidates)
    {
      for i := 0 to |candidates|
        invariant Valid() && at <= clock && old(clock) <= clock && ClaimsOnly(old(store.log), store.log)
        invariant store.graph.outbox == old(store.graph.outbox)
        invariant TickSoFar(limits, setup, tasks, store.graph.tasks, candidates[..i])
      {
        NextCandidate(candidates, tasks, i);
        ghost var k := IndexIn(tasks, candidates[i]);
        var failed := ClaimCandidate(candidates[i], tasks, candidates[..i], at, k);
        if failed.Some? { return Err(failed.value); }
      }
      assert candidates[..|candidates|] == candidates;
      r := Ok(true);
    }

    lemma LoadedTasks()
      requires Valid()
      ensures UniqueIds(store.graph.tasks)
      ensures forall k | 0 <= k < |store.graph.tasks| && store.graph.tasks[k].status == Pending ::
                store.graph.tasks[k].attempt < store.graph.tasks[k].maxAttempts
    {
      ReachableInv(limits, identity, firstClock, store);
      forall k | 0 <= k < |store.graph.tasks| && store.graph.tasks[k].status == Pending
        ensures store.graph.tasks[k].attempt < store.graph.tasks[k].maxAttempts
      {
        RunnableHasAttempts(limits, StartView(identity, firstClock), store, k);
      }
    }

    static lemma NextCandidate(candidates: seq<Task>, tasks: seq<Task>, i: nat)
      requires UniqueIds(candidates) && i < |candidates| && forall c | c in candidates :: c in tasks
      ensures candidates[i] !in candidates[..i] && candidates[i] in candidates && candidates[i] in tasks
      ensures candidates[..i + 1] == candidates[..i] + [candidates[i]]
    {
    }

    static ghost function IndexIn(tasks: seq<Task>, t: Task): (k: nat)
      requires t in tasks
      ensures k < |tasks| && tasks[k] == t
    {
      var k :| 0 <= k < |tasks| && tasks[k] == t;
      k
    }

    /** One candidate of the tick; the error it throws, if any. */
    method ClaimCandidate(c: Task, ghost tasks: seq<Task>, ghost handled: seq<Task>, ghost at: Time, ghost k: nat)
      returns (failed: Option<ErrorCode>)
      requires Valid() && !aborted && at <= clock
      requires UniqueIds(tasks) && k < |tasks| && tasks[k] == c && c !in handled && IsRunnable(tasks, c, at)
      requires TickSoFar(limits, setup, tasks, store.graph.tasks, handled)
      modifies this`store, this`clock, this`nextId, this`running
      ensures Valid() && at <= clock && old(clock) <= clock && ClaimsOnly(old(store.log), store.log)
      ensures store.graph.outbox == old(store.graph.outbox)
      ensures failed.Some? ==> !ExpectedClaimConflict(failed.value) && setup(c.id) == failed
      ensures failed.None? ==> TickSoFar(limits, setup, tasks, store.graph.tasks, handled + [c])
    {
      if c.kind == MainBrowserStep || !HasCapacity(limits, store.graph.tasks, CapacityOf(c.kind)) {
        TickSkips(limits, setup, tasks, store.graph.tasks, handled, k);
        return None;
      }
      ghost var before := store.graph.tasks;
      LoadedTasks();
      StillRunnable(tasks, before, k, at, clock);
      var claimed := Claim(c.id, k);
      match claimed {
        case Err(e) => return Some(e);
        case Ok(true) =>
          TickStarts(limits, setup, tasks, before, handled, k, store.graph.tasks[k]);
          var t := Find(store.graph.tasks, c.id);
          if t.Some? && t.value.lease.Some? {
            running := running[c.id := IdentityOf(t.value)];
          }
          return None;
        case Ok(false) =>
          TickSkips(limits, setup, tasks, store.graph.tasks, handled, k);
          return None;
      }
    }

    // -------------------------------------------------------------- cancelling

    /** `cancelTask`, without a race: true when the task was killed or its run asked to stop. */
    method CancelTask(taskId: Id, requestId: Id, reason: CancelReason) returns (r: Result<bool, ErrorCode>)
      requires Valid()
      modifies this`store, this`clock, this`nextId
      ensures Valid() && old(clock) <= clock && |store.graph.tasks| == |old(store.graph.tasks)|
      ensures r == Ok(false) ==>
                && store == old(store)
                && (var t := Find(old(store.graph.tasks), taskId); t.Some? ==> Terminal(t.value.status))
      ensures r.Ok? ==>
                forall k | 0 <= k < |store.graph.tasks| ::
                  if old(store.graph.tasks)[k].id == taskId
                  then store.graph.tasks[k].id == taskId && Stopped(store.graph.tasks[k], reason)
                  else store.graph.tasks[k] == old(store.graph.tasks)[k]
      ensures r.Err? ==>
                && store == old(store) && r.error == ErrorCode.LeaseExpired
                && exists k ::
                     && 0 <= k < |store.graph.tasks| && store.graph.tasks[k].id == taskId
                     && RunOut(store.graph.tasks[k], clock)
      ensures forall k | 0 <= k < |old(store.graph.tasks)| && old(store.graph.tasks)[k].id == taskId ::
                RunOut(old(store.graph.tasks)[k], old(clock)) ==> r.Err?
    {
      LoadedTasks();
      var found := Find(store.graph.tasks, taskId);
      if found.None? || Terminal(found.value.status) { return Ok(false); }
      ghost var k := IndexOf(store.graph.tasks, taskId);
      var now := Now();
      if found.value.status == Pending || found.value.status == Blocked {
        r := CancelUnstarted(taskId, requestId, reason, now, k);
      } else {
        r := RequestStop(taskId, requestId, reason, now, k);
      }
    }

    method CancelUnstarted(taskId: Id, requestId: Id, reason: CancelReason, now: Time, ghost k: nat)
      returns (r: Result<bool, ErrorCode>)
      requires Valid() && k < |store.graph.tasks| && store.graph.tasks[k].id == taskId
      requires store.graph.tasks[k].status == Pending || store.graph.tasks[k].status == Blocked
      modifies this`store, this`nextId
      ensures Valid() && r == Ok(true) && |store.graph.tasks| == |old(store.graph.tasks)|
      ensures store.graph.tasks[k].status == Killed && store.graph.tasks[k].id == taskId
      ensures forall j | 0 <= j < |store.graph.tasks| && j != k :: store.graph.tasks[j] == old(store.graph.tasks)[j]
    {
      var op := CancelQueued(taskId, requestId, reason, nextId, now);
      CancelStep(limits, identity, firstClock, store, k, op);
      store := Next(limits, store, op);
      nextId := nextId + 1;
      r := Ok(true);
    }

    method RequestStop(taskId: Id, requestId: Id, reason: CancelReason, now: Time, ghost k: nat)
      returns (r: Result<bool, ErrorCode>)
      requires Valid() && k < |store.graph.tasks| && store.graph.tasks[k].id == taskId
      requires store.graph.tasks[k].status == Running
      modifies this`store, this`nextId
      ensures Valid() && |store.graph.tasks| == |old(store.graph.tasks)|
      ensures r == Ok(true) || r == Err(ErrorCode.LeaseExpired)
      ensures r.Ok? ==>
                && Stopped(store.graph.tasks[k], reason) && store.graph.tasks[k].id == taskId
                && forall j | 0 <= j < |store.graph.tasks| && j != k ::
                  store.graph.tasks[j] == old(store.graph.tasks)[j]
      ensures r.Err? <==> RunOut(old(store.graph.tasks)[k], now)
      ensures r.Err? ==> store == old(store)
    {
      var op := RequestCancel(taskId, requestId, reason, nextId, now);
      RequestStep(limits, identity, firstClock, store, k, op);
      match Commit(limits, store.graph, op) {
        case Err(e) => return Err(e);
        case Ok(_) =>
          store := Next(limits, store, op);
          nextId := nextId + 1;
          return Ok(true);
      }
    }

    /**
     `abortSession`, up to waiting for the runs. From its first step on nothing is claimed. It
     stops the tasks in order, up to the first running one whose lease has run out: there it throws,
     and leaves that task and all later ones as they were. Nothing else makes it throw.
     */
    method AbortSession(requestIds: nat -> Id) returns (r: Result<nat, ErrorCode>, ghost at: nat)
      requires Valid()
      modifies this`store, this`clock, this`nextId, this`aborted
      ensures Valid() && aborted && old(clock) <= clock
      ensures at <= |old(store.graph.tasks)| && StoppedUpTo(old(store.graph.tasks), store.graph.tasks, at)
      ensures r.Ok? <==> at == |old(store.graph.tasks)|
      ensures r.Err? ==> r.error == ErrorCode.LeaseExpired && RunOut(old(store.graph.tasks)[at], clock)
      ensures forall k | 0 <= k < |old(store.graph.tasks)| && RunOut(old(store.graph.tasks)[k], old(clock)) ::
                r.Err? && at <= k
    {
      aborted := true;
      var tasks := store.graph.tasks;
      LoadedTasks();
      var cancelled := 0;
      at := 0;
      for i := 0 to |tasks|
        invariant Valid() && aborted && old(clock) <= clock && StoppedUpTo(tasks, store.graph.tasks, i) && at == i
        invariant forall k | 0 <= k < i :: !RunOut(tasks[k], old(clock))
      {
        var one := StopTask(tasks, i, requestIds(i), old(clock));
        if one.Err? { return Err(one.error), at; }
        cancelled := cancelled + if one.value then 1 else 0;
        at := i + 1;
      }
      r := Ok(cancelled);
    }

    /** One round of the abort loop: whether it cancelled the task. */
    method StopTask(tasks: seq<Task>, i: nat, requestId: Id, ghost since: Time) returns (r: Result<bool, ErrorCode>)
      requires Valid() && UniqueIds(tasks) && i < |tasks| && since <= clock && StoppedUpTo(tasks, store.graph.tasks, i)
      modifies this`store, this`clock, this`nextId
      ensures Valid() && since <= clock
      ensures r.Ok? ==> StoppedUpTo(tasks, store.graph.tasks, i + 1) && !RunOut(tasks[i], since)
      ensures r.Err? ==>
                && r.error == ErrorCode.LeaseExpired && StoppedUpTo(tasks, store.graph.tasks, i)
                  && RunOut(tasks[i], clock)
    {
      if Terminal(tasks[i].status) { return Ok(false); }
      ghost var before := store.graph.tasks;
      r := CancelTask(tasks[i].id, requestId, SessionAbort);
      OnlyThisTask(tasks, i);
      if r.Ok? { OneMoreStopped(tasks, before, store.graph.tasks, i, r.value); }
    }

    static lemma OnlyThisTask(tasks: seq<Task>, i: nat)
      requires UniqueIds(tasks) && i < |tasks|
      ensures forall k | 0 <= k < |tasks| && tasks[k].id == tasks[i].id :: k == i
    {
    }

    /** The first `n` tasks are stopped, the others still as they were. */
    static ghost predicate StoppedUpTo(tasks: seq<Task>, now: seq<Task>, n: nat) {
      && |now| == |tasks|
      && (forall j | 0 <= j < |tasks| :: now[j].id == tasks[j].id)
      && (forall j | n <= j < |tasks| :: now[j] == tasks[j])
      && (forall j | 0 <= j < n && j < |tasks| :: Stopped(now[j], SessionAbort))
    }

    static lemma OneMoreStopped(tasks: seq<Task>, before: seq<Task>, after: seq<Task>, i: nat, stopped: bool)
      requires UniqueIds(tasks) && i < |tasks| && StoppedUpTo(tasks, before, i) && |after| == |before|
      requires stopped || (after == before
                           && (var t := Find(before, tasks[i].id); t.Some? ==> Terminal(t.value.status)))
      requires forall k | 0 <= k < |after| ::
                 if before[k].id == tasks[i].id then after[k].id == tasks[i].id && Stopped(after[k], SessionAbort)
                 else after[k] == before[k]
      ensures StoppedUpTo(tasks, after, i + 1)
    {
    }

    // -------------------------------------------------------------- resuming

    /**
     `resumeAgentTasks`, the recovery accounting: the leases over at `resumedAt`, the caller's time,
     must each have a recovery event after the tick. A scheduler that was told to abort the session
     does nothing in its tick, so the check then fails exactly when some lease is over. Otherwise it
     fails only for a lease that was not yet over on the scheduler's own clock when it started, and
     certainly for one that is still not over when it ends.
     */
    method Resume(resumedAt: Time) returns (r: Result<seq<RunIdentity>, ResumeError>, ghost candidates: seq<Task>)
      requires Valid() && notifications.Valid()
      modifies this`store, this`clock, this`nextId, this`running, notifications
      ensures Valid() && notifications.Valid() && old(clock) <= clock
      ensures r.Err? && r.error.TickFailed? ==>
                !Sourced(old(notifications.State()), store.graph.outbox) || SetupThrows(setup, candidates, r.error.code)
      ensures old(aborted) ==> (r == Err(NotRecovered) <==> SomeLeaseOver(old(store.graph.tasks), resumedAt))
      ensures !old(aborted) && r == Err(NotRecovered) ==>
                SomeLeaseBetween(old(store.graph.tasks), old(clock), resumedAt)
      ensures !old(aborted) && SomeLeaseBetween(old(store.graph.tasks), clock, resumedAt) ==> r.Err?
      ensures r.Ok? ==> r.value == ExpiredRuns(old(store.graph.tasks), resumedAt)
    {
      var tasks := store.graph.tasks;
      LoadedTasks();
      var before := |store.log|;
      var expired := ExpiredRuns(tasks, resumedAt);
      ExpiredRunsComplete(tasks, resumedAt);
      var ticked, done, seen, at, releasedAt := Tick();
      candidates := Runnable(seen.tasks, at);
      match ticked {
        case Err(e) => return Err(TickFailed(e)), candidates;
        case Ok(_) =>
      }
      var recovered := RecoveredRuns(store.log[before..]);
      if aborted {
        assert store.log[before..] == [];
        NoneRecovered(tasks, resumedAt, expired);
      } else {
        TickAccounts(old(store.graph), seen, old(store.log), store.log, done, old(clock), clock, resumedAt, expired);
      }
      if exists run | run in expired :: run !in recovered {
        return Err(NotRecovered), candidates;
      }
      r := Ok(expired);
    }

  }

  ghost predicate SomeLeaseOver(tasks: seq<Task>, at: Time) {
    exists k :: 0 <= k < |tasks| && LeaseOver(tasks[k], at)
  }

  /** Over at the one time and not yet at the other. */
  ghost predicate SomeLeaseBetween(tasks: seq<Task>, notAt: Time, at: Time) {
    exists k :: 0 <= k < |tasks| && LeaseOver(tasks[k], at) && !LeaseOver(tasks[k], notAt)
  }

  /** `expired` lists the runs whose lease is over at the time. */
  ghost predicate Lists(expired: seq<RunIdentity>, tasks: seq<Task>, at: Time) {
    forall run :: run in expired <==> exists k ::
      0 <= k < |tasks| && LeaseOver(tasks[k], at) && IdentityOf(tasks[k]) == run
  }

  /** Without a recovery event the check passes exactly when no lease is over. */
  lemma NoneRecovered(tasks: seq<Task>, at: Time, expired: seq<RunIdentity>)
    requires Lists(expired, tasks, at)
    ensures (exists run | run in expired :: run !in RecoveredRuns([])) <==> SomeLeaseOver(tasks, at)
  {
    if k :| 0 <= k < |tasks| && LeaseOver(tasks[k], at) {
      assert IdentityOf(tasks[k]) in expired;
    }
  }

  /** What is recovered contains the leases over at `since` and none that is not over at `now`. */
  lemma MissingBetween(tasks: seq<Task>, at: Time, since: Time, now: Time, expired: seq<RunIdentity>,
                       recovered: set<RunIdentity>)
    requires Lists(expired, tasks, at)
    requires forall k | 0 <= k < |tasks| && LeaseOver(tasks[k], since) :: IdentityOf(tasks[k]) in recovered
    requires forall k | 0 <= k < |tasks| && tasks[k].lease.Some? && !LeaseOver(tasks[k], now) ::
               IdentityOf(tasks[k]) !in recovered
    ensures (exists run | run in expired :: run !in recovered) ==> SomeLeaseBetween(tasks, since, at)
    ensures SomeLeaseBetween(tasks, now, at) ==> exists run | run in expired :: run !in recovered
  {
    if run :| run in expired && run !in recovered {
      var k :| 0 <= k < |tasks| && LeaseOver(tasks[k], at) && IdentityOf(tasks[k]) == run;
      assert !LeaseOver(tasks[k], since);
    }
    if SomeLeaseBetween(tasks, now, at) {
      var k :| 0 <= k < |tasks| && LeaseOver(tasks[k], at) && !LeaseOver(tasks[k], now);
      assert IdentityOf(tasks[k]) in expired;
    }
  }

  lemma RecoveryThenClaims(log: seq<Event>, before: nat, done: seq<nat>)
    requires before + |done| <= |log| && ClaimsOnly(log[..before + |done|], log)
    ensures ClaimsOnly(log[before..][..|done|], log[before..])
    ensures log[before..][..|done|] == log[before..before + |done|]
  {
  }

  /** What the recovery check finds missing after a tick. */
  lemma TickAccounts(first: Graph, seen: Graph, before: seq<Event>, after: seq<Event>, done: seq<nat>, since: Time,
                     now: Time, at: Time, expired: seq<RunIdentity>)
    requires UniqueIds(first.tasks) && RecoveredFirst(first, seen, before, after, done, since, now)
    requires Lists(expired, first.tasks, at)
    ensures
      var tasks := first.tasks;
      var missing := exists run | run in expired :: run !in RecoveredRuns(after[|before|..]);
      && (missing ==> SomeLeaseBetween(tasks, since, at))
      && (SomeLeaseBetween(tasks, now, at) ==> missing)
  {
    var tasks, events := first.tasks, after[|before|..];
    RecoveryThenClaims(after, |before|, done);
    RecoveredInLog(tasks, events, done, since);
    NotYetRecovered(tasks, events, done, now);
    MissingBetween(tasks, at, since, now, expired, RecoveredRuns(events));
  }

  /** A lease that is not over when the tick ends has no recovery among its events. */
  lemma NotYetRecovered(tasks: seq<Task>, events: seq<Event>, done: seq<nat>, now: Time)
    requires UniqueIds(tasks) && |done| <= |events| && RecoveryLog(tasks, events[..|done|], done)
    requires ClaimsOnly(events[..|done|], events) && forall j | 0 <= j < |done| :: LeaseOver(tasks[done[j]], now)
    ensures forall k | 0 <= k < |tasks| && tasks[k].lease.Some? && !LeaseOver(tasks[k], now) ::
              IdentityOf(tasks[k]) !in RecoveredRuns(events)
  {
    forall k | 0 <= k < |tasks| && tasks[k].lease.Some? && !LeaseOver(tasks[k], now)
      ensures IdentityOf(tasks[k]) !in RecoveredRuns(events)
    {
      forall j | 0 <= j < |events| && events[j].body.TaskLeaseExpired?
        ensures events[j].body.run != IdentityOf(tasks[k])
      {
        assert events[j] == events[..|done|][j] && Recovers(events[..|done|][j], tasks[done[j]]);
        assert done[j] != k;
      }
    }
  }

  datatype ResumeError = TickFailed(code: ErrorCode) | NotRecovered

  /** `findExpiredAgentTaskLeases`, as run identities in task order. */
  function ExpiredRuns(tasks: seq<Task>, now: Time): seq<RunIdentity> {
    if tasks == [] then []
    else
      var last := |tasks| - 1;
      ExpiredRuns(tasks[..last], now) + if LeaseOver(tasks[last], now) then [IdentityOf(tasks[last])] else []
  }

  /** The runs of the `task_lease_expired` events. */
  function RecoveredRuns(events: seq<Event>): set<RunIdentity> {
    set k | 0 <= k < |events| && events[k].body.TaskLeaseExpired? :: events[k].body.run
  }

  lemma {:induction false} ExpiredRunsComplete(tasks: seq<Task>, now: Time)
    ensures Lists(ExpiredRuns(tasks, now), tasks, now)
  {
    if tasks != [] {
      var last := |tasks| - 1;
      ExpiredRunsComplete(tasks[..last], now);
      forall run
        ensures run in ExpiredRuns(tasks, now) <==>
                  exists k :: 0 <= k < |tasks| && LeaseOver(tasks[k], now) && IdentityOf(tasks[k]) == run
      {
        if k :| 0 <= k < |tasks| && LeaseOver(tasks[k], now) && IdentityOf(tasks[k]) == run {
          if k < last { assert tasks[..last][k] == tasks[k]; }
        }
      }
    }
  }

  /** The listed runs are those of the tasks at the given places, which are all whose lease is over, in task order. */
  ghost predicate ExpiredAt(tasks: seq<Task>, now: Time, runs: seq<RunIdentity>, places: seq<nat>) {
    && |places| == |runs| && (forall j, k | 0 <= j < k < |places| :: places[j] < places[k])
    && (forall k | 0 <= k < |places| ::
          places[k] < |tasks| && LeaseOver(tasks[places[k]], now) && runs[k] == IdentityOf(tasks[places[k]]))
    && (forall i | 0 <= i < |tasks| && LeaseOver(tasks[i], now) :: i in places)
  }

  lemma {:induction false} ExpiredInOrder(tasks: seq<Task>, now: Time) returns (places: seq<nat>)
    ensures ExpiredAt(tasks, now, ExpiredRuns(tasks, now), places)
  {
    places := [];
    if tasks != [] {
      var last := |tasks| - 1;
      var front := ExpiredInOrder(tasks[..last], now);
      places := if LeaseOver(tasks[last], now) then front + [last] else front;
      ExpiredLonger(tasks, now, ExpiredRuns(tasks[..last], now), front);
    }
  }

  lemma FrontPlaces(tasks: seq<Task>, now: Time, runs: seq<RunIdentity>, front: seq<nat>)
    requires tasks != [] && ExpiredAt(tasks[..|tasks| - 1], now, runs, front)
    ensures forall k | 0 <= k < |front| ::
              front[k] < |tasks| - 1 && LeaseOver(tasks[front[k]], now) && runs[k] == IdentityOf(tasks[front[k]])
    ensures forall i | 0 <= i < |tasks| - 1 && LeaseOver(tasks[i], now) :: i in front
  {
    forall i | 0 <= i < |tasks| - 1 && LeaseOver(tasks[i], now)
      ensures i in front
    {
      assert tasks[..|tasks| - 1][i] == tasks[i];
    }
  }

  lemma ExpiredLonger(tasks: seq<Task>, now: Time, runs: seq<RunIdentity>, front: seq<nat>)
    requires tasks != [] && ExpiredAt(tasks[..|tasks| - 1], now, runs, front)
    ensures
      var last := |tasks| - 1;
      if LeaseOver(tasks[last], now) then ExpiredAt(tasks, now, runs + [IdentityOf(tasks[last])], front + [last])
      else ExpiredAt(tasks, now, runs, front)
  {
    FrontPlaces(tasks, now, runs, front);
    var last := |tasks| - 1;
    if LeaseOver(tasks[last], now) {
      assert (front + [last])[|front|] == last;
      assert forall i | i in front :: i in front + [last];
    }
  }

  /** What the tick recovered covers every lease that was over when the resume looked. */
  lemma RecoveredInLog(tasks: seq<Task>, events: seq<Event>, done: seq<nat>, now: Time)
    requires |done| <= |events| && RecoveryLog(tasks, events[..|done|], done)
    requires forall k | 0 <= k < |tasks| && LeaseOver(tasks[k], now) :: k in done
    ensures forall k | 0 <= k < |tasks| && LeaseOver(tasks[k], now) :: IdentityOf(tasks[k]) in RecoveredRuns(events)
  {
    forall k | 0 <= k < |tasks| && LeaseOver(tasks[k], now)
      ensures IdentityOf(tasks[k]) in RecoveredRuns(events)
    {
      var j :| 0 <= j < |done| && done[j] == k;
      assert Recovers(events[..|done|][j], tasks[done[j]]);
      assert events[j] == events[..|done|][j];
    }
  }
}
