/**
 Quantities summed over the tasks of a graph: open tasks, running tasks of a capacity class,
 attempts, and the rank that bounds how often a task can change its status
 (packages/web-buddy/src/agents/task-scheduler.ts:283-287, 462-499, 525-602;
 packages/web-buddy/src/agents/async-task-runtime.ts:391-394).
 */
module Measures {
  import opened Contracts
  import opened TaskGraph
  import opened GraphLinks
  import opened Reducers
  import opened Invariants

  /** Status changes still possible for the task: a requeued attempt costs a claim and a requeue. */
  function Rank(t: Task): int {
    match t.status
    case Blocked => 2 * t.maxAttempts + 2
    case Pending => 2 * (t.maxAttempts - t.attempt) + 1
    case Running => 2 * (t.maxAttempts - t.attempt) + 2
    case _ => 0
  }

  function SumRank(tasks: seq<Task>): int {
    if tasks == [] then 0 else Rank(tasks[0]) + SumRank(tasks[1..])
  }

  /** Two per allowed attempt, and two for being unblocked and ended. */
  function Allowance(tasks: seq<Task>): nat {
    if tasks == [] then 0 else 2 * tasks[0].maxAttempts + 2 + Allowance(tasks[1..])
  }

  function SumAttempts(tasks: seq<Task>): nat {
    if tasks == [] then 0 else tasks[0].attempt + SumAttempts(tasks[1..])
  }

  function SumMaxAttempts(tasks: seq<Task>): nat {
    if tasks == [] then 0 else tasks[0].maxAttempts + SumMaxAttempts(tasks[1..])
  }

  predicate StatusChanged(xs: seq<Task>, ys: seq<Task>) {
    |xs| <= |ys| && exists i | 0 <= i < |xs| :: xs[i].status != ys[i].status
  }

  predicate RankFits(t: Task) {
    t.attempt <= t.maxAttempts && (t.status == Pending ==> t.attempt < t.maxAttempts)
      && (t.status == Blocked ==> t.attempt == 0)
  }

  lemma {:induction false} RankBounds(tasks: seq<Task>)
    requires forall i | 0 <= i < |tasks| :: RankFits(tasks[i])
    ensures 0 <= SumRank(tasks) <= Allowance(tasks)
    ensures SumAttempts(tasks) <= SumMaxAttempts(tasks)
  {
    if tasks != [] {
      assert RankFits(tasks[0]);
      forall i | 0 <= i < |tasks[1..]|
        ensures RankFits(tasks[1..][i])
      {
        assert tasks[1..][i] == tasks[i + 1];
      }
      RankBounds(tasks[1..]);
    }
  }

  lemma MoveLowersRank(t: Task, u: Task, claiming: bool)
    requires RankFits(t) && RankFits(u) && Moves(t, u, claiming)
    ensures if t.status == u.status then Rank(u) == Rank(t) else Rank(u) < Rank(t)
  {
  }

  /** A status change anywhere strictly lowers the total rank; otherwise it stays. */
  lemma {:induction false} RankFalls(xs: seq<Task>, ys: seq<Task>, claiming: bool)
    requires SameShape(xs, ys, claiming)
    requires forall i | 0 <= i < |xs| :: RankFits(xs[i]) && RankFits(ys[i])
    ensures SumRank(ys) <= SumRank(xs) && (StatusChanged(xs, ys) ==> SumRank(ys) < SumRank(xs))
    ensures Allowance(ys) == Allowance(xs)
  {
    if xs != [] {
      assert RankFits(xs[0]) && RankFits(ys[0]) && Moves(xs[0], ys[0], claiming);
      MoveLowersRank(xs[0], ys[0], claiming);
      forall i | 0 <= i < |xs[1..]|
        ensures RankFits(xs[1..][i]) && RankFits(ys[1..][i])
      {
        assert RankFits(xs[i + 1]) && RankFits(ys[i + 1]);
      }
      RankFalls(xs[1..], ys[1..], claiming);
      if StatusChanged(xs, ys) && xs[0].status == ys[0].status {
        var i :| 0 <= i < |xs| && xs[i].status != ys[i].status;
        assert xs[1..][i - 1].status != ys[1..][i - 1].status;
      }
    }
  }

  lemma {:induction false} RankUnchanged(xs: seq<Task>, ys: seq<Task>)
    requires |xs| == |ys|
    requires forall i | 0 <= i < |xs| ::
               xs[i].status == ys[i].status && xs[i].attempt == ys[i].attempt && xs[i].maxAttempts == ys[i].maxAttempts
               && xs[i].kind == ys[i].kind
    ensures SumRank(ys) == SumRank(xs) && Allowance(ys) == Allowance(xs) && SumAttempts(ys) == SumAttempts(xs)
    ensures CountOpen(ys) == CountOpen(xs)
    ensures forall c :: CountRunning(ys, c) == CountRunning(xs, c)
  {
    if xs != [] {
      RankUnchanged(xs[1..], ys[1..]);
    }
  }

  lemma {:induction false} OneMoreTask(xs: seq<Task>, t: Task)
    ensures SumRank(xs + [t]) == SumRank(xs) + Rank(t)
    ensures Allowance(xs + [t]) == Allowance(xs) + 2 * t.maxAttempts + 2
    ensures SumAttempts(xs + [t]) == SumAttempts(xs) + t.attempt
    ensures CountOpen(xs + [t]) == CountOpen(xs) + if Terminal(t.status) then 0 else 1
    ensures t.status != Running ==> forall c :: CountRunning(xs + [t], c) == CountRunning(xs, c)
  {
    if xs != [] {
      assert (xs + [t])[1..] == xs[1..] + [t];
      OneMoreTask(xs[1..], t);
    } else {
      assert xs + [t] == [t];
    }
  }

  // ---------------------------------------------------------------- counts under a transaction

  lemma {:induction false} NoClaimNoGrowth(xs: seq<Task>, ys: seq<Task>)
    requires SameShape(xs, ys, false)
    ensures CountOpen(ys) <= CountOpen(xs) && SumAttempts(ys) == SumAttempts(xs)
    ensures forall c :: CountRunning(ys, c) <= CountRunning(xs, c)
  {
    if xs != [] {
      assert Moves(xs[0], ys[0], false);
      NoClaimNoGrowth(xs[1..], ys[1..]);
    }
  }

  /** Claiming one pending task: one more attempt, one more running task of its class, nothing else. */
  lemma {:induction false} ClaimGrowth(tasks: seq<Task>, k: nat, u: Task)
    requires k < |tasks| && tasks[k].status == Pending && u.status == Running
    requires u.kind == tasks[k].kind && u.attempt == tasks[k].attempt + 1
    ensures CountOpen(tasks[k := u]) == CountOpen(tasks)
    ensures SumAttempts(tasks[k := u]) == SumAttempts(tasks) + 1
    ensures forall c ::
              CountRunning(tasks[k := u], c) == CountRunning(tasks, c) + if CapacityOf(u.kind) == c then 1 else 0
  {
    if k > 0 {
      assert tasks[k := u][1..] == tasks[1..][k - 1 := u];
      ClaimGrowth(tasks[1..], k - 1, u);
    } else {
      assert tasks[k := u][1..] == tasks[1..];
    }
  }

  /** Within the limits of the scheduler and of the runtime's queue. */
  ghost predicate WithinLimits(limits: Limits, tasks: seq<Task>) {
    && CountOpen(tasks) <= limits.maxQueued
    && CountRunning(tasks, ReadOnlyLlm) <= limits.maxReadOnly
    && CountRunning(tasks, Deterministic) <= limits.maxDeterministic
    && CountRunning(tasks, MainAgentOnly) <= limits.maxDeterministic
  }

  lemma AppendMeasures(limits: Limits, xs: seq<Task>, ys: seq<Task>, t: Task)
    requires |ys| == |xs| + 1 && ys[|xs|] == t && t.attempt == 0 && (t.status == Pending || t.status == Blocked)
    requires forall i | 0 <= i < |xs| :: ys[i] == Extended(xs[i], t)
    requires CountOpen(xs) < limits.maxQueued
    ensures WithinLimits(limits, xs) ==> WithinLimits(limits, ys)
    ensures SumAttempts(ys) == SumAttempts(xs)
    ensures SumRank(ys) - Allowance(ys) <= SumRank(xs) - Allowance(xs)
  {
    var front := ys[..|xs|];
    RankUnchanged(xs, front);
    assert ys == front + [t];
    OneMoreTask(front, t);
    assert forall c :: CountRunning(ys, c) == CountRunning(xs, c);
    assert Rank(t) <= 2 * t.maxAttempts + 2;
  }

  lemma SpawnMeasures(limits: Limits, g: Graph, op: Op)
    requires op.Spawn? && LinkedGraph(g.tasks) && ReduceSpawn(limits, g, op).Ok?
    ensures
      var h := ReduceSpawn(limits, g, op).value.graph;
      && (WithinLimits(limits, g.tasks) ==> WithinLimits(limits, h.tasks))
      && SumAttempts(h.tasks) == SumAttempts(g.tasks)
      && SumRank(h.tasks) - Allowance(h.tasks) <= SumRank(g.tasks) - Allowance(g.tasks)
      && !StatusChanged(g.tasks, h.tasks)
  {
    var t := CreateTask(op.input, op.now);
    AdditionShape(g.tasks, t);
    AppendMeasures(limits, g.tasks, AddTask(g.tasks, t).value, t);
  }

  lemma ClaimMeasures(limits: Limits, g: Graph, op: Op)
    requires op.Claim? && UniqueIds(g.tasks) && ReduceClaim(limits, g, op).Ok?
    ensures
      var h := ReduceClaim(limits, g, op).value.graph;
      && (WithinLimits(limits, g.tasks) ==> WithinLimits(limits, h.tasks))
      && SumAttempts(h.tasks) == SumAttempts(g.tasks) + 1
  {
    var k := IndexOf(g.tasks, op.taskId);
    var u := ClaimedTask(g, g.tasks[k], op.schedulerId, op.leaseId, op.now);
    ReplaceAt(g.tasks, k, u);
    ClaimGrowth(g.tasks, k, u);
  }

  /** No transaction exceeds the limits, and exactly the claims add to the attempts. */
  lemma ReduceMeasures(limits: Limits, g: Graph, op: Op)
    requires LinkedGraph(g.tasks) && Reduce(limits, g, op).Ok?
    ensures
      var h := Reduce(limits, g, op).value.graph;
      && (WithinLimits(limits, g.tasks) ==> WithinLimits(limits, h.tasks))
      && SumAttempts(h.tasks) == SumAttempts(g.tasks) + if op.Claim? then 1 else 0
  {
    if op.Spawn? { SpawnMeasures(limits, g, op); }
    else if op.Claim? { ClaimMeasures(limits, g, op); }
    else {
      OtherReducersKeepShape(limits, g, op);
      NoClaimNoGrowth(g.tasks, Reduce(limits, g, op).value.graph.tasks);
    }
  }

  lemma InvariantFitsRank(tasks: seq<Task>, used: set<Id>, clock: nat)
    requires TasksInv(tasks, used, clock)
    ensures forall i | 0 <= i < |tasks| :: RankFits(tasks[i])
  {
    forall i | 0 <= i < |tasks|
      ensures RankFits(tasks[i])
    {
      assert TaskInv(tasks[i]);
    }
  }

  /** Every transaction that changes some status uses up rank; spawning brings its own allowance. */
  lemma ReduceUsesRank(limits: Limits, g: Graph, used: set<Id>, op: Op)
    requires GraphInv(g, used) && LinkedGraph(g.tasks) && Admissible(g, used, op) && Reduce(limits, g, op).Ok?
    ensures
      var h := Reduce(limits, g, op).value.graph;
      SumRank(h.tasks) - Allowance(h.tasks) + (if StatusChanged(g.tasks, h.tasks) then 1 else 0)
        <= SumRank(g.tasks) - Allowance(g.tasks)
  {
    if op.Spawn? {
      SpawnMeasures(limits, g, op);
    } else {
      var h := Reduce(limits, g, op).value.graph;
      ReduceKeeps(limits, g, used, op);
      OtherReducersKeepShape(limits, g, op);
      InvariantFitsRank(g.tasks, used, g.actionSeq);
      InvariantFitsRank(h.tasks, used + FreshIds(op), h.actionSeq);
      RankFalls(g.tasks, h.tasks, op.Claim?);
    }
  }
}
