/**
 The completion gate of the main agent, implemented twice in the source
 (packages/web-buddy/src/agents/async-task-runtime.ts:643-686 and
 packages/web-buddy/src/agents/async-task-prompt.ts:200-250).
 */
module Readiness {
  import opened Wrappers
  import opened Contracts
  import opened Sorting
  import opened TaskGraph
  import opened Reducers
  import opened Invariants
  import opened EventLog
  import opened Runs
  import opened Guarantees

  datatype EvidenceRef = EvidenceRef(artifactId: Id, sessionId: Id, runId: Id, immutable: bool)

  datatype Verification = Verification(refs: seq<EvidenceRef>, verifiedAgainstActionSeq: nat)

  datatype Readiness =
    | BlockedRequired(pendingOrRunning: seq<Id>, failedOrKilled: seq<Id>)
    | Eligible(refs: seq<EvidenceRef>, verifiedAgainstActionSeq: nat)

  /** `requiredForCompletion`: the policy of a required task is never `does_not_block`. */
  predicate Required(t: Task) {
    t.policy != DoesNotBlock
  }

  predicate StillOpen(t: Task) {
    Required(t) && !Terminal(t.status)
  }

  predicate Unacceptable(t: Task) {
    t.policy == MustCompleteSuccessfully && (t.status == Failed || t.status == Killed)
  }

  function OpenIds(tasks: seq<Task>): seq<Id> {
    if tasks == [] then []
    else OpenIds(tasks[..|tasks| - 1]) + if StillOpen(tasks[|tasks| - 1]) then [tasks[|tasks| - 1].id] else []
  }

  function UnacceptableIds(tasks: seq<Task>): seq<Id> {
    if tasks == [] then []
    else UnacceptableIds(tasks[..|tasks| - 1]) + if Unacceptable(tasks[|tasks| - 1]) then [tasks[|tasks| - 1].id]
      else []
  }

  /** A required task is unfinished, or ended badly where success was demanded. */
  ghost predicate Obstructed(tasks: seq<Task>) {
    exists i :: 0 <= i < |tasks| && (StillOpen(tasks[i]) || Unacceptable(tasks[i]))
  }

  lemma {:induction false} OpenIdsAreComplete(tasks: seq<Task>)
    ensures forall x :: x in OpenIds(tasks) <==> exists i :: 0 <= i < |tasks| && tasks[i].id == x && StillOpen(tasks[i])
  {
    if tasks != [] {
      var n := |tasks| - 1;
      OpenIdsAreComplete(tasks[..n]);
      forall x
        ensures x in OpenIds(tasks) <==> exists i :: 0 <= i < |tasks| && tasks[i].id == x && StillOpen(tasks[i])
      {
        if i :| 0 <= i < |tasks| && tasks[i].id == x && StillOpen(tasks[i]) {
          if i < n { assert tasks[..n][i] == tasks[i]; }
        }
      }
    }
  }

  lemma {:induction false} UnacceptableIdsAreComplete(tasks: seq<Task>)
    ensures forall x :: x in UnacceptableIds(tasks) <==> exists i ::
              0 <= i < |tasks| && tasks[i].id == x && Unacceptable(tasks[i])
  {
    if tasks != [] {
      var n := |tasks| - 1;
      UnacceptableIdsAreComplete(tasks[..n]);
      forall x
        ensures x in UnacceptableIds(tasks) <==> exists i ::
                  0 <= i < |tasks| && tasks[i].id == x && Unacceptable(tasks[i])
      {
        if i :| 0 <= i < |tasks| && tasks[i].id == x && Unacceptable(tasks[i]) {
          if i < n { assert tasks[..n][i] == tasks[i]; }
        }
      }
    }
  }

  /** The first list are the required tasks that have not ended, the second those that had to succeed and did not. */
  lemma ObstaclesAreListed(tasks: seq<Task>)
    ensures forall x :: x in OpenIds(tasks)
                   <==> exists i :: && 0 <= i < |tasks| && tasks[i].id == x && tasks[i].policy != DoesNotBlock
                                    && tasks[i].status in {Pending, Blocked, Running}
    ensures forall x :: x in UnacceptableIds(tasks)
                   <==> exists i :: && 0 <= i < |tasks| && tasks[i].id == x
                                    && tasks[i].policy == MustCompleteSuccessfully
                                    && tasks[i].status in {Failed, Killed}
  {
    OpenIdsAreComplete(tasks);
    UnacceptableIdsAreComplete(tasks);
    forall i | 0 <= i < |tasks|
      ensures StillOpen(tasks[i])
         <==> tasks[i].policy != DoesNotBlock && tasks[i].status in {Pending, Blocked, Running}
    {
      EndedOrNot(tasks[i].status);
    }
  }

  lemma EndedOrNot(s: Status)
    ensures Terminal(s) <==> s !in {Pending, Blocked, Running}
  {
    match s
    case Pending =>
    case Blocked =>
    case Running =>
    case _ =>
  }

  lemma NothingListed(tasks: seq<Task>)
    ensures OpenIds(tasks) == [] && UnacceptableIds(tasks) == [] <==> !Obstructed(tasks)
  {
    OpenIdsAreComplete(tasks);
    UnacceptableIdsAreComplete(tasks);
    if OpenIds(tasks) != [] { assert OpenIds(tasks)[0] in OpenIds(tasks); }
    if UnacceptableIds(tasks) != [] { assert UnacceptableIds(tasks)[0] in UnacceptableIds(tasks); }
    if i :| 0 <= i < |tasks| && (StillOpen(tasks[i]) || Unacceptable(tasks[i])) {
      assert tasks[i].id in OpenIds(tasks) || tasks[i].id in UnacceptableIds(tasks);
    }
  }

  predicate Owned(g: Graph, ref: EvidenceRef) {
    ref.immutable && ref.sessionId == g.identity.sessionId && ref.runId == g.identity.runId
  }

  /** The two id lists, collected in one pass over the tasks. */
  method CollectObstacles(tasks: seq<Task>) returns (pendingOrRunning: seq<Id>, failedOrKilled: seq<Id>)
    ensures pendingOrRunning == OpenIds(tasks) && failedOrKilled == UnacceptableIds(tasks)
  {
    pendingOrRunning, failedOrKilled := [], [];
    for i := 0 to |tasks|
      invariant pendingOrRunning == OpenIds(tasks[..i]) && failedOrKilled == UnacceptableIds(tasks[..i])
    {
      assert tasks[..i + 1][..i] == tasks[..i];
      if Required(tasks[i]) {
        if tasks[i].status == Pending || tasks[i].status == Blocked || tasks[i].status == Running {
          pendingOrRunning := pendingOrRunning + [tasks[i].id];
        } else if (tasks[i].status == Failed
                   || tasks[i].status == Killed) && tasks[i].policy == MustCompleteSuccessfully {
          failedOrKilled := failedOrKilled + [tasks[i].id];
        }
      }
    }
    assert tasks[..|tasks|] == tasks;
  }

  /** `AsyncTaskRuntime.completionReadiness`; `verification` is the argument or what the provider supplied. */
  method CompletionReadiness(g: Graph, verification: Option<Verification>) returns (r: Result<Readiness, ErrorCode>)
    ensures Obstructed(g.tasks) ==> r == Ok(BlockedRequired(OpenIds(g.tasks), UnacceptableIds(g.tasks)))
    ensures !Obstructed(g.tasks) ==>
              (r.Ok? <==> && verification.Some? && verification.value.refs != []
                          && verification.value.verifiedAgainstActionSeq == g.actionSeq
                          && forall ref | ref in verification.value.refs ::
                               && ref.immutable && ref.sessionId == g.identity.sessionId
                               && ref.runId == g.identity.runId)
    ensures !Obstructed(g.tasks) && r.Ok? ==> r.value == Eligible(verification.value.refs, g.actionSeq)
  {
    var pendingOrRunning, failedOrKilled := CollectObstacles(g.tasks);
    NothingListed(g.tasks);
    if |pendingOrRunning| > 0 || |failedOrKilled| > 0 {
      return Ok(BlockedRequired(pendingOrRunning, failedOrKilled));
    }
    if verification.None? || |verification.value.refs| == 0 {
      return Err(PolicyViolation);
    }
    if verification.value.verifiedAgainstActionSeq != g.actionSeq {
      return Err(PolicyViolation);
    }
    for i := 0 to |verification.value.refs|
      invariant forall j | 0 <= j < i :: Owned(g, verification.value.refs[j])
    {
      if !Owned(g, verification.value.refs[i]) {
        return Err(ContextPolicyViolation);
      }
    }
    r := Ok(Eligible(verification.value.refs, verification.value.verifiedAgainstActionSeq));
  }

  /** `buildMainCompletionReadiness`: the lists are sorted, the other checks come in another order. */
  method BuildMainCompletionReadiness(g: Graph, verification: Option<Verification>)
    returns (r: Result<Readiness, ErrorCode>)
    ensures Obstructed(g.tasks) ==>
              r == Ok(BlockedRequired(SortBy(IdBefore, OpenIds(g.tasks)), SortBy(IdBefore, UnacceptableIds(g.tasks))))
    ensures !Obstructed(g.tasks) ==>
              (r.Ok? <==> && verification.Some?
                          && verification.value.verifiedAgainstActionSeq == g.actionSeq
                          && forall ref | ref in verification.value.refs ::
                               && ref.immutable && ref.sessionId == g.identity.sessionId
                               && ref.runId == g.identity.runId)
    ensures !Obstructed(g.tasks) && r.Ok? ==> r.value == Eligible(verification.value.refs, g.actionSeq)
  {
    var pendingOrRunning, failedOrKilled := CollectObstacles(g.tasks);
    NothingListed(g.tasks);
    if |pendingOrRunning| > 0 || |failedOrKilled| > 0 {
      return Ok(BlockedRequired(SortBy(IdBefore, pendingOrRunning), SortBy(IdBefore, failedOrKilled)));
    }
    if verification.None? {
      return Err(PolicyViolation);
    }
    if verification.value.verifiedAgainstActionSeq != g.actionSeq {
      return Err(PolicyViolation);
    }
    for i := 0 to |verification.value.refs|
      invariant forall j | 0 <= j < i :: Owned(g, verification.value.refs[j])
    {
      if !Owned(g, verification.value.refs[i]) {
        return Err(PolicyViolation);
      }
    }
    r := Ok(Eligible(verification.value.refs, verification.value.verifiedAgainstActionSeq));
  }

  // ---------------------------------------------------------------- the gates agree

  /**
   Both gates block the same graphs on the same identifiers (the second lists them in order). On an
   open gate they give different answers exactly for a current verification without evidence: the
   first refuses it and the second accepts it.
   */
  method BothGatesAgree(g: Graph, verification: Option<Verification>)
    returns (first: Result<Readiness, ErrorCode>, second: Result<Readiness, ErrorCode>)
    ensures first.Ok? && first.value.BlockedRequired? <==> second.Ok? && second.value.BlockedRequired?
    ensures first.Ok? && first.value.BlockedRequired? ==>
              && multiset(first.value.pendingOrRunning) == multiset(second.value.pendingOrRunning)
              && multiset(first.value.failedOrKilled) == multiset(second.value.failedOrKilled)
    ensures first.Ok? == second.Ok? <==> Obstructed(g.tasks) || !NoEvidence(g, verification)
    ensures !Obstructed(g.tasks) && first.Ok? && second.Ok? ==> first == second
    ensures !Obstructed(g.tasks) && NoEvidence(g, verification) ==> first.Err? && second.Ok?
  {
    first := CompletionReadiness(g, verification);
    second := BuildMainCompletionReadiness(g, verification);
    SortRearranges(IdBefore, OpenIds(g.tasks));
    SortRearranges(IdBefore, UnacceptableIds(g.tasks));
  }

  /** A verification against the current action that names no evidence. */
  predicate NoEvidence(g: Graph, verification: Option<Verification>) {
    verification.Some? && verification.value.refs == [] && verification.value.verifiedAgainstActionSeq == g.actionSeq
  }

  /** On a new session the empty verification is refused by the first gate and accepted by the second. */
  method EmptyEvidence(identity: GraphIdentity)
    returns (first: Result<Readiness, ErrorCode>, second: Result<Readiness, ErrorCode>)
    ensures first.Err? && second == Ok(Eligible([], 0))
  {
    first := CompletionReadiness(EmptyGraph(identity, 0), Some(Verification([], 0)));
    second := BuildMainCompletionReadiness(EmptyGraph(identity, 0), Some(Verification([], 0)));
  }

  // ---------------------------------------------------------------- once open, what can close the gate

  lemma StayClear(g: Graph, h: Graph)
    requires GraphEvolves(g, h) && !Obstructed(g.tasks)
    requires forall i | |g.tasks| <= i < |h.tasks| :: !StillOpen(h.tasks[i]) && !Unacceptable(h.tasks[i])
    ensures !Obstructed(h.tasks)
  {
    forall i | 0 <= i < |h.tasks|
      ensures !StillOpen(h.tasks[i]) && !Unacceptable(h.tasks[i])
    {
      if i < |g.tasks| {
        assert TaskEvolves(g.tasks[i], h.tasks[i]);
        assert !StillOpen(g.tasks[i]) && !Unacceptable(g.tasks[i]);
      }
    }
  }

  lemma GateBeside(g: Graph, h: Graph, t: Task)
    requires GraphEvolves(g, h) && !Obstructed(g.tasks) && !Terminal(t.status)
    requires |h.tasks| == |g.tasks| + 1 && h.tasks[|g.tasks|] == t
    ensures Obstructed(h.tasks) <==> Required(t)
  {
    if Required(t) {
      assert StillOpen(h.tasks[|g.tasks|]);
    } else {
      StayClear(g, h);
    }
  }

  lemma LastAdded(tasks: seq<Task>, t: Task)
    requires LinkedGraph(tasks) && Distinct(t.blocks) && Distinct(t.blockedBy) && AddTask(tasks, t).Ok?
    ensures var r := AddTask(tasks, t).value; |r| == |tasks| + 1 && r[|tasks|] == t
  {
    AdditionShape(tasks, t);
  }

  lemma GateAfterAddition(g: Graph, h: Graph, t: Task)
    requires LinkedGraph(g.tasks) && Distinct(t.blocks) && Distinct(t.blockedBy) && AddTask(g.tasks, t) == Ok(h.tasks)
    requires GraphEvolves(g, h) && !Obstructed(g.tasks) && !Terminal(t.status)
    ensures Obstructed(h.tasks) <==> Required(t)
  {
    LastAdded(g.tasks, t);
    GateBeside(g, h, t);
  }

  lemma NewTask(input: TaskInput, now: Time)
    ensures
      var t := CreateTask(input, now);
      Distinct(t.blocks) && Distinct(t.blockedBy) && !Terminal(t.status) && t.policy == input.policy
  {
  }

  lemma GateAfterSpawn(limits: Limits, g: Graph, op: Op, h: Graph)
    requires op.Spawn? && ReduceSpawn(limits, g, op).Ok? && h == ReduceSpawn(limits, g, op).value.graph
    requires LinkedGraph(g.tasks) && !Obstructed(g.tasks) && GraphEvolves(g, h)
    ensures Obstructed(h.tasks) <==> op.input.policy != DoesNotBlock
  {
    NewTask(op.input, op.now);
    SpawnAdds(limits, g, op);
    GateAfterAddition(g, h, CreateTask(op.input, op.now));
  }

  /** From an open gate, a committed transaction closes it exactly when it spawns a required task. */
  lemma OnlySpawnCloses(limits: Limits, g: Graph, used: set<Id>, op: Op)
    requires GraphInv(g, used) && LinkedGraph(g.tasks) && Admissible(g, used, op)
    requires !Obstructed(g.tasks) && Reduce(limits, g, op).Ok?
    ensures Obstructed(Reduce(limits, g, op).value.graph.tasks) <==> op.Spawn? && op.input.policy != DoesNotBlock
  {
    ReduceKeeps(limits, g, used, op);
    if op.Spawn? {
      GateAfterSpawn(limits, g, op, Reduce(limits, g, op).value.graph);
    } else {
      OtherReducersKeepShape(limits, g, op);
      StayClear(g, Reduce(limits, g, op).value.graph);
    }
  }

  predicate SpawnsRequired(op: Op) {
    op.Spawn? && op.input.policy != DoesNotBlock
  }

  lemma OpenGateStep(limits: Limits, start: View, s: System, op: Op)
    requires SystemInv(limits, start, s) && Admissible(s.graph, s.used, op)
    requires !Obstructed(s.graph.tasks) && !SpawnsRequired(op)
    ensures !Obstructed(Next(limits, s, op).graph.tasks)
  {
    if Accepted(limits, s, op) {
      OnlySpawnCloses(limits, s.graph, s.used, op);
    }
  }

  /** Along any continuation without a spawn of a required task, an open gate stays open. */
  lemma {:induction false} OpenGateStaysOpen(limits: Limits, identity: GraphIdentity, clock: nat, s: System,
                                             more: seq<Op>)
    requires Reachable(limits, identity, clock, s) && Plausible(limits, s, more)
    requires !Obstructed(s.graph.tasks) && forall i | 0 <= i < |more| :: !SpawnsRequired(more[i])
    ensures !Obstructed(After(limits, s, more).graph.tasks)
  {
    if more != [] {
      var front := more[..|more| - 1];
      var op := more[|more| - 1];
      assert !SpawnsRequired(op);
      OpenGateStaysOpen(limits, identity, clock, s, front);
      ReachableInv(limits, identity, clock, s);
      ContinuationKeeps(limits, StartView(identity, clock), s, front);
      OpenGateStep(limits, StartView(identity, clock), After(limits, s, front), op);
    }
  }
}
