/**
 Whole runs of a session: any sequence of transactions, failing or not, in any order, from
 the empty graph (packages/web-buddy/src/agents/task-graph.ts:629-657). What holds in every
 reachable state and between any two of them.
 */
module Runs {
  import opened Wrappers
  import opened Contracts
  import opened TaskGraph
  import opened Reducers
  import opened Invariants
  import opened EventLog
  import opened LogRules
  import opened Measures
  import Dag

  /** The stored graph, the event log, and (for freshness of UUIDs) every identifier made up so far. */
  datatype System = System(graph: Graph, log: seq<Event>, used: set<Id>)

  /** `createAgentTaskGraphV2`. */
  function EmptyGraph(identity: GraphIdentity, clock: nat): Graph {
    Graph(identity, 0, 1, clock, [], [], [], None)
  }

  function Start(identity: GraphIdentity, clock: nat): System {
    System(EmptyGraph(identity, clock), [], {})
  }

  function ActionIds(log: seq<Event>): set<Id> {
    set k | 0 <= k < |log| && log[k].body.BrowserActionAdvanced? :: log[k].body.actionId
  }

  /** A replayed browser action is answered from the log without a transaction (async-task-runtime.ts:463-473). */
  predicate Replayed(s: System, op: Op) {
    op.AdvanceClock? && op.actionId in ActionIds(s.log)
  }

  predicate Accepted(limits: Limits, s: System, op: Op) {
    !Replayed(s, op) && Commit(limits, s.graph, op).Ok?
  }

  /** One transaction; a throwing reducer or fence leaves everything as it was. */
  function Next(limits: Limits, s: System, op: Op): System {
    if !Accepted(limits, s, op) then s
    else
      var m := Commit(limits, s.graph, op).value;
      System(m.graph, s.log + [m.event], s.used + FreshIds(op))
  }

  function After(limits: Limits, s: System, ops: seq<Op>): System {
    if ops == [] then s else Next(limits, After(limits, s, ops[..|ops| - 1]), ops[|ops| - 1])
  }

  /** Every transaction of the run makes up its identifiers freshly when it runs. */
  ghost predicate Plausible(limits: Limits, s: System, ops: seq<Op>) {
    ops != [] ==>
      var front := ops[..|ops| - 1];
      var now := After(limits, s, front);
      Plausible(limits, s, front) && Admissible(now.graph, now.used, ops[|ops| - 1])
  }

  // ---------------------------------------------------------------- the invariant of every reachable state

  /** `eventSeq` 1, 2, 3, ... and a revision step with every event. */
  ghost predicate Chained(log: seq<Event>) {
    forall k | 0 <= k < |log| ::
      log[k].eventSeq == k + 1 && log[k].revisionBefore == k && log[k].revisionAfter == k + 1
  }

  ghost predicate LogInv(start: View, s: System) {
    && Chained(s.log) && s.graph.revision == |s.log| && s.graph.nextEventSeq == |s.log| + 1
    && LegalLog(start, s.log)
    && Project(s.graph) == Fold(start, s.log)
    && DistinctEvents(s.log) && (forall k | 0 <= k < |s.log| :: s.log[k].eventId in s.used)
  }

  function CountAllClaims(log: seq<Event>): nat {
    if log == [] then 0 else CountAllClaims(log[..|log| - 1]) + if log[|log| - 1].body.TaskClaimed? then 1 else 0
  }

  ghost predicate SystemInv(limits: Limits, start: View, s: System) {
    && GraphInv(s.graph, s.used) && LinkedGraph(s.graph.tasks)
    && LogInv(start, s)
    && WithinLimits(limits, s.graph.tasks)
    && CountsInv(s)
  }

  lemma StartInv(limits: Limits, identity: GraphIdentity, clock: nat)
    ensures
      var s := Start(identity, clock);
      SystemInv(limits, Project(s.graph), s)
  {
    var s := Start(identity, clock);
    assert AnnouncedIds(s.graph.tasks) == {} && EntryTasks(s.graph.outbox) == {};
    assert LinksOf([]) == map[];
    NothingPrecedes();
    assert ActionIds([]) == {};
  }

  lemma NothingPrecedes()
    ensures Dag.Acyclic(map[])
  {
    forall p: seq<Dag.Node> | |p| > 1
      ensures !Dag.Walk(map[], p)
    {
      assert !Dag.Edge(map[], p[0], p[0 + 1]);
    }
  }

  lemma ChainedMore(log: seq<Event>, e: Event)
    requires Chained(log) && e.eventSeq == |log| + 1 && e.revisionBefore == |log| && e.revisionAfter == |log| + 1
    ensures Chained(log + [e])
  {
  }

  lemma CommitStamps(limits: Limits, g: Graph, op: Op)
    requires Commit(limits, g, op).Ok?
    ensures
      var m := Commit(limits, g, op).value;
      && m.event.eventSeq == g.nextEventSeq && m.event.revisionBefore == g.revision
        && m.event.revisionAfter == g.revision + 1
      && m.graph.revision == g.revision + 1 && m.graph.nextEventSeq == g.nextEventSeq + 1
      && m.event.eventId == op.eventId
  {
  }

  lemma CommitChains(limits: Limits, start: View, s: System, op: Op)
    requires LogInv(start, s) && Commit(limits, s.graph, op).Ok?
    ensures
      var m := Commit(limits, s.graph, op).value;
      && Chained(s.log + [m.event])
      && m.graph.revision == |s.log| + 1 && m.graph.nextEventSeq == |s.log| + 2
      && m.event.eventId == op.eventId
  {
    CommitStamps(limits, s.graph, op);
    ChainedMore(s.log, Commit(limits, s.graph, op).value.event);
  }

  lemma LogGrows(limits: Limits, start: View, s: System, op: Op)
    requires GraphInv(s.graph, s.used) && LinkedGraph(s.graph.tasks) && LogInv(start, s)
    requires Admissible(s.graph, s.used, op) && Accepted(limits, s, op)
    ensures LogInv(start, Next(limits, s, op))
  {
    CommitChains(limits, start, s, op);
    CommitIsLegal(limits, s.graph, s.used, op);
    EventExplainsSnapshot(limits, s.graph, s.used, op);
    assert op.eventId in FreshIds(op);
    LogInvExtends(start, s, Commit(limits, s.graph, op).value, FreshIds(op));
  }

  lemma LogInvExtends(start: View, s: System, m: Mutation, ids: set<Id>)
    requires LogInv(start, s) && Chained(s.log + [m.event])
    requires m.graph.revision == |s.log| + 1 && m.graph.nextEventSeq == |s.log| + 2
    requires Legal(Fold(start, s.log), m.event) && ExplainedBy(s.graph, m)
    requires m.event.eventId in ids && ids !! s.used
    ensures LogInv(start, System(m.graph, s.log + [m.event], s.used + ids))
  {
    LegalMore(start, s.log, m.event);
  }

  lemma LegalMore(start: View, log: seq<Event>, e: Event)
    requires LegalLog(start, log) && Legal(Fold(start, log), e)
    ensures LegalLog(start, log + [e]) && Fold(start, log + [e]) == Apply(Fold(start, log), e)
  {
    assert (log + [e])[..|log|] == log;
  }

  lemma ActionIdsGrow(log: seq<Event>, e: Event)
    ensures ActionIds(log + [e]) == ActionIds(log) + if e.body.BrowserActionAdvanced? then {e.body.actionId} else {}
  {
    var all := log + [e];
    assert all[|log|] == e;
    assert forall k | 0 <= k < |log| :: all[k] == log[k];
  }

  lemma StepKeepsGraph(limits: Limits, s: System, op: Op)
    requires GraphInv(s.graph, s.used) && LinkedGraph(s.graph.tasks) && WithinLimits(limits, s.graph.tasks)
    requires Admissible(s.graph, s.used, op)
    ensures
      var t := Next(limits, s, op);
      && GraphInv(t.graph, t.used) && LinkedGraph(t.graph.tasks) && WithinLimits(limits, t.graph.tasks)
      && GraphEvolves(s.graph, t.graph)
  {
    if Accepted(limits, s, op) {
      ReduceKeeps(limits, s.graph, s.used, op);
      ReduceKeepsLinks(limits, s.graph, op);
      ReduceMeasures(limits, s.graph, op);
    } else {
      EvolvesReflexive(s.graph);
    }
  }

  lemma EvolvesReflexive(g: Graph)
    ensures GraphEvolves(g, g)
  {
  }

  ghost predicate CountsInv(s: System) {
    SumAttempts(s.graph.tasks) == CountAllClaims(s.log) && CountAdvances(s.log) == |ActionIds(s.log)|
  }

  lemma CountsGrow(log: seq<Event>, e: Event)
    ensures CountAllClaims(log + [e]) == CountAllClaims(log) + if e.body.TaskClaimed? then 1 else 0
    ensures CountAdvances(log + [e]) == CountAdvances(log) + if e.body.BrowserActionAdvanced? then 1 else 0
    ensures e.body.BrowserActionAdvanced? && e.body.actionId !in ActionIds(log) ==>
              |ActionIds(log + [e])| == |ActionIds(log)| + 1
    ensures !e.body.BrowserActionAdvanced? ==> ActionIds(log + [e]) == ActionIds(log)
  {
    ActionIdsGrow(log, e);
    assert (log + [e])[..|log|] == log;
  }

  lemma StepKeepsCounts(limits: Limits, s: System, op: Op)
    requires LinkedGraph(s.graph.tasks) && CountsInv(s)
    ensures CountsInv(Next(limits, s, op))
  {
    if Accepted(limits, s, op) {
      var m := Commit(limits, s.graph, op).value;
      ReduceMeasures(limits, s.graph, op);
      EventKind(limits, s.graph, op);
      CountsGrow(s.log, m.event);
    }
  }

  lemma StepKeepsInv(limits: Limits, start: View, s: System, op: Op)
    requires SystemInv(limits, start, s) && Admissible(s.graph, s.used, op)
    ensures SystemInv(limits, start, Next(limits, s, op))
    ensures GraphEvolves(s.graph, Next(limits, s, op).graph)
  {
    StepKeepsGraph(limits, s, op);
    StepKeepsCounts(limits, s, op);
    if Accepted(limits, s, op) {
      LogGrows(limits, start, s, op);
    }
  }

  lemma EventKind(limits: Limits, g: Graph, op: Op)
    requires Reduce(limits, g, op).Ok?
    ensures
      var b := Reduce(limits, g, op).value.event.body;
      && (b.TaskClaimed? <==> op.Claim?)
      && (b.BrowserActionAdvanced? <==> op.AdvanceClock?)
      && (op.AdvanceClock? ==> b.actionId == op.actionId)
  {
  }

  /** Every reachable state satisfies the invariant: log and snapshot agree, the graph is well formed, limits hold. */
  lemma {:induction false} RunKeepsInv(limits: Limits, identity: GraphIdentity, clock: nat, ops: seq<Op>)
    requires Plausible(limits, Start(identity, clock), ops)
    ensures
      var s := Start(identity, clock);
      SystemInv(limits, Project(s.graph), After(limits, s, ops))
  {
    var s := Start(identity, clock);
    if ops == [] {
      StartInv(limits, identity, clock);
    } else {
      var front := ops[..|ops| - 1];
      RunKeepsInv(limits, identity, clock, front);
      StepKeepsInv(limits, Project(s.graph), After(limits, s, front), ops[|ops| - 1]);
    }
  }
}
