/**
 What adding a task does to the links of a task graph: links stay exact inverses, and
 DAG_CYCLE is raised exactly when the new task would close a loop
 (packages/web-buddy/src/agents/task-graph.ts:724-739, 898-938).
 */
module GraphLinks {
  import opened Wrappers
  import opened Contracts
  import opened TaskGraph
  import opened Sorting
  import Dag

  lemma SingletonOrEmpty(r: seq<Id>, x: Id, present: bool)
    requires Distinct(r) && forall y :: y in r <==> y == x && present
    ensures r == if present then [x] else []
  {
    NonEmptyHasMember(r);
    if present {
      assert x in r;
      var k :| 0 <= k < |r| && r[k] == x;
      forall i {:trigger r[i]} | 0 <= i < |r|
        ensures i == k
      {
        assert r[i] in r;
      }
      assert r[0] == r[|r| - 1];
    }
  }

  lemma SameIds(xs: seq<Task>, ys: seq<Task>)
    requires |xs| == |ys| && forall i | 0 <= i < |xs| :: xs[i].id == ys[i].id
    ensures Ids(xs) == Ids(ys) && (UniqueIds(xs) ==> UniqueIds(ys))
  {
    forall x
      ensures x in Ids(xs) <==> x in Ids(ys)
    {
      if x in Ids(xs) {
        var i :| 0 <= i < |xs| && xs[i].id == x;
        assert ys[i] in ys;
      }
      if x in Ids(ys) {
        var i :| 0 <= i < |ys| && ys[i].id == x;
        assert xs[i] in xs;
      }
    }
  }

  lemma AppendIds(tasks: seq<Task>, t: Task)
    requires UniqueIds(tasks) && t.id !in Ids(tasks)
    ensures UniqueIds(tasks + [t]) && Ids(tasks + [t]) == Ids(tasks) + {t.id}
  {
    var all := tasks + [t];
    assert forall s :: s in all <==> s in tasks || s == t;
    forall i, j | 0 <= i < j < |all|
      ensures all[i].id != all[j].id
    {
      assert tasks[i] in tasks;
    }
  }

  /** A new task that names only known tasks, none of them twice. */
  ghost predicate Addable(tasks: seq<Task>, t: Task) {
    && t.id !in Ids(tasks)
    && References(t, Ids(tasks))
    && Distinct(t.blocks) && Distinct(t.blockedBy)
  }

  function Extended(s: Task, t: Task): Task {
    s.(blocks := s.blocks + (if s.id in t.blockedBy then [t.id] else []),
       blockedBy := s.blockedBy + (if s.id in t.blocks then [t.id] else []))
  }

  lemma OnlyNewDependant(tasks: seq<Task>, t: Task, s: Task)
    requires MirroredLinks(tasks) && Addable(tasks, t) && s in tasks
    ensures MissingDependants(tasks + [t], s.id, s.blocks) == if s.id in t.blockedBy then [t.id] else []
  {
    var all := tasks + [t];
    var d := MissingDependants(all, s.id, s.blocks);
    assert s.id in Ids(tasks) && t in all;
    assert t.id !in s.blocks;
    forall x
      ensures x in d <==> x == t.id && s.id in t.blockedBy
    {
      assert forall u | u in tasks && s.id in u.blockedBy :: u.id in s.blocks;
      assert forall u | u in all :: u in tasks || u == t;
    }
    SingletonOrEmpty(d, t.id, s.id in t.blockedBy);
  }

  lemma OnlyNewPrerequisite(tasks: seq<Task>, t: Task, s: Task)
    requires MirroredLinks(tasks) && Addable(tasks, t) && s in tasks
    ensures MissingPrerequisites(tasks + [t], s.id, s.blockedBy) == if s.id in t.blocks then [t.id] else []
  {
    var all := tasks + [t];
    var p := MissingPrerequisites(all, s.id, s.blockedBy);
    assert s.id in Ids(tasks) && t in all;
    assert t.id !in s.blockedBy;
    forall x
      ensures x in p <==> x == t.id && s.id in t.blocks
    {
      assert forall u | u in tasks && s.id in u.blocks :: u.id in s.blockedBy;
      assert forall u | u in all :: u in tasks || u == t;
    }
    SingletonOrEmpty(p, t.id, s.id in t.blocks);
  }

  /** In a linked graph, completing the links after an addition only appends the new identifier. */
  lemma SyncOfAddition(tasks: seq<Task>, t: Task)
    requires MirroredLinks(tasks) && Addable(tasks, t)
    ensures
      var r := SyncLinks(tasks + [t]);
      && r[|tasks|] == t
      && forall i | 0 <= i < |tasks| :: r[i] == Extended(tasks[i], t)
  {
    forall i | 0 <= i < |tasks|
      ensures SyncTask(tasks + [t], tasks[i]) == Extended(tasks[i], t)
    {
      OnlyNewDependant(tasks, t, tasks[i]);
      OnlyNewPrerequisite(tasks, t, tasks[i]);
    }
    NewTaskUntouched(tasks, t);
  }

  lemma NothingMissing(all: seq<Task>, id: Id, blocks: seq<Id>, blockedBy: seq<Id>)
    ensures (forall s | s in all && s.id != id :: id !in s.blockedBy) ==> MissingDependants(all, id, blocks) == []
    ensures (forall s | s in all && s.id != id :: id !in s.blocks) ==> MissingPrerequisites(all, id, blockedBy) == []
  {
    var d := MissingDependants(all, id, blocks);
    var p := MissingPrerequisites(all, id, blockedBy);
    assert d != [] ==> d[0] in d;
    assert p != [] ==> p[0] in p;
  }

  lemma NewTaskUntouched(tasks: seq<Task>, t: Task)
    requires MirroredLinks(tasks) && Addable(tasks, t)
    ensures SyncTask(tasks + [t], t) == t
  {
    var all := tasks + [t];
    forall s | s in all && s.id != t.id
      ensures t.id !in s.blockedBy && t.id !in s.blocks
    {
      assert s in tasks && t.id !in Ids(tasks);
    }
    NothingMissing(all, t.id, t.blocks, t.blockedBy);
    assert t.blocks + [] == t.blocks && t.blockedBy + [] == t.blockedBy;
  }

  lemma LinksAt(tasks: seq<Task>, i: nat)
    requires UniqueIds(tasks) && i < |tasks|
    ensures tasks[i].id in LinksOf(tasks) && LinksOf(tasks)[tasks[i].id] == tasks[i].blocks
  {
    FindIsUnique(tasks, i);
    assert tasks[i] in tasks;
  }

  ghost predicate HasLink(tasks: seq<Task>, a: Id, b: Id) {
    exists i | 0 <= i < |tasks| :: tasks[i].id == a && b in tasks[i].blocks
  }

  lemma EdgeIsLink(tasks: seq<Task>, a: Id, b: Id)
    requires UniqueIds(tasks)
    ensures Dag.Edge(LinksOf(tasks), a, b) <==> HasLink(tasks, a, b)
  {
    if Dag.Edge(LinksOf(tasks), a, b) {
      var t := FindKnown(tasks, a);
      var i :| 0 <= i < |tasks| && tasks[i] == t;
      LinksAt(tasks, i);
    }
    if HasLink(tasks, a, b) {
      var i :| 0 <= i < |tasks| && tasks[i].id == a && b in tasks[i].blocks;
      LinksAt(tasks, i);
    }
  }

  /** Identifiers after an addition. */
  lemma AdditionIds(tasks: seq<Task>, t: Task)
    requires UniqueIds(tasks) && t.id !in Ids(tasks)
    ensures
      var r := SyncLinks(tasks + [t]);
      UniqueIds(r) && Ids(r) == Ids(tasks) + {t.id}
  {
    AppendIds(tasks, t);
    SameIds(tasks + [t], SyncLinks(tasks + [t]));
  }

  ghost predicate ExtendedBy(tasks: seq<Task>, t: Task, r: seq<Task>) {
    |r| == |tasks| + 1 && r[|tasks|] == t && forall i | 0 <= i < |tasks| :: r[i] == Extended(tasks[i], t)
  }

  lemma LinkOfAddition(tasks: seq<Task>, t: Task, r: seq<Task>, a: Id, b: Id)
    requires ExtendedBy(tasks, t, r) && HasLink(r, a, b)
    ensures HasLink(tasks, a, b) || (a == t.id && b in t.blocks) || (b == t.id && a in t.blockedBy)
  {
    var i :| 0 <= i < |r| && r[i].id == a && b in r[i].blocks;
    if i < |tasks| {
      assert tasks[i].id == a && r[i] == Extended(tasks[i], t);
    }
  }

  lemma AdditionHasLink(tasks: seq<Task>, t: Task, r: seq<Task>, a: Id, b: Id)
    requires ExtendedBy(tasks, t, r) && References(t, Ids(tasks))
    requires HasLink(tasks, a, b) || (a == t.id && b in t.blocks) || (b == t.id && a in t.blockedBy)
    ensures HasLink(r, a, b)
  {
    if a == t.id && b in t.blocks {
      assert r[|tasks|].id == a && b in r[|tasks|].blocks;
    } else if b == t.id && a in t.blockedBy {
      assert a in Ids(tasks);
      var i :| 0 <= i < |tasks| && tasks[i].id == a;
      assert r[i].id == a && b in r[i].blocks;
    } else {
      var i :| 0 <= i < |tasks| && tasks[i].id == a && b in tasks[i].blocks;
      assert r[i].id == a && b in r[i].blocks;
    }
  }

  lemma AdditionEdge(tasks: seq<Task>, t: Task, a: Id, b: Id)
    requires MirroredLinks(tasks) && Addable(tasks, t)
    ensures
      Dag.Edge(LinksOf(SyncLinks(tasks + [t])), a, b)
      <==> Dag.Edge(LinksOf(tasks), a, b) || (a == t.id && b in t.blocks) || (b == t.id && a in t.blockedBy)
  {
    var r := SyncLinks(tasks + [t]);
    SyncOfAddition(tasks, t);
    AdditionIds(tasks, t);
    EdgeIsLink(tasks, a, b);
    EdgeIsLink(r, a, b);
    assert ExtendedBy(tasks, t, r);
    if HasLink(r, a, b) {
      LinkOfAddition(tasks, t, r, a, b);
    } else if HasLink(tasks, a, b) || (a == t.id && b in t.blocks) || (b == t.id && a in t.blockedBy) {
      AdditionHasLink(tasks, t, r, a, b);
    }
  }

  lemma AdditionAddsNode(tasks: seq<Task>, t: Task)
    requires MirroredLinks(tasks) && Addable(tasks, t)
    ensures Dag.AddsNode(LinksOf(tasks), LinksOf(SyncLinks(tasks + [t])), t.id, Elements(t.blocks),
                         Elements(t.blockedBy))
  {
    forall a, b
      ensures
        Dag.Edge(LinksOf(SyncLinks(tasks + [t])), a, b)
        <==> || Dag.Edge(LinksOf(tasks), a, b)
             || (a == t.id && b in Elements(t.blocks)) || (b == t.id && a in Elements(t.blockedBy))
    {
      AdditionEdge(tasks, t, a, b);
    }
    forall a
      ensures !Dag.Edge(LinksOf(tasks), a, t.id)
    {
      EdgeIsLink(tasks, a, t.id);
    }
    assert t.id !in Elements(t.blocks) && t.id !in Elements(t.blockedBy);
  }

  lemma SearchedAll(tasks: seq<Task>)
    ensures forall x :: x in LinksOf(tasks) <==> x in IdList(tasks)
  {
    forall x
      ensures x in Ids(tasks) <==> x in IdList(tasks)
    {
      if x in Ids(tasks) {
        var i :| 0 <= i < |tasks| && tasks[i].id == x;
        assert IdList(tasks)[i] == x;
      }
      if x in IdList(tasks) {
        var i :| 0 <= i < |tasks| && IdList(tasks)[i] == x;
        assert tasks[i] in tasks;
      }
    }
  }

  /** DAG_CYCLE is raised exactly when a task the new one blocks already leads to (or is) one it waits for. */
  lemma CycleErrorCondition(tasks: seq<Task>, t: Task)
    requires LinkedGraph(tasks) && Addable(tasks, t)
    requires forall s | s in tasks :: s.idempotencyKey != t.idempotencyKey
    ensures AddTask(tasks, t) == Err(DagCycle)
       <==> exists b, d :: b in Elements(t.blocks) && d in Elements(t.blockedBy) && Dag.Reaches(LinksOf(tasks), b, d)
    ensures AddTask(tasks, t).Ok? || AddTask(tasks, t) == Err(DagCycle)
  {
    var linked := SyncLinks(tasks + [t]);
    AdditionAddsNode(tasks, t);
    Dag.AddingNodeClosesCycle(LinksOf(tasks), LinksOf(linked), t.id, Elements(t.blocks), Elements(t.blockedBy));
    SearchedAll(linked);
    Dag.SearchDecidesAcyclicity(LinksOf(linked), IdList(linked));
  }

  lemma AdditionKeepsMirror(tasks: seq<Task>, t: Task)
    requires MirroredLinks(tasks) && Addable(tasks, t)
    ensures MirroredLinks(SyncLinks(tasks + [t]))
  {
    var r := SyncLinks(tasks + [t]);
    SyncOfAddition(tasks, t);
    AdditionIds(tasks, t);
    assert ExtendedBy(tasks, t, r);
    forall u | u in r
      ensures KnownTargets(u, Ids(r))
    {
      AdditionKnowsTargets(tasks, t, r, u);
    }
    forall s, u | s in r && u in r
      ensures u.id in s.blocks <==> s.id in u.blockedBy
    {
      var i :| 0 <= i < |r| && r[i] == s;
      var j :| 0 <= j < |r| && r[j] == u;
      AdditionInverse(tasks, t, r, i, j);
    }
  }

  ghost predicate KnownTargets(u: Task, ids: set<Id>) {
    && Distinct(u.blocks) && Distinct(u.blockedBy)
    && (forall x | x in u.blocks :: x in ids)
    && (forall x | x in u.blockedBy :: x in ids)
  }

  lemma AdditionKnowsTargets(tasks: seq<Task>, t: Task, r: seq<Task>, u: Task)
    requires MirroredLinks(tasks) && Addable(tasks, t) && ExtendedBy(tasks, t, r) && u in r
    ensures KnownTargets(u, Ids(tasks) + {t.id})
  {
    var i :| 0 <= i < |r| && r[i] == u;
    if i < |tasks| { ExtendedListsDistinct(tasks, t, tasks[i]); }
  }

  lemma ExtendedListsDistinct(tasks: seq<Task>, t: Task, s: Task)
    requires MirroredLinks(tasks) && Addable(tasks, t) && s in tasks
    ensures Distinct(Extended(s, t).blocks) && Distinct(Extended(s, t).blockedBy)
    ensures forall x | x in Extended(s, t).blocks :: x in Ids(tasks) + {t.id}
    ensures forall x | x in Extended(s, t).blockedBy :: x in Ids(tasks) + {t.id}
  {
    assert t.id !in s.blocks && t.id !in s.blockedBy;
  }

  lemma AdditionInverse(tasks: seq<Task>, t: Task, r: seq<Task>, i: nat, j: nat)
    requires MirroredLinks(tasks) && Addable(tasks, t) && ExtendedBy(tasks, t, r) && i <= |tasks| && j <= |tasks|
    ensures r[j].id in r[i].blocks <==> r[i].id in r[j].blockedBy
  {
    assert i < |tasks| ==> tasks[i] in tasks && tasks[i].id in Ids(tasks) && t.id !in tasks[i].blocks;
    assert j < |tasks| ==> tasks[j] in tasks && tasks[j].id in Ids(tasks) && t.id !in tasks[j].blockedBy;
  }

  /** An accepted addition leaves a linked graph: inverse links, known targets, no cycle. */
  lemma AddTaskKeepsLinkedGraph(tasks: seq<Task>, t: Task)
    requires LinkedGraph(tasks) && Distinct(t.blocks) && Distinct(t.blockedBy)
    requires AddTask(tasks, t).Ok?
    ensures Addable(tasks, t) && AddTask(tasks, t).value == SyncLinks(tasks + [t])
    ensures LinkedGraph(SyncLinks(tasks + [t]))
  {
    var r := SyncLinks(tasks + [t]);
    AdditionKeepsMirror(tasks, t);
    SearchedAll(r);
    Dag.SearchDecidesAcyclicity(LinksOf(r), IdList(r));
  }
}
