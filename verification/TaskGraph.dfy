/**
 The V2 task graph: lookup and replacement, dependency links, adding a task, the order in
 which runnable tasks are taken, and the refresh of dependency blocks
 (packages/web-buddy/src/agents/task-graph.ts:595-597, 685-760, 859-938 and
 packages/web-buddy/src/agents/task-scheduler.ts:683-691, 955-967).
 */
module TaskGraph {
  import opened Wrappers
  import opened Contracts
  import Dag
  import opened Sorting

  // ---------------------------------------------------------------- lookup and replacement

  /** `tasks.find((task) => task.id === id)`. */
  function Find(tasks: seq<Task>, id: Id): (r: Option<Task>)
    ensures r.Some? ==> r.value in tasks && r.value.id == id
    ensures r.None? ==> forall t | t in tasks :: t.id != id
  {
    if tasks == [] then None
    else if tasks[0].id == id then Some(tasks[0])
    else Find(tasks[1..], id)
  }

  function Ids(tasks: seq<Task>): set<Id> {
    set t | t in tasks :: t.id
  }

  ghost predicate UniqueIds(tasks: seq<Task>) {
    forall i, j | 0 <= i < j < |tasks| :: tasks[i].id != tasks[j].id
  }

  lemma {:induction false} FindIsUnique(tasks: seq<Task>, i: nat)
    requires UniqueIds(tasks) && i < |tasks|
    ensures Find(tasks, tasks[i].id) == Some(tasks[i])
  {
    if i > 0 {
      assert tasks[0].id != tasks[i].id;
      assert tasks[1..][i - 1] == tasks[i];
      FindIsUnique(tasks[1..], i - 1);
    }
  }

  lemma FindMember(tasks: seq<Task>, t: Task)
    requires UniqueIds(tasks) && t in tasks
    ensures Find(tasks, t.id) == Some(t)
  {
    var i :| 0 <= i < |tasks| && tasks[i] == t;
    FindIsUnique(tasks, i);
  }

  /** `replaceTask`. */
  function Replace(tasks: seq<Task>, t: Task): (r: seq<Task>)
    ensures |r| == |tasks|
    ensures forall i | 0 <= i < |tasks| :: r[i] == if tasks[i].id == t.id then t else tasks[i]
  {
    seq(|tasks|, i requires 0 <= i < |tasks| => if tasks[i].id == t.id then t else tasks[i])
  }

  // ---------------------------------------------------------------- identifier lists

  /** `uniqueIds(values, selfId)` on identifiers that carry no surrounding blanks. */
  function UniqueList(values: seq<Id>, self: Option<Id>): (r: seq<Id>)
    ensures forall x :: x in r <==> x in values && Some(x) != self
    ensures Distinct(r)
  {
    if values == [] then []
    else
      var last := values[|values| - 1];
      var front := UniqueList(values[..|values| - 1], self);
      assert values == values[..|values| - 1] + [last];
      if Some(last) == self || last in front then front else front + [last]
  }

  // ---------------------------------------------------------------- dependency links

  /** Tasks that list `id` in `blockedBy` but are missing from `known`, in order. */
  function MissingDependants(tasks: seq<Task>, id: Id, known: seq<Id>): (r: seq<Id>)
    ensures forall x :: x in r <==> x !in known && x != id && exists t :: t in tasks && t.id == x && id in t.blockedBy
    ensures Distinct(r)
  {
    if tasks == [] then []
    else
      var t := tasks[|tasks| - 1];
      var front := MissingDependants(tasks[..|tasks| - 1], id, known);
      assert tasks == tasks[..|tasks| - 1] + [t];
      if id in t.blockedBy && t.id != id && t.id !in known && t.id !in front then front + [t.id] else front
  }

  /** Tasks that list `id` in `blocks` but are missing from `known`, in order. */
  function MissingPrerequisites(tasks: seq<Task>, id: Id, known: seq<Id>): (r: seq<Id>)
    ensures forall x :: x in r <==> x !in known && x != id && exists t :: t in tasks && t.id == x && id in t.blocks
    ensures Distinct(r)
  {
    if tasks == [] then []
    else
      var t := tasks[|tasks| - 1];
      var front := MissingPrerequisites(tasks[..|tasks| - 1], id, known);
      assert tasks == tasks[..|tasks| - 1] + [t];
      if id in t.blocks && t.id != id && t.id !in known && t.id !in front then front + [t.id] else front
  }

  function SyncTask(tasks: seq<Task>, t: Task): Task {
    t.(blocks := t.blocks + MissingDependants(tasks, t.id, t.blocks),
       blockedBy := t.blockedBy + MissingPrerequisites(tasks, t.id, t.blockedBy))
  }

  /** `syncTaskLinksV2`: every link is completed by its inverse. */
  function SyncLinks(tasks: seq<Task>): (r: seq<Task>)
    ensures |r| == |tasks|
    ensures forall i | 0 <= i < |tasks| :: r[i] == SyncTask(tasks, tasks[i])
  {
    seq(|tasks|, i requires 0 <= i < |tasks| => SyncTask(tasks, tasks[i]))
  }

  /** The `blocks` relation as the cycle check reads it. */
  function LinksOf(tasks: seq<Task>): Dag.Links {
    map id | id in Ids(tasks) :: FindKnown(tasks, id).blocks
  }

  function FindKnown(tasks: seq<Task>, id: Id): (t: Task)
    requires id in Ids(tasks)
    ensures t in tasks && t.id == id && Find(tasks, id) == Some(t)
  {
    Find(tasks, id).value
  }

  function IdList(tasks: seq<Task>): (r: seq<Id>)
    ensures |r| == |tasks| && forall i | 0 <= i < |tasks| :: r[i] == tasks[i].id
  {
    seq(|tasks|, i requires 0 <= i < |tasks| => tasks[i].id)
  }

  /** Unique identifiers; `blocks` and `blockedBy` are exact inverses without repetitions, between known tasks. */
  ghost predicate MirroredLinks(tasks: seq<Task>) {
    && UniqueIds(tasks)
    && (forall t | t in tasks :: Distinct(t.blocks) && Distinct(t.blockedBy))
    && (forall t, x | t in tasks && x in t.blocks :: x in Ids(tasks))
    && (forall t, x | t in tasks && x in t.blockedBy :: x in Ids(tasks))
    && (forall s, t | s in tasks && t in tasks :: t.id in s.blocks <==> s.id in t.blockedBy)
  }

  ghost predicate LinkedGraph(tasks: seq<Task>) {
    MirroredLinks(tasks) && Dag.Acyclic(LinksOf(tasks))
  }

  // ---------------------------------------------------------------- creating and adding a task

  datatype TaskInput = TaskInput(
    id: Id, priority: int, kind: TaskKind, blockedBy: seq<Id>, blocks: seq<Id>,
    idempotencyKey: Id, inputDigest: Id, actionBinding: ActionBinding, policy: TerminalPolicy,
    maxAttempts: nat, leaseDuration: nat)

  /** `createAgentTaskV2`. */
  function CreateTask(input: TaskInput, now: Time): (t: Task)
    ensures t.id == input.id && t.id !in t.blocks && t.id !in t.blockedBy
    ensures Distinct(t.blocks) && Distinct(t.blockedBy)
    ensures t.status == if t.blockedBy == [] then Pending else Blocked
  {
    var blockedBy := UniqueList(input.blockedBy, Some(input.id));
    var blocks := UniqueList(input.blocks, Some(input.id));
    Task(input.id, input.priority, input.kind, blockedBy, blocks, input.idempotencyKey, input.inputDigest,
         input.actionBinding, input.policy,
         if blockedBy == [] then Pending else Blocked,
         0, input.maxAttempts, input.leaseDuration, now, None, None,
         if blockedBy == [] then None else Some(DependencyWait(blockedBy)),
         None, None, [], [], None)
  }

  predicate References(t: Task, known: set<Id>) {
    (forall x | x in t.blockedBy :: x in known) && (forall x | x in t.blocks :: x in known)
  }

  /** `addAgentTaskV2`, on the tasks of a graph. */
  function AddTask(tasks: seq<Task>, t: Task): Result<seq<Task>, ErrorCode> {
    if t.id in Ids(tasks) then Err(IdempotencyConflict)
    else if exists s | s in tasks :: s.idempotencyKey == t.idempotencyKey then Err(IdempotencyConflict)
    else if !References(t, Ids(tasks)) then Err(DependencyUnresolved)
    else
      var linked := SyncLinks(tasks + [t]);
      if Dag.VisitAll(LinksOf(linked), IdList(linked), {}, {}).None? then Err(DagCycle) else Ok(linked)
  }

  datatype SpawnResolution = ToCreate | ExistingSameDigest(task: Task) | Conflict(task: Task)

  function FindKey(tasks: seq<Task>, key: Id): (r: Option<Task>)
    ensures r.Some? ==> r.value in tasks && r.value.idempotencyKey == key
    ensures r.None? ==> forall t | t in tasks :: t.idempotencyKey != key
  {
    if tasks == [] then None
    else if tasks[0].idempotencyKey == key then Some(tasks[0])
    else FindKey(tasks[1..], key)
  }

  /** `resolveAgentTaskSpawnV2`. */
  function ResolveSpawn(tasks: seq<Task>, key: Id, digest: Id): SpawnResolution {
    match FindKey(tasks, key)
    case None => ToCreate
    case Some(t) => if t.inputDigest == digest then ExistingSameDigest(t) else Conflict(t)
  }

  // ---------------------------------------------------------------- runnable tasks

  predicate CompletedIn(tasks: seq<Task>, id: Id) {
    var r := Find(tasks, id);
    r.Some? && r.value.status == Completed
  }

  function Unresolved(tasks: seq<Task>, ids: seq<Id>): (r: seq<Id>)
    ensures forall x :: x in r <==> x in ids && !CompletedIn(tasks, x)
  {
    if ids == [] then []
    else if CompletedIn(tasks, ids[0]) then Unresolved(tasks, ids[1..])
    else [ids[0]] + Unresolved(tasks, ids[1..])
  }

  predicate IsRunnable(tasks: seq<Task>, t: Task, now: Time) {
    && t.status == Pending
    && (t.nextAttemptAt.Some? ==> t.nextAttemptAt.value <= now)
    && Unresolved(tasks, t.blockedBy) == []
  }

  /** The comparator of `getRunnableAgentTasksV2`: priority first, then age, then identifier. */
  predicate TakenBefore(a: Task, b: Task) {
    || a.priority > b.priority
    || (a.priority == b.priority && a.createdAt < b.createdAt)
    || (a.priority == b.priority && a.createdAt == b.createdAt && a.id < b.id)
  }

  function FilterRunnable(all: seq<Task>, tasks: seq<Task>, now: Time): (r: seq<Task>)
    ensures forall t :: t in r <==> t in tasks && IsRunnable(all, t, now)
  {
    if tasks == [] then []
    else if IsRunnable(all, tasks[0], now) then [tasks[0]] + FilterRunnable(all, tasks[1..], now)
    else FilterRunnable(all, tasks[1..], now)
  }

  /** `getRunnableAgentTasksV2`. */
  function Runnable(tasks: seq<Task>, now: Time): seq<Task> {
    SortBy(TakenBefore, FilterRunnable(tasks, tasks, now))
  }

  lemma {:induction false} FilterKeepsIdsUnique(all: seq<Task>, tasks: seq<Task>, now: Time)
    requires UniqueIds(tasks)
    ensures UniqueIds(FilterRunnable(all, tasks, now))
  {
    if tasks != [] {
      FilterKeepsIdsUnique(all, tasks[1..], now);
      forall t | t in tasks[1..]
        ensures t.id != tasks[0].id
      {
        var i :| 0 <= i < |tasks[1..]| && tasks[1..][i] == t;
        assert t == tasks[i + 1];
      }
      assert forall t | t in FilterRunnable(all, tasks[1..], now) :: t in tasks[1..];
    }
  }

  /** The task may start: pending, due, and every task it waits for completed. */
  ghost predicate MayStart(tasks: seq<Task>, t: Task, now: Time) {
    && t.status == Pending && (t.nextAttemptAt.None? || t.nextAttemptAt.value <= now)
    && forall b | b in t.blockedBy :: exists i :: 0 <= i < |tasks| && tasks[i].id == b && tasks[i].status == Completed
  }

  lemma RunnableMayStart(tasks: seq<Task>, t: Task, now: Time)
    requires UniqueIds(tasks)
    ensures IsRunnable(tasks, t, now) <==> MayStart(tasks, t, now)
  {
    forall b
      ensures CompletedIn(tasks, b)
         <==> exists i :: 0 <= i < |tasks| && tasks[i].id == b && tasks[i].status == Completed
    {
      if i :| 0 <= i < |tasks| && tasks[i].id == b && tasks[i].status == Completed { FindIsUnique(tasks, i); }
    }
    if Unresolved(tasks, t.blockedBy) != [] {
      assert Unresolved(tasks, t.blockedBy)[0] in Unresolved(tasks, t.blockedBy);
    }
  }

  lemma RunnableAscends(tasks: seq<Task>, now: Time)
    requires UniqueIds(tasks)
    ensures forall t :: t in Runnable(tasks, now) <==> t in tasks && IsRunnable(tasks, t, now)
    ensures Ascending(TakenBefore, Runnable(tasks, now)) && UniqueIds(Runnable(tasks, now))
  {
    var fs := FilterRunnable(tasks, tasks, now);
    FilterKeepsIdsUnique(tasks, tasks, now);
    SortRearranges(TakenBefore, fs);
    assert StrictTotalOn(TakenBefore, Elements(fs)) by {
      forall a, b | a in Elements(fs) && b in Elements(fs) && a != b
        ensures a.id != b.id
      {
        var i :| 0 <= i < |fs| && fs[i] == a;
        var j :| 0 <= j < |fs| && fs[j] == b;
      }
    }
    SortAscending(TakenBefore, fs);
    var r := Runnable(tasks, now);
    forall i, j | 0 <= i < j < |r|
      ensures r[i].id != r[j].id
    {
      assert TakenBefore(r[i], r[j]);
      assert r[i] in fs && r[j] in fs;
      var a :| 0 <= a < |fs| && fs[a] == r[i];
      var b :| 0 <= b < |fs| && fs[b] == r[j];
    }
  }

  /**
   The runnable tasks are exactly those that may start, each once: the priority never rises along the
   list, of equally urgent tasks the older comes first, and of those the smaller identifier.
   */
  lemma RunnableIsSortedSelection(tasks: seq<Task>, now: Time)
    requires UniqueIds(tasks)
    ensures forall t :: t in Runnable(tasks, now) <==> t in tasks && IsRunnable(tasks, t, now)
    ensures forall t :: t in Runnable(tasks, now) <==> t in tasks && MayStart(tasks, t, now)
    ensures
      var r := Runnable(tasks, now);
      forall i, j | 0 <= i < j < |r| ::
        && r[j].priority <= r[i].priority
        && (r[j].priority == r[i].priority ==>
              r[i].createdAt <= r[j].createdAt && (r[i].createdAt == r[j].createdAt ==> r[i].id < r[j].id))
    ensures UniqueIds(Runnable(tasks, now))
  {
    RunnableAscends(tasks, now);
    forall t
      ensures IsRunnable(tasks, t, now) <==> MayStart(tasks, t, now)
    {
      RunnableMayStart(tasks, t, now);
    }
    var r := Runnable(tasks, now);
    assert forall i, j | 0 <= i < j < |r| :: TakenBefore(r[i], r[j]);
  }

  // ---------------------------------------------------------------- dependency blocks

  function RefreshTask(tasks: seq<Task>, t: Task): Task {
    if t.status != Blocked || t.blockReason.None? || t.blockReason.value.Manual? then t
    else
      var unresolved := Unresolved(tasks, t.blockedBy);
      if unresolved != [] then t.(blockReason := Some(DependencyWait(unresolved)))
      else t.(status := Pending, blockReason := None)
  }

  /** `refreshDependencyBlocks`. */
  function Refresh(tasks: seq<Task>): (r: seq<Task>)
    ensures |r| == |tasks|
    ensures forall i | 0 <= i < |tasks| :: r[i] == RefreshTask(tasks, tasks[i])
  {
    seq(|tasks|, i requires 0 <= i < |tasks| => RefreshTask(tasks, tasks[i]))
  }
}
