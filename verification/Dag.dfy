/**
 The cycle check of the task graph (packages/web-buddy/src/agents/task-graph.ts:898-914):
 walks over the `blocks` relation, the depth-first search in functional and in imperative
 form, and what adding one node does to acyclicity.
 */
module Dag {
  import opened Wrappers

  type Node = nat
  type Links = map<Node, seq<Node>>

  predicate Edge(succ: Links, a: Node, b: Node) {
    a in succ && b in succ[a]
  }

  /** `p` is a walk along edges, of at least one node. */
  ghost predicate Walk(succ: Links, p: seq<Node>) {
    && p != []
    && forall i | 0 <= i < |p| - 1 :: Edge(succ, p[i], p[i + 1])
  }

  ghost predicate WalkFromTo(succ: Links, p: seq<Node>, a: Node, b: Node) {
    Walk(succ, p) && p[0] == a && p[|p| - 1] == b
  }

  /** `a` equals `b` or some walk leads from `a` to `b`. */
  ghost predicate Reaches(succ: Links, a: Node, b: Node) {
    exists p :: WalkFromTo(succ, p, a, b)
  }

  /** A walk with at least one edge leads from `a` to `b`. */
  ghost predicate Precedes(succ: Links, a: Node, b: Node) {
    exists p :: WalkFromTo(succ, p, a, b) && |p| > 1
  }

  ghost predicate Acyclic(succ: Links) {
    forall x :: !Precedes(succ, x, x)
  }

  lemma JoinWalks(succ: Links, p: seq<Node>, q: seq<Node>)
    requires Walk(succ, p) && Walk(succ, q)
    requires p[|p| - 1] == q[0]
    ensures Walk(succ, p + q[1..])
    ensures (p + q[1..])[0] == p[0] && (p + q[1..])[|p| + |q| - 2] == q[|q| - 1]
  {
    var r := p + q[1..];
    forall i | 0 <= i < |r| - 1
      ensures Edge(succ, r[i], r[i + 1])
    {
      if i >= |p| - 1 {
        assert r[i] == q[i - (|p| - 1)] && r[i + 1] == q[i - (|p| - 1) + 1];
      }
    }
  }

  lemma PrecedesByEdge(succ: Links, a: Node, b: Node)
    requires Edge(succ, a, b)
    ensures Precedes(succ, a, b)
  {
    assert WalkFromTo(succ, [a, b], a, b);
  }

  lemma PrecedesThenEdge(succ: Links, a: Node, b: Node, c: Node)
    requires Precedes(succ, a, b) && Edge(succ, b, c)
    ensures Precedes(succ, a, c)
  {
    var p :| WalkFromTo(succ, p, a, b) && |p| > 1;
    assert WalkFromTo(succ, p + [c], a, c);
  }

  // ---------------------------------------------------------------- depth-first search

  /**
   The search over `pending`, given the nodes on the current path and the finished ones:
   the finished nodes afterwards, or None where the source throws DAG_CYCLE.
   */
  function VisitAll(succ: Links, pending: seq<Node>, visiting: set<Node>, visited: set<Node>): Option<set<Node>>
    decreases succ.Keys - visiting, |pending|
  {
    if pending == [] then Some(visited)
    else
      var x := pending[0];
      if x in visited then VisitAll(succ, pending[1..], visiting, visited)
      else if x in visiting then None
      else if x !in succ then VisitAll(succ, pending[1..], visiting, visited)
      else
        assert x in succ.Keys - visiting;
        match VisitAll(succ, succ[x], visiting + {x}, visited)
        case None => None
        case Some(done) => VisitAll(succ, pending[1..], visiting, done + {x})
  }

  ghost predicate Closed(succ: Links, inside: set<Node>) {
    forall a, b | a in inside && b in succ && Edge(succ, a, b) :: b in inside
  }

  ghost predicate Settled(succ: Links, done: set<Node>) {
    && done <= succ.Keys
    && Closed(succ, done)
    && forall x | x in done :: !Precedes(succ, x, x)
  }

  lemma DropFirst(succ: Links, p: seq<Node>)
    requires Walk(succ, p) && |p| > 1
    ensures Walk(succ, p[1..])
  {
    forall i | 0 <= i < |p[1..]| - 1
      ensures Edge(succ, p[1..][i], p[1..][i + 1])
    {
      assert Edge(succ, p[i + 1], p[i + 1 + 1]);
    }
  }

  lemma {:induction false} WalkStaysInside(succ: Links, inside: set<Node>, p: seq<Node>)
    requires Closed(succ, inside) && Walk(succ, p) && p[0] in inside
    ensures p[|p| - 1] in inside || p[|p| - 1] !in succ
  {
    if |p| > 1 {
      assert Edge(succ, p[0], p[0 + 1]);
      assert |p| > 2 ==> Edge(succ, p[1], p[1 + 1]);
      if p[1] in succ {
        DropFirst(succ, p);
        WalkStaysInside(succ, inside, p[1..]);
      }
    }
  }

  lemma SettleOne(succ: Links, done: set<Node>, x: Node)
    requires Settled(succ, done) && x in succ && x !in done
    requires forall y | y in succ[x] && y in succ :: y in done
    ensures Settled(succ, done + {x})
  {
    if Precedes(succ, x, x) {
      var p :| WalkFromTo(succ, p, x, x) && |p| > 1;
      assert Edge(succ, p[0], p[0 + 1]);
      assert |p| > 2 ==> Edge(succ, p[1], p[1 + 1]);
      DropFirst(succ, p);
      WalkStaysInside(succ, done, p[1..]);
    }
  }

  lemma {:induction false} VisitAllSettles(succ: Links, pending: seq<Node>, visiting: set<Node>, visited: set<Node>)
    requires Settled(succ, visited) && visiting !! visited
    ensures
      var r := VisitAll(succ, pending, visiting, visited);
      r.Some? ==>
        && Settled(succ, r.value) && visited <= r.value && visiting !! r.value
        && forall x | x in pending && x in succ :: x in r.value
    decreases succ.Keys - visiting, |pending|
  {
    if pending != [] {
      var x := pending[0];
      if x in visited || (x !in visiting && x !in succ) {
        VisitAllSettles(succ, pending[1..], visiting, visited);
      } else if x !in visiting {
        assert x in succ.Keys - visiting;
        VisitAllSettles(succ, succ[x], visiting + {x}, visited);
        var inner := VisitAll(succ, succ[x], visiting + {x}, visited);
        if inner.Some? {
          SettleOne(succ, inner.value, x);
          VisitAllSettles(succ, pending[1..], visiting, inner.value + {x});
        }
      }
    }
  }

  lemma {:induction false} VisitAllFailsOnCycle(succ: Links, pending: seq<Node>, visiting: set<Node>,
                                                visited: set<Node>)
    requires forall v, x | v in visiting && x in pending :: Precedes(succ, v, x)
    requires VisitAll(succ, pending, visiting, visited) == None
    ensures !Acyclic(succ)
    decreases succ.Keys - visiting, |pending|
  {
    assert pending != [];
    var x := pending[0];
    if x !in visited && x !in visiting && x in succ {
      assert x in succ.Keys - visiting;
      if VisitAll(succ, succ[x], visiting + {x}, visited) == None {
        forall v, y | v in visiting + {x} && y in succ[x]
          ensures Precedes(succ, v, y)
        {
          if v == x {
            PrecedesByEdge(succ, x, y);
          } else {
            PrecedesThenEdge(succ, v, x, y);
          }
        }
        VisitAllFailsOnCycle(succ, succ[x], visiting + {x}, visited);
      } else {
        var done := VisitAll(succ, succ[x], visiting + {x}, visited).value;
        VisitAllFailsOnCycle(succ, pending[1..], visiting, done + {x});
      }
    } else if x in visited || x !in visiting {
      VisitAllFailsOnCycle(succ, pending[1..], visiting, visited);
    } else {
      assert Precedes(succ, x, x);
    }
  }

  lemma PredecessorKnown(succ: Links, a: Node, b: Node)
    ensures Precedes(succ, a, b) ==> a in succ
  {
    if p :| WalkFromTo(succ, p, a, b) && |p| > 1 {
      assert Edge(succ, p[0], p[0 + 1]);
    }
  }

  /** The search started at every node returns normally exactly on acyclic graphs. */
  lemma SearchDecidesAcyclicity(succ: Links, roots: seq<Node>)
    requires forall x :: x in succ <==> x in roots
    ensures VisitAll(succ, roots, {}, {}).Some? <==> Acyclic(succ)
  {
    var r := VisitAll(succ, roots, {}, {});
    if r.Some? {
      VisitAllSettles(succ, roots, {}, {});
      forall x
        ensures !Precedes(succ, x, x)
      {
        PredecessorKnown(succ, x, x);
      }
    } else {
      VisitAllFailsOnCycle(succ, roots, {}, {});
    }
  }

  /** The closure `visit` with its two mutable sets. */
  class CycleSearch {
    const succ: Links
    var visiting: set<Node>
    var visited: set<Node>

    constructor (succ: Links)
      ensures this.succ == succ && visiting == {} && visited == {}
    {
      this.succ := succ;
      visiting, visited := {}, {};
    }

    method Visit(id: Node) returns (ok: bool)
      modifies this
      ensures ok == VisitAll(succ, [id], old(visiting), old(visited)).Some?
      ensures ok ==> visiting == old(visiting) && Some(visited) == VisitAll(succ, [id], old(visiting), old(visited))
      decreases succ.Keys - visiting
    {
      if id in visited { return true; }
      if id in visiting { return false; }
      if id !in succ { return true; }
      assert id in succ.Keys - visiting;
      visiting := visiting + {id};
      var downstream := succ[id];
      for i := 0 to |downstream|
        invariant visiting == old(visiting) + {id}
        invariant VisitAll(succ, downstream[i..], visiting, visited)
               == VisitAll(succ, downstream, old(visiting) + {id}, old(visited))
      {
        ghost var before := visited;
        ghost var rest := downstream[i..];
        assert rest[1..] == downstream[i + 1..];
        VisitHeadThenTail(succ, rest, visiting, before);
        ok := Visit(downstream[i]);
        if !ok { return; }
      }
      visiting := visiting - {id};
      visited := visited + {id};
      return true;
    }
  }

  lemma VisitHeadThenTail(succ: Links, pending: seq<Node>, visiting: set<Node>, visited: set<Node>)
    requires pending != []
    ensures
      var head := VisitAll(succ, [pending[0]], visiting, visited);
      VisitAll(succ, pending, visiting, visited)
      == if head == None then None else VisitAll(succ, pending[1..], visiting, head.value)
  {
    assert [pending[0]][1..] == [];
  }

  /** `assertAcyclicTaskGraphV2`: true where the source returns, false where it throws DAG_CYCLE. */
  method CheckAcyclic(succ: Links, roots: seq<Node>) returns (ok: bool)
    requires forall x :: x in succ <==> x in roots
    ensures ok <==> Acyclic(succ)
  {
    SearchDecidesAcyclicity(succ, roots);
    var search := new CycleSearch(succ);
    for i := 0 to |roots|
      invariant search.succ == succ && search.visiting == {}
      invariant VisitAll(succ, roots[i..], {}, search.visited) == VisitAll(succ, roots, {}, {})
    {
      assert roots[i..][1..] == roots[i + 1..];
      VisitHeadThenTail(succ, roots[i..], {}, search.visited);
      var good := search.Visit(roots[i]);
      if !good { return false; }
    }
    return true;
  }

  // ---------------------------------------------------------------- adding one node

  ghost predicate AddsNode(succ: Links, succ': Links, n: Node, outs: set<Node>, ins: set<Node>) {
    && (forall a :: !Edge(succ, a, n) && !Edge(succ, n, a))
    && n !in outs && n !in ins
    && forall a, b :: Edge(succ', a, b) <==> Edge(succ, a, b) || (a == n && b in outs) || (b == n && a in ins)
  }

  lemma WalkAvoidingNewNode(succ: Links, succ': Links, n: Node, outs: set<Node>, ins: set<Node>, p: seq<Node>)
    requires AddsNode(succ, succ', n, outs, ins)
    requires Walk(succ', p) && n !in p
    ensures Walk(succ, p)
    ensures |p| > 1 ==> Precedes(succ, p[0], p[|p| - 1])
  {
    forall i | 0 <= i < |p| - 1
      ensures Edge(succ, p[i], p[i + 1])
    {
      assert Edge(succ', p[i], p[i + 1]);
    }
    assert WalkFromTo(succ, p, p[0], p[|p| - 1]);
  }

  lemma RotateCycle(succ: Links, p: seq<Node>, i: nat) returns (q: seq<Node>)
    requires Walk(succ, p) && |p| > 1 && p[0] == p[|p| - 1] && i < |p|
    ensures WalkFromTo(succ, q, p[i], p[i]) && |q| > 1
  {
    q := p[i..] + p[..i + 1][1..];
    if i == 0 {
      assert q == p;
    } else {
      forall k | 0 <= k < |p[i..]| - 1
        ensures Edge(succ, p[i..][k], p[i..][k + 1])
      {
        assert Edge(succ, p[i + k], p[i + k + 1]);
      }
      JoinWalks(succ, p[i..], p[..i + 1]);
    }
  }

  /** The part of a cycle through `n` between one visit to `n` and the next. */
  lemma FirstReturn(succ: Links, q: seq<Node>, n: Node) returns (k: nat)
    requires WalkFromTo(succ, q, n, n) && |q| > 1
    ensures 0 < k < |q| && q[k] == n && n !in q[1..k]
  {
    k := 1;
    while q[k] != n
      invariant 0 < k < |q| && n !in q[1..k]
      decreases |q| - k
    {
      assert q[1..k + 1] == q[1..k] + [q[k]];
      k := k + 1;
    }
  }

  lemma NewCycleGivesPath(succ: Links, succ': Links, n: Node, outs: set<Node>, ins: set<Node>)
    requires AddsNode(succ, succ', n, outs, ins) && Acyclic(succ) && !Acyclic(succ')
    ensures exists b, d :: b in outs && d in ins && Reaches(succ, b, d)
  {
    var x :| Precedes(succ', x, x);
    var p :| WalkFromTo(succ', p, x, x) && |p| > 1;
    if n !in p {
      WalkAvoidingNewNode(succ, succ', n, outs, ins, p);
    } else {
      var i :| 0 <= i < |p| && p[i] == n;
      var q := RotateCycle(succ', p, i);
      var k := FirstReturn(succ', q, n);
      assert Edge(succ', q[0], q[0 + 1]) && Edge(succ', q[k - 1], q[k - 1 + 1]);
      var inner := q[1..k];
      forall j | 0 <= j < |inner| - 1
        ensures Edge(succ', inner[j], inner[j + 1])
      {
        assert Edge(succ', q[j + 1], q[j + 2]);
      }
      WalkAvoidingNewNode(succ, succ', n, outs, ins, inner);
      assert inner[0] == q[1] && inner[|inner| - 1] == q[k - 1];
      assert WalkFromTo(succ, inner, q[1], q[k - 1]);
      assert Reaches(succ, q[1], q[k - 1]);
    }
  }

  lemma PathGivesNewCycle(succ: Links, succ': Links, n: Node, outs: set<Node>, ins: set<Node>, b: Node, d: Node)
    requires AddsNode(succ, succ', n, outs, ins) && b in outs && d in ins && Reaches(succ, b, d)
    ensures !Acyclic(succ')
  {
    var p :| WalkFromTo(succ, p, b, d);
    var q := [n] + p + [n];
    forall i | 0 <= i < |q| - 1
      ensures Edge(succ', q[i], q[i + 1])
    {
      if 0 < i < |p| {
        assert Edge(succ, p[i - 1], p[i - 1 + 1]);
      }
    }
    assert WalkFromTo(succ', q, n, n);
    assert Precedes(succ', n, n);
  }

  /** Adding a node closes a cycle exactly when one of its successors already reaches one of its predecessors. */
  lemma AddingNodeClosesCycle(succ: Links, succ': Links, n: Node, outs: set<Node>, ins: set<Node>)
    requires AddsNode(succ, succ', n, outs, ins) && Acyclic(succ)
    ensures !Acyclic(succ') <==> exists b, d :: b in outs && d in ins && Reaches(succ, b, d)
  {
    if !Acyclic(succ') {
      NewCycleGivesPath(succ, succ', n, outs, ins);
    }
    if b, d :| b in outs && d in ins && Reaches(succ, b, d) {
      PathGivesNewCycle(succ, succ', n, outs, ins, b, d);
    }
  }

  // ---------------------------------------------------------------- a first element

  lemma {:induction false} Pigeonhole(p: seq<Node>, holes: set<Node>) returns (i: nat, j: nat)
    requires |p| > |holes| && forall k | 0 <= k < |p| :: p[k] in holes
    ensures i < j < |p| && p[i] == p[j]
  {
    var last := p[|p| - 1];
    var init := p[..|p| - 1];
    if last in init {
      i :| 0 <= i < |init| && init[i] == last;
      j := |p| - 1;
    } else {
      i, j := Pigeonhole(init, holes - {last});
    }
  }

  ghost predicate PrecededFrom(succ: Links, s: set<Node>, b: Node) {
    exists a :: a in s && Edge(succ, a, b)
  }

  lemma {:induction false} LongWalkInside(succ: Links, s: set<Node>, len: nat) returns (p: seq<Node>)
    requires s != {} && forall b | b in s :: PrecededFrom(succ, s, b)
    ensures Walk(succ, p) && |p| == len + 1 && forall k | 0 <= k < |p| :: p[k] in s
  {
    if len == 0 {
      var x :| x in s;
      p := [x];
    } else {
      var q := LongWalkInside(succ, s, len - 1);
      assert PrecededFrom(succ, s, q[0]);
      var a :| a in s && Edge(succ, a, q[0]);
      p := [a] + q;
      forall i | 0 <= i < |p| - 1
        ensures Edge(succ, p[i], p[i + 1])
      {
        if i > 0 { assert Edge(succ, q[i - 1], q[i - 1 + 1]); }
      }
    }
  }

  lemma RepeatGivesCycle(succ: Links, p: seq<Node>, i: nat, j: nat)
    requires Walk(succ, p) && i < j < |p| && p[i] == p[j]
    ensures !Acyclic(succ)
  {
    var c := p[i..j + 1];
    forall k | 0 <= k < |c| - 1
      ensures Edge(succ, c[k], c[k + 1])
    {
      assert Edge(succ, p[i + k], p[i + k + 1]);
    }
    assert WalkFromTo(succ, c, p[i], p[i]);
    assert Precedes(succ, p[i], p[i]);
  }

  /** In an acyclic graph every non-empty finite set of nodes has one that no other of them precedes directly. */
  lemma FirstElementExists(succ: Links, s: set<Node>)
    requires Acyclic(succ) && s != {}
    ensures exists b :: b in s && !PrecededFrom(succ, s, b)
  {
    if forall b | b in s :: PrecededFrom(succ, s, b) {
      var p := LongWalkInside(succ, s, |s|);
      var i, j := Pigeonhole(p, s);
      RepeatGivesCycle(succ, p, i, j);
    }
  }
}
