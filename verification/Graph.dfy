/** The dependency graph of a workflow: edges, walks, cycles and topological orders. */
module Graph {
  type Key = string

  /** When an edge lets its downstream node start. */
  datatype Condition = OnSuccess | OnFailure | Always

  datatype Edge = Edge(up: Key, down: Key, cond: Condition)

  predicate HasEdge(edges: seq<Edge>, u: Key, v: Key) {
    exists i :: 0 <= i < |edges| && edges[i].up == u && edges[i].down == v
  }

  /** A walk lists the keys it visits; a walk of one key uses no edge. */
  predicate IsWalk(edges: seq<Edge>, p: seq<Key>) {
    |p| >= 1 && forall i :: 0 <= i < |p| - 1 ==> HasEdge(edges, p[i], p[i + 1])
  }

  predicate IsWalkFromTo(edges: seq<Edge>, p: seq<Key>, u: Key, v: Key) {
    IsWalk(edges, p) && p[0] == u && p[|p| - 1] == v
  }

  /** v can be reached from u along at least one edge: u is an ancestor of v. */
  ghost predicate Reaches(edges: seq<Edge>, u: Key, v: Key) {
    exists p :: |p| >= 2 && IsWalkFromTo(edges, p, u, v)
  }

  ghost predicate Cyclic(edges: seq<Edge>) {
    exists u :: Reaches(edges, u, u)
  }

  /** Every edge leads from a later position of the order to an earlier one: a DFS finishing order. */
  ghost predicate IsFinishOrder(edges: seq<Edge>, order: seq<Key>) {
    forall i :: 0 <= i < |edges| ==> ListedAfter(order, edges[i].up, edges[i].down)
  }

  ghost predicate ListedAfter(order: seq<Key>, u: Key, v: Key) {
    exists a, b :: 0 <= b < a < |order| && order[a] == u && order[b] == v
  }

  ghost predicate Distinct(s: seq<Key>) {
    forall i, j :: 0 <= i < j < |s| ==> s[i] != s[j]
  }

  lemma EdgeReaches(edges: seq<Edge>, u: Key, v: Key)
    requires HasEdge(edges, u, v)
    ensures Reaches(edges, u, v)
  {
    assert IsWalkFromTo(edges, [u, v], u, v);
  }

  lemma WalkThenEdge(edges: seq<Edge>, p: seq<Key>, v: Key)
    requires IsWalk(edges, p) && HasEdge(edges, p[|p| - 1], v)
    ensures IsWalkFromTo(edges, p + [v], p[0], v)
  {
    var q := p + [v];
    forall i | 0 <= i < |q| - 1 ensures HasEdge(edges, q[i], q[i + 1]) {
      if i < |p| - 1 { assert HasEdge(edges, p[i], p[i + 1]); }
    }
  }

  lemma ReachesThenEdge(edges: seq<Edge>, u: Key, v: Key, w: Key)
    requires Reaches(edges, u, v) && HasEdge(edges, v, w)
    ensures Reaches(edges, u, w)
  {
    var p :| |p| >= 2 && IsWalkFromTo(edges, p, u, v);
    WalkThenEdge(edges, p, w);
  }

  lemma EdgeThenReaches(edges: seq<Edge>, u: Key, v: Key, w: Key)
    requires HasEdge(edges, u, v) && Reaches(edges, v, w)
    ensures Reaches(edges, u, w)
  {
    var p :| |p| >= 2 && IsWalkFromTo(edges, p, v, w);
    var q := [u] + p;
    forall i | 0 <= i < |q| - 1 ensures HasEdge(edges, q[i], q[i + 1]) {
      if i > 0 { assert HasEdge(edges, p[i - 1], p[i]); }
    }
    assert IsWalkFromTo(edges, q, u, w);
  }

  /** The last edge of a walk of at least one edge. */
  lemma LastStep(edges: seq<Edge>, u: Key, v: Key) returns (m: Key)
    requires Reaches(edges, u, v)
    ensures HasEdge(edges, m, v) && (m == u || Reaches(edges, u, m))
  {
    var p :| |p| >= 2 && IsWalkFromTo(edges, p, u, v);
    m := p[|p| - 2];
    assert HasEdge(edges, p[|p| - 2], p[|p| - 1]);
    var q := p[..|p| - 1];
    forall i | 0 <= i < |q| - 1 ensures HasEdge(edges, q[i], q[i + 1]) {
      assert HasEdge(edges, p[i], p[i + 1]);
    }
    assert IsWalkFromTo(edges, q, u, m);
  }

  /** A cycle through x gives a cycle through the node just before x. */
  lemma RotateCycle(edges: seq<Edge>, x: Key) returns (m: Key)
    requires Reaches(edges, x, x)
    ensures HasEdge(edges, m, x) && Reaches(edges, m, m)
  {
    m := LastStep(edges, x, x);
    if m != x {
      EdgeThenReaches(edges, m, x, m);
    }
  }

  /** In a finishing order with distinct keys, a walk only moves to earlier positions. */
  lemma {:induction false} WalkDescends(edges: seq<Edge>, order: seq<Key>, p: seq<Key>, a: nat)
    requires Distinct(order) && IsFinishOrder(edges, order)
    requires IsWalk(edges, p) && |p| >= 2 && a < |order| && order[a] == p[0]
    ensures exists b :: 0 <= b < a && order[b] == p[|p| - 1]
    decreases |p|
  {
    assert HasEdge(edges, p[0], p[1]);
    var i :| 0 <= i < |edges| && edges[i].up == p[0] && edges[i].down == p[1];
    assert ListedAfter(order, p[0], p[1]);
    var x, b :| 0 <= b < x < |order| && order[x] == p[0] && order[b] == p[1];
    assert x == a;
    if |p| > 2 {
      var q := p[1..];
      forall k | 0 <= k < |q| - 1 ensures HasEdge(edges, q[k], q[k + 1]) {
        assert HasEdge(edges, p[k + 1], p[k + 2]);
      }
      WalkDescends(edges, order, q, b);
    }
  }

  /** A graph that has a finishing order has no cycle. */
  lemma FinishOrderExcludesCycles(edges: seq<Edge>, order: seq<Key>)
    requires Distinct(order) && IsFinishOrder(edges, order)
    ensures !Cyclic(edges)
  {
    forall u | Reaches(edges, u, u) ensures false {
      var p :| |p| >= 2 && IsWalkFromTo(edges, p, u, u);
      assert HasEdge(edges, p[0], p[1]);
      var i :| 0 <= i < |edges| && edges[i].up == p[0] && edges[i].down == p[1];
      assert ListedAfter(order, p[0], p[1]);
      var a, b :| 0 <= b < a < |order| && order[a] == p[0] && order[b] == p[1];
      WalkDescends(edges, order, p, a);
    }
  }
}
