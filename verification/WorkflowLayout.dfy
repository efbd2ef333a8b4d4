/** The layout of a workflow graph on screen: one column for each topological depth. */
module WorkflowLayout {
  import opened Common
  import opened Graph

  /** The upstream keys of v. */
  function Upstreams(edges: seq<Edge>, v: Key): (r: seq<Key>)
    ensures forall u :: u in r <==> HasEdge(edges, u, v)
  {
    if edges == [] then []
    else
      var n := |edges| - 1;
      var rest := Upstreams(edges[..n], v);
      assert forall u :: HasEdge(edges, u, v) <==>
                         HasEdge(edges[..n], u, v) || (edges[n].up == u && edges[n].down == v);
      if edges[n].down == v then rest + [edges[n].up] else rest
  }

  ghost predicate EndsAt(edges: seq<Edge>, p: seq<Key>, k: Key) {
    IsWalk(edges, p) && p[|p| - 1] == k
  }

  ghost predicate FromRoot(edges: seq<Edge>, p: seq<Key>) {
    |p| > 0 && forall u :: !HasEdge(edges, u, p[0])
  }

  /** d is the number of edges of the longest walk that ends at k, and some such walk starts at a root. */
  ghost predicate IsDepth(edges: seq<Edge>, k: Key, d: nat) {
    && (exists p :: EndsAt(edges, p, k) && FromRoot(edges, p) && |p| == d + 1)
    && (forall p :: EndsAt(edges, p, k) ==> |p| <= d + 1)
  }

  lemma DepthUnique(edges: seq<Edge>, k: Key, d: nat, e: nat)
    requires IsDepth(edges, k, d) && IsDepth(edges, k, e)
    ensures d == e
  {
  }

  /** Every edge leads to a strictly greater depth. */
  lemma EdgeDeepens(edges: seq<Edge>, u: Key, v: Key, d: nat, e: nat)
    requires HasEdge(edges, u, v) && IsDepth(edges, u, d) && IsDepth(edges, v, e)
    ensures d < e
  {
    var p :| EndsAt(edges, p, u) && FromRoot(edges, p) && |p| == d + 1;
    WalkThenEdge(edges, p, v);
    assert EndsAt(edges, p + [v], v);
  }

  lemma WalkLastEdge(edges: seq<Edge>, p: seq<Key>)
    requires IsWalk(edges, p) && |p| >= 2
    ensures HasEdge(edges, p[|p| - 2], p[|p| - 1])
  {
    var n := |p| - 2;
    assert HasEdge(edges, p[n], p[n + 1]);
  }

  lemma RootDepth(edges: seq<Edge>, k: Key)
    requires forall u :: !HasEdge(edges, u, k)
    ensures IsDepth(edges, k, 0)
  {
    assert EndsAt(edges, [k], k) && FromRoot(edges, [k]) && |[k]| == 1;
    forall p | EndsAt(edges, p, k) ensures |p| <= 1 {
      if |p| >= 2 { WalkLastEdge(edges, p); }
    }
  }

  ghost predicate AllDepths(edges: seq<Edge>, depths: map<Key, nat>) {
    forall k :: k in depths ==> IsDepth(edges, k, depths[k])
  }

  /** One more than the greatest upstream depth is the depth of a node that has upstreams. */
  lemma StepDepth(edges: seq<Edge>, k: Key, depths: map<Key, nat>, deepest: Key)
    requires AllDepths(edges, depths)
    requires HasEdge(edges, deepest, k) && deepest in depths
    requires forall u :: HasEdge(edges, u, k) ==> u in depths && depths[u] <= depths[deepest]
    ensures IsDepth(edges, k, depths[deepest] + 1)
  {
    var d := depths[deepest];
    var p :| EndsAt(edges, p, deepest) && FromRoot(edges, p) && |p| == d + 1;
    WalkThenEdge(edges, p, k);
    assert EndsAt(edges, p + [k], k) && FromRoot(edges, p + [k]) && |p + [k]| == d + 2;
    forall q | EndsAt(edges, q, k) ensures |q| <= d + 2 {
      if |q| >= 2 {
        WalkLastEdge(edges, q);
        PrefixEndsAt(edges, q);
      }
    }
  }

  /** d is one more than the greatest depth among us, reached at deepest; zero when us is empty. */
  ghost predicate DeepestOf(us: seq<Key>, depths: map<Key, nat>, d: nat, deepest: Key) {
    && (forall u :: u in us ==> u in depths && depths[u] + 1 <= d)
    && (if us == [] then d == 0 else deepest in us && d == depths[deepest] + 1)
  }

  lemma DeepestNext(us: seq<Key>, u: Key, before: map<Key, nat>, depths: map<Key, nat>,
                    d: nat, deepest: Key, above: nat)
    requires DeepestOf(us, before, d, deepest) && u in depths && above == depths[u]
    requires forall k :: k in before ==> k in depths && depths[k] == before[k]
    ensures if above + 1 > d then DeepestOf(us + [u], depths, above + 1, u)
            else DeepestOf(us + [u], depths, d, deepest)
  {
  }

  lemma MeasuredDepth(edges: seq<Edge>, k: Key, depths: map<Key, nat>, d: nat, deepest: Key)
    requires AllDepths(edges, depths) && DeepestOf(Upstreams(edges, k), depths, d, deepest)
    ensures IsDepth(edges, k, d)
  {
    if Upstreams(edges, k) == [] {
      forall u ensures !HasEdge(edges, u, k) { assert u !in Upstreams(edges, k); }
      RootDepth(edges, k);
    } else {
      StepDepth(edges, k, depths, deepest);
    }
  }

  lemma PrefixEndsAt(edges: seq<Edge>, q: seq<Key>)
    requires IsWalk(edges, q) && |q| >= 2
    ensures EndsAt(edges, q[..|q| - 1], q[|q| - 2])
  {
    var p := q[..|q| - 1];
    forall i | 0 <= i < |p| - 1 ensures HasEdge(edges, p[i], p[i + 1]) {
      assert HasEdge(edges, q[i], q[i + 1]);
    }
  }

  /** The nodes of one column, in node order. */
  function NodesAt(nodes: seq<Key>, depths: map<Key, nat>, c: nat): (r: seq<Key>)
    ensures forall k :: k in r <==> k in nodes && k in depths && depths[k] == c
  {
    if nodes == [] then []
    else
      var n := |nodes| - 1;
      assert nodes == nodes[..n] + [nodes[n]];
      NodesAt(nodes[..n], depths, c) + if nodes[n] in depths && depths[nodes[n]] == c then [nodes[n]] else []
  }

  /** A column keeps the order and multiplicity of the nodes. */
  lemma {:induction false} NodesAtExact(nodes: seq<Key>, depths: map<Key, nat>, c: nat) returns (at: seq<nat>)
    ensures Picks(nodes, NodesAt(nodes, depths, c), at)
    ensures forall i: nat :: i in at <==> i < |nodes| && nodes[i] in depths && depths[nodes[i]] == c
  {
    if nodes == [] {
      at := [];
    } else {
      var n := |nodes| - 1;
      at := NodesAtExact(nodes[..n], depths, c);
      assert nodes == nodes[..n] + [nodes[n]];
      PicksMore(nodes[..n], nodes[n], NodesAt(nodes[..n], depths, c), at);
      AppendedMember(at, n);
      if nodes[n] in depths && depths[nodes[n]] == c { at := at + [n]; }
    }
  }

  /** What any number of calls do to the shared visited set and memo. */
  ghost predicate Grown(v0: set<Key>, d0: map<Key, nat>, v1: set<Key>, d1: map<Key, nat>) {
    && v0 <= v1
    && (forall k :: k in d0 ==> k in d1 && d1[k] == d0[k])
    && (forall k :: k in v0 && k in d1 ==> k in d0)
    && (forall k :: k in v1 && k !in v0 ==> k in d1)
  }

  lemma GrownTrans(v0: set<Key>, d0: map<Key, nat>, v1: set<Key>, d1: map<Key, nat>, v2: set<Key>, d2: map<Key, nat>)
    requires Grown(v0, d0, v1, d1) && Grown(v1, d1, v2, d2)
    ensures Grown(v0, d0, v2, d2)
  {
  }

  /** Keys visited but not yet measured are still being measured, and all lie below this key. */
  ghost predicate OpenBelow(edges: seq<Edge>, key: Key, visited: set<Key>, depths: map<Key, nat>) {
    forall s :: s in visited && s !in depths ==> Reaches(edges, key, s)
  }

  /** The situation in which getDepth is exact: no cycle, a true memo, and no open key above. */
  ghost predicate Exact(edges: seq<Edge>, key: Key, visited: set<Key>, depths: map<Key, nat>) {
    !Cyclic(edges) && AllDepths(edges, depths) && OpenBelow(edges, key, visited, depths)
  }

  lemma OpenAbove(edges: seq<Edge>, key: Key, u: Key, v0: set<Key>, d0: map<Key, nat>, v1: set<Key>, d1: map<Key, nat>)
    requires HasEdge(edges, u, key)
    requires OpenBelow(edges, key, v0, d0) && Grown(v0 + {key}, d0, v1, d1)
    ensures OpenBelow(edges, u, v1, d1)
  {
    EdgeReaches(edges, u, key);
    forall s | s in v1 && s !in d1 ensures Reaches(edges, u, s) {
      if s != key { EdgeThenReaches(edges, u, key, s); }
    }
  }

  class DagLayout {
    const edges: seq<Edge>
    const nodes: seq<Key>
    var depths: map<Key, nat>      // the memo, shared by all calls
    var visited: set<Key>          // a fresh set for each outermost call

    constructor (nodes: seq<Key>, edges: seq<Edge>)
      ensures this.nodes == nodes && this.edges == edges && depths == map[] && visited == {}
    {
      this.nodes, this.edges := nodes, edges;
      depths, visited := map[], {};
    }

    ghost function Keys(): set<Key> {
      (set k | k in nodes) + (set i | 0 <= i < |edges| :: edges[i].up)
    }

    lemma UpstreamKnown(key: Key, u: Key)
      requires u in Upstreams(edges, key)
      ensures HasEdge(edges, u, key) && u in Keys()
    {
      assert HasEdge(edges, u, key);
    }

    /** getDepth: ends on every graph; on an acyclic one it returns the longest-walk depth, whatever
        the memo and the visited set hold from earlier calls. */
    method GetDepth(key: Key) returns (d: nat)
      requires key in Keys()
      modifies this
      decreases Keys() - visited, 0
      ensures Grown(old(visited), old(depths), visited, depths)
      ensures key in depths || key in old(visited)
      ensures Exact(edges, key, old(visited), old(depths)) ==>
                AllDepths(edges, depths) && key in depths && d == depths[key]
    {
      if key in depths { return depths[key]; }
      if key in visited {
        assert OpenBelow(edges, key, visited, depths) ==> Reaches(edges, key, key);
        return 0;
      }
      visited := visited + {key};
      ghost var deepest;
      d, deepest := DeepestUpstream(key, old(visited));
      if Exact(edges, key, old(visited), old(depths)) {
        MeasuredDepth(edges, key, depths, d, deepest);
      }
      depths := depths[key := d];
    }

    /** The maximum over the upstreams of one more than their depth; zero when there are none. */
    method DeepestUpstream(key: Key, ghost entered: set<Key>) returns (d: nat, ghost deepest: Key)
      requires visited == entered + {key} && key !in depths
      modifies this
      decreases Keys() - visited, 1
      ensures Grown(old(visited), old(depths), visited, depths)
      ensures Exact(edges, key, entered, old(depths)) ==>
                AllDepths(edges, depths) && DeepestOf(Upstreams(edges, key), depths, d, deepest)
    {
      var upstreams := Upstreams(edges, key);
      ghost var exact := Exact(edges, key, entered, depths);
      d, deepest := 0, key;
      for i := 0 to |upstreams|
        invariant Grown(old(visited), old(depths), visited, depths)
        invariant exact ==> AllDepths(edges, depths) && DeepestOf(upstreams[..i], depths, d, deepest)
      {
        var u := upstreams[i];
        UpstreamKnown(key, u);
        if exact { OpenAbove(edges, key, u, entered, old(depths), visited, depths); }
        ghost var visitedBefore, depthsBefore := visited, depths;
        var above := GetDepth(u);
        GrownTrans(old(visited), old(depths), visitedBefore, depthsBefore, visited, depths);
        if exact { DeepestNext(upstreams[..i], u, depthsBefore, depths, d, deepest, above); }
        assert upstreams[..i + 1] == upstreams[..i] + [u];
        if above + 1 > d {
          d := above + 1;
          deepest := u;
        }
      }
      assert upstreams[..|upstreams|] == upstreams;
    }

    /** Measures every node in turn, then fills one column for each depth up to the greatest. */
    method Columns() returns (columns: seq<seq<Key>>)
      requires depths == map[]
      modifies this
      ensures forall k :: k in nodes ==> k in depths && depths[k] < |columns|
      ensures forall c :: 0 <= c < |columns| ==> columns[c] == NodesAt(nodes, depths, c)
      ensures !Cyclic(edges) ==> AllDepths(edges, depths)
    {
      for i := 0 to |nodes|
        invariant forall j :: 0 <= j < i ==> nodes[j] in depths
        invariant !Cyclic(edges) ==> AllDepths(edges, depths)
      {
        visited := {};
        ghost var before := depths;
        var d := GetDepth(nodes[i]);
        assert before.Keys <= depths.Keys;
      }
      var maxDepth := MaxDepth(depths);
      columns := seq(maxDepth + 1, _ => []);
      for i := 0 to |nodes|
        invariant |columns| == maxDepth + 1
        invariant forall c :: 0 <= c < |columns| ==> columns[c] == NodesAt(nodes[..i], depths, c)
      {
        var d := depths[nodes[i]];
        assert nodes[..i + 1][..i] == nodes[..i];
        columns := columns[d := columns[d] + [nodes[i]]];
      }
      assert nodes[..|nodes|] == nodes;
    }
  }

  /** The greatest depth measured, at least zero. */
  method MaxDepth(depths: map<Key, nat>) returns (m: nat)
    ensures forall k :: k in depths ==> depths[k] <= m
    ensures m == 0 || exists k :: k in depths && depths[k] == m
  {
    m := 0;
    var todo := depths.Keys;
    while todo != {}
      invariant todo <= depths.Keys
      invariant forall k :: k in depths.Keys - todo ==> depths[k] <= m
      invariant m == 0 || exists k :: k in depths && depths[k] == m
      decreases todo
    {
      var k :| k in todo;
      if depths[k] > m { m := depths[k]; }
      todo := todo - {k};
    }
  }

  /** In the layout of an acyclic graph every edge points to a strictly later column, and every node
      key stands in exactly one column. */
  lemma LayoutLeftToRight(nodes: seq<Key>, edges: seq<Edge>, depths: map<Key, nat>, columns: seq<seq<Key>>)
    requires forall k :: k in nodes ==> k in depths && depths[k] < |columns|
    requires forall c :: 0 <= c < |columns| ==> columns[c] == NodesAt(nodes, depths, c)
    requires AllDepths(edges, depths)
    ensures forall k :: k in nodes ==> exists c :: 0 <= c < |columns| && k in columns[c]
    ensures forall c, d, k :: 0 <= c < |columns| && 0 <= d < |columns| && k in columns[c] && k in columns[d] ==> c == d
    ensures forall u, v, c, d ::
              0 <= c < |columns| && 0 <= d < |columns| && u in columns[c] && v in columns[d] && HasEdge(edges, u, v) ==>
                c < d
  {
    forall k | k in nodes ensures exists c :: 0 <= c < |columns| && k in columns[c] {
      assert k in columns[depths[k]];
    }
    forall u, v, c, d | 0 <= c < |columns| && 0 <= d < |columns|
        && u in columns[c] && v in columns[d] && HasEdge(edges, u, v)
      ensures c < d
    {
      EdgeDeepens(edges, u, v, c, d);
    }
  }
}
