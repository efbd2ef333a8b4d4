/** The gate of workflow creation: a depth-first search that rejects cyclic dependency graphs. */
module CycleDetection {
  import opened Common
  import opened Graph

  /** The downstream keys of u, in edge order: what the graph map holds for u once it is built. */
  function Successors(edges: seq<Edge>, u: Key): (r: seq<Key>)
    ensures forall v :: v in r <==> HasEdge(edges, u, v)
  {
    if edges == [] then []
    else
      var n := |edges| - 1;
      var rest := Successors(edges[..n], u);
      assert forall v :: HasEdge(edges, u, v) <==>
                         HasEdge(edges[..n], u, v) || (edges[n].up == u && edges[n].down == v);
      if edges[n].up == u then rest + [edges[n].down] else rest
  }

  /** The list has one entry for each edge out of u, in edge order. */
  lemma {:induction false} SuccessorsExact(edges: seq<Edge>, u: Key) returns (at: seq<nat>)
    ensures |at| == |Successors(edges, u)|
    ensures forall i: nat :: i in at <==> i < |edges| && edges[i].up == u
    ensures forall a :: 0 <= a < |at| ==> at[a] < |edges| && Successors(edges, u)[a] == edges[at[a]].down
    ensures forall a, b :: 0 <= a < b < |at| ==> at[a] < at[b]
  {
    if edges == [] {
      at := [];
    } else {
      var n := |edges| - 1;
      at := SuccessorsExact(edges[..n], u);
      AppendedMember(at, n);
      forall a | 0 <= a < |at| ensures at[a] < n { assert at[a] in at; }
      if edges[n].up == u { at := at + [n]; }
    }
  }

  function Neighbours(graph: map<Key, seq<Key>>, u: Key): seq<Key> {
    if u in graph then graph[u] else []
  }

  function Sources(edges: seq<Edge>): set<Key> {
    set i | 0 <= i < |edges| :: edges[i].up
  }

  function AllKeys(edges: seq<Edge>): set<Key> {
    Sources(edges) + (set i | 0 <= i < |edges| :: edges[i].down)
  }

  lemma SourcesExtend(edges: seq<Edge>, k: nat)
    requires k < |edges|
    ensures Sources(edges[..k + 1]) == Sources(edges[..k]) + {edges[k].up}
  {
    var more := edges[..k + 1];
    assert more[k] == edges[k];
    forall u ensures u in Sources(more) <==> u in Sources(edges[..k]) + {edges[k].up} {
      if u in Sources(edges[..k]) {
        var i :| 0 <= i < k && edges[..k][i].up == u;
        assert more[i].up == u;
      }
      if u in Sources(more) {
        var i :| 0 <= i < k + 1 && more[i].up == u;
        if i < k { assert edges[..k][i].up == u; }
      }
    }
  }

  /** The mutable state that the recursive closure of detectCycles shares with its caller. */
  class CycleDetector {
    var graph: map<Key, seq<Key>>
    var keyOrder: seq<Key>         // insertion order of the graph map
    var visited: set<Key>
    var inStack: set<Key>
    ghost var finished: seq<Key>   // keys in the order their search ended
    ghost var universe: set<Key>

    constructor ()
      ensures graph == map[] && keyOrder == [] && visited == {} && inStack == {} && finished == []
    {
      graph, keyOrder, visited, inStack, finished, universe := map[], [], {}, {}, [], {};
    }

    /** Every declared key starts with no successor; a repeated key changes nothing. */
    method DeclareNodes(nodes: seq<Key>)
      requires graph == map[] && keyOrder == []
      modifies `graph, `keyOrder
      ensures graph == map u | u in nodes :: []
      ensures Distinct(keyOrder) && forall u :: u in nodes <==> u in keyOrder
    {
      for k := 0 to |nodes|
        invariant graph == map u | u in nodes[..k] :: []
        invariant forall u :: u in nodes[..k] <==> u in keyOrder
        invariant Distinct(keyOrder)
      {
        assert nodes[..k + 1] == nodes[..k] + [nodes[k]];
        if nodes[k] !in graph { keyOrder := keyOrder + [nodes[k]]; }
        graph := graph[nodes[k] := []];
      }
      assert nodes[..|nodes|] == nodes;
    }

    /** Appends each edge's downstream key to its upstream's list, adding undeclared upstreams. */
    method AddEdges(edges: seq<Edge>)
      requires Distinct(keyOrder) && forall u :: u in graph <==> u in keyOrder
      requires forall u :: u in graph ==> graph[u] == []
      modifies `graph, `keyOrder
      ensures graph.Keys == old(graph.Keys) + Sources(edges)
      ensures forall u :: Neighbours(graph, u) == Successors(edges, u)
      ensures Distinct(keyOrder) && forall u :: u in graph <==> u in keyOrder
    {
      for k := 0 to |edges|
        invariant graph.Keys == old(graph.Keys) + Sources(edges[..k])
        invariant forall u :: Neighbours(graph, u) == Successors(edges[..k], u)
        invariant Distinct(keyOrder) && forall u :: u in graph <==> u in keyOrder
      {
        var u := edges[k].up;
        if u !in graph {
          graph := graph[u := []];
          keyOrder := keyOrder + [u];
        }
        graph := graph[u := graph[u] + [edges[k].down]];
        SourcesExtend(edges, k);
        assert edges[..k + 1][..k] == edges[..k];
      }
      assert edges[..|edges|] == edges;
    }

    /** What holds between any two steps of the search. */
    ghost predicate Coherent(edges: seq<Edge>)
      reads this
    {
      && universe == graph.Keys + AllKeys(edges)
      && (forall u :: Neighbours(graph, u) == Successors(edges, u))
      && visited <= universe
      && Partition(edges, visited, inStack, finished)
    }

    /** dfs: true when an edge back into the current search path was met. */
    method Dfs(edges: seq<Edge>, node: Key, ghost path: seq<Key>) returns (cycle: bool)
      requires Coherent(edges) && node in universe && node !in visited
      requires forall k :: k in inStack <==> k in path
      requires path != [] ==> IsWalk(edges, path) && HasEdge(edges, path[|path| - 1], node)
      modifies `visited, `inStack, `finished
      decreases universe - visited
      ensures cycle ==> Cyclic(edges)
      ensures !cycle ==> Coherent(edges) && inStack == old(inStack)
      ensures !cycle ==> old(visited) + {node} <= visited && node in finished
      ensures !cycle ==> forall k :: k in old(finished) ==> k in finished
    {
      visited := visited + {node};
      inStack := inStack + {node};
      ghost var here := path + [node];
      if path != [] { WalkThenEdge(edges, path, node); }
      var neighbours := if node in graph then graph[node] else [];
      assert neighbours == Neighbours(graph, node) == Successors(edges, node);
      for i := 0 to |neighbours|
        invariant Coherent(edges)
        invariant inStack == old(inStack) + {node} && node !in finished
        invariant old(visited) + {node} <= visited
        invariant forall k :: k in old(finished) ==> k in finished
        invariant forall j :: 0 <= j < i ==> neighbours[j] in finished
      {
        var next := neighbours[i];
        assert HasEdge(edges, node, next);
        if next !in visited {
          EndpointsKnown(edges, node, next);
          var deeper := Dfs(edges, next, here);
          if deeper { return true; }
        } else if next in inStack {
          BackEdge(edges, here, next);
          return true;
        }
      }
      forall v | HasEdge(edges, node, v) ensures v in finished {
        assert v in neighbours;
      }
      LeaveNode(edges, visited, inStack, finished, node);
      inStack := inStack - {node};
      assert inStack == old(inStack);
      finished := finished + [node];
      return false;
    }

    /** detectCycles: accepts exactly the acyclic graphs, and then the finishing order of the
        search is a topological ranking. Keys may repeat and endpoints need not be declared. */
    method DetectCycles(nodes: seq<Key>, edges: seq<Edge>) returns (accepted: bool)
      requires graph == map[] && keyOrder == [] && visited == {} && inStack == {} && finished == []
      modifies this
      ensures accepted <==> !Cyclic(edges)
      ensures accepted ==> Distinct(finished) && IsFinishOrder(edges, finished)
    {
      DeclareNodes(nodes);
      AddEdges(edges);
      label Built:
      universe := graph.Keys + AllKeys(edges);
      for i := 0 to |keyOrder|
        invariant Coherent(edges) && inStack == {}
        invariant keyOrder == old@Built(keyOrder) && graph == old@Built(graph)
        invariant forall j :: 0 <= j < i ==> keyOrder[j] in finished
      {
        if keyOrder[i] !in visited {
          var cycle := Dfs(edges, keyOrder[i], []);
          if cycle { return false; }
        }
      }
      DownsFirstIsFinishOrder(edges, finished);
      FinishOrderExcludesCycles(edges, finished);
      return true;
    }
  }

  /** Visited keys are on the current path or finished, never both; finished keys come after their successors. */
  ghost predicate Partition(edges: seq<Edge>, visited: set<Key>, inStack: set<Key>, finished: seq<Key>) {
    && (forall k :: k in visited <==> k in inStack || k in finished)
    && (forall k :: k in inStack ==> k !in finished)
    && Distinct(finished)
    && DownsFirst(edges, finished)
  }

  lemma LeaveNode(edges: seq<Edge>, visited: set<Key>, inStack: set<Key>, finished: seq<Key>, node: Key)
    requires Partition(edges, visited, inStack, finished) && node in inStack
    requires forall v :: HasEdge(edges, node, v) ==> v in finished
    ensures Partition(edges, visited, inStack - {node}, finished + [node])
  {
    DownsFirstExtend(edges, finished, node);
  }

  /** Every successor of a listed key is listed earlier. */
  ghost predicate DownsFirst(edges: seq<Edge>, order: seq<Key>) {
    forall a, v :: 0 <= a < |order| && HasEdge(edges, order[a], v) ==> v in order[..a]
  }

  lemma DownsFirstExtend(edges: seq<Edge>, order: seq<Key>, node: Key)
    requires DownsFirst(edges, order)
    requires forall v :: HasEdge(edges, node, v) ==> v in order
    ensures DownsFirst(edges, order + [node])
  {
    var longer := order + [node];
    forall a, v | 0 <= a < |longer| && HasEdge(edges, longer[a], v) ensures v in longer[..a] {
      if a < |order| { assert longer[..a] == order[..a]; } else { assert longer[..a] == order; }
    }
  }

  lemma DownsFirstIsFinishOrder(edges: seq<Edge>, order: seq<Key>)
    requires DownsFirst(edges, order)
    requires Sources(edges) <= set k | k in order
    ensures IsFinishOrder(edges, order)
  {
    forall i | 0 <= i < |edges|
      ensures ListedAfter(order, edges[i].up, edges[i].down)
    {
      assert edges[i].up in Sources(edges);
      var a :| 0 <= a < |order| && order[a] == edges[i].up;
      assert HasEdge(edges, order[a], edges[i].down);
      var b :| 0 <= b < a && order[..a][b] == edges[i].down;
      assert order[b] == edges[i].down;
    }
  }

  /** An edge from the end of a walk back to one of its keys closes a cycle. */
  lemma BackEdge(edges: seq<Edge>, walk: seq<Key>, target: Key)
    requires IsWalk(edges, walk) && target in walk && HasEdge(edges, walk[|walk| - 1], target)
    ensures Cyclic(edges)
  {
    var i :| 0 <= i < |walk| && walk[i] == target;
    var tail := walk[i..];
    forall k | 0 <= k < |tail| - 1 ensures HasEdge(edges, tail[k], tail[k + 1]) {
      assert HasEdge(edges, walk[i + k], walk[i + k + 1]);
    }
    WalkThenEdge(edges, tail, target);
    assert IsWalkFromTo(edges, tail + [target], target, target);
    assert Reaches(edges, target, target);
  }

  lemma EndpointsKnown(edges: seq<Edge>, u: Key, v: Key)
    requires HasEdge(edges, u, v)
    ensures u in AllKeys(edges) && v in AllKeys(edges)
  {
  }
}
