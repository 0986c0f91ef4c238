/** Cycle detection on a workflow plan (src/praxis_sdk/dsl/planner.py:514-551): a recursive
    depth-first search over shared visited and rec_stack sets. */
module CycleCheck {
  import Sequences

  datatype Edge<V> = Edge(number: nat, source: V, target: V)

  // ---- The graph and its cycles ------------------------------------------------------------------

  function IdSet<V(==)>(nodes: seq<V>): set<V> {
    set v | v in nodes
  }

  /** There is an edge from u to v, and u is a plan node. v may be anything. */
  ghost predicate Arrow<V>(ids: set<V>, edges: seq<Edge<V>>, u: V, v: V) {
    u in ids && exists e :: e in edges && e.source == u && e.target == v
  }

  ghost predicate Path<V>(ids: set<V>, edges: seq<Edge<V>>, p: seq<V>) {
    forall i {:trigger p[i]} :: 0 < i < |p| ==> Arrow(ids, edges, p[i - 1], p[i])
  }

  ghost predicate Cycle<V>(ids: set<V>, edges: seq<Edge<V>>, p: seq<V>) {
    |p| >= 2 && p[0] == p[|p| - 1] && Path(ids, edges, p)
  }

  ghost predicate Cyclic<V(!new)>(ids: set<V>, edges: seq<Edge<V>>) {
    exists p: seq<V> :: Cycle(ids, edges, p)
  }

  /** The targets of the edges leaving u, in edge order. */
  function Targets<V(==, !new)>(edges: seq<Edge<V>>, u: V): (ts: seq<V>)
    ensures forall v :: v in ts <==> exists e :: e in edges && e.source == u && e.target == v
  {
    if edges == [] then []
    else
      var e := edges[|edges| - 1];
      assert edges == edges[..|edges| - 1] + [e];
      Targets(edges[..|edges| - 1], u) + if e.source == u then [e.target] else []
  }

  /** The adjacency dictionary of the source: a list of targets for every plan node. */
  ghost predicate Adjacency<V(!new)>(graph: map<V, seq<V>>, ids: set<V>, edges: seq<Edge<V>>) {
    graph.Keys == ids && forall u :: u in ids ==> graph[u] == Targets(edges, u)
  }

  // ---- What the search maintains ---------------------------------------------------------------

  /** Every arrow out of a finished vertex leads to one that finished before it. */
  ghost predicate TopologicalOrder<V(!new)>(ids: set<V>, edges: seq<Edge<V>>, finished: seq<V>) {
    forall i, v :: 0 <= i < |finished| && Arrow(ids, edges, finished[i], v) ==> v in finished[..i]
  }

  /** A path between two vertices of the order goes strictly down. */
  lemma {:induction false} PathGoesDown<V(!new)>(ids: set<V>, edges: seq<Edge<V>>, finished: seq<V>, p: seq<V>, i: nat)
    requires TopologicalOrder(ids, edges, finished) && Path(ids, edges, p) && |p| >= 2
    requires i < |finished| && finished[i] == p[0]
    ensures p[|p| - 1] in finished[..i]
    decreases |p|
  {
    assert Arrow(ids, edges, p[0], p[1]);
    var j: nat :| j < i && finished[j] == p[1];
    if |p| > 2 {
      var q := p[1..];
      forall k {:trigger q[k]} | 0 < k < |q| ensures Arrow(ids, edges, q[k - 1], q[k]) {
        assert p[k + 1] == q[k];
      }
      PathGoesDown(ids, edges, finished, q, j);
      assert q[|q| - 1] in finished[..j];
    }
  }

  /** Once every plan node is finished there is no cycle. */
  lemma FinishedMeansAcyclic<V(!new)>(ids: set<V>, edges: seq<Edge<V>>, finished: seq<V>)
    requires TopologicalOrder(ids, edges, finished)
    requires forall u :: u in ids ==> u in finished
    ensures !Cyclic(ids, edges)
  {
    forall p: seq<V> | Cycle(ids, edges, p) ensures false {
      assert Arrow(ids, edges, p[0], p[1]);
      var i := FirstIndex(finished, p[0]);
      PathGoesDown(ids, edges, finished, p, i);
    }
  }

  lemma FirstIndex<V>(s: seq<V>, x: V) returns (i: nat)
    requires x in s
    ensures i < |s| && s[i] == x && x !in s[..i]
  {
    i := 0;
    while s[i] != x
      invariant i < |s| && x !in s[..i] && x in s[i..]
      decreases |s| - i
    {
      assert s[..i + 1] == s[..i] + [s[i]] && s[i..] == [s[i]] + s[i + 1..];
      i := i + 1;
    }
  }

  lemma BackArrowClosesCycle<V(!new)>(ids: set<V>, edges: seq<Edge<V>>, stack: seq<V>, v: V)
    requires Path(ids, edges, stack) && v in stack && Arrow(ids, edges, stack[|stack| - 1], v)
    ensures Cyclic(ids, edges)
  {
    var i: nat :| i < |stack| && stack[i] == v;
    var p := stack[i..] + [v];
    forall k {:trigger p[k]} | 0 < k < |p| ensures Arrow(ids, edges, p[k - 1], p[k]) {
      if k < |p| - 1 {
        assert p[k] == stack[i + k] && p[k - 1] == stack[i + k - 1];
      }
    }
    assert Cycle(ids, edges, p);
  }

  lemma OneMoreFinished<V(!new)>(ids: set<V>, edges: seq<Edge<V>>, finished: seq<V>, v: V)
    requires TopologicalOrder(ids, edges, finished) && forall u :: Arrow(ids, edges, v, u) ==> u in finished
    ensures TopologicalOrder(ids, edges, finished + [v])
  {
    var longer := finished + [v];
    assert forall i :: 0 <= i < |longer| ==> longer[..i] == finished[..i];
  }

  lemma SmallerDifference<V>(universe: set<V>, before: set<V>, after: set<V>, v: V)
    requires before + {v} <= after && v in universe && v !in before
    ensures |universe - after| < |universe - before|
  {
    assert universe - after <= (universe - before) - {v};
    Cardinality(universe - after, (universe - before) - {v});
  }

  lemma {:induction false} Cardinality<V>(a: set<V>, b: set<V>)
    requires a <= b
    ensures |a| <= |b|
  {
    if a != {} {
      var x :| x in a;
      Cardinality(a - {x}, b - {x});
    }
  }

  // ---- The search --------------------------------------------------------------------------------

  class CycleFinder<V(==, !new)> {
    const graph: map<V, seq<V>>
    var visited: set<V>
    var recStack: set<V>

    ghost const ids: set<V>
    ghost const edges: seq<Edge<V>>
    /** All vertices: plan nodes and edge targets. */
    ghost const universe: set<V>
    /** The vertices on the recursion stack, outermost first, and those done with, in order. */
    ghost var stack: seq<V>
    ghost var finished: seq<V>

    ghost predicate Valid()
      reads this
    {
      && Adjacency(graph, ids, edges)
      && ids <= universe
      && (forall e :: e in edges ==> e.target in universe)
      && visited <= universe
      && (forall v :: v in visited <==> v in recStack || v in finished)
      && (forall v :: v in recStack <==> v in stack)
      && Path(ids, edges, stack)
      && TopologicalOrder(ids, edges, finished)
    }

    constructor (graph: map<V, seq<V>>, ghost ids: set<V>, ghost edges: seq<Edge<V>>)
      requires Adjacency(graph, ids, edges)
      ensures Valid() && this.ids == ids && this.edges == edges && this.graph == graph
      ensures visited == {} && stack == [] && finished == []
    {
      this.graph, this.ids, this.edges := graph, ids, edges;
      this.universe := ids + set e | e in edges :: e.target;
      visited, recStack, stack, finished := {}, {}, [], [];
    }

    /** has_cycle(node) */
    method HasCycle(node: V) returns (found: bool)
      requires Valid() && node in universe
      requires stack == [] || Arrow(ids, edges, stack[|stack| - 1], node)
      modifies this
      ensures found ==> Cyclic(ids, edges)
      ensures !found ==> Valid() && stack == old(stack) && recStack == old(recStack)
      ensures !found ==> old(visited) <= visited && old(finished) <= finished && node in finished
      decreases |universe - visited|, 0
    {
      if node in recStack {
        BackArrowClosesCycle(ids, edges, stack, node);
        return true;
      }
      if node in visited {
        return false;
      }
      Enter(node);
      assert |universe - visited| < |universe - old(visited)| by {
        SmallerDifference(universe, old(visited), visited, node);
      }
      found := AnyNeighborHasCycle(node, Neighbors(node));
      if !found {
        Leave(node, old(stack));
      }
    }

    /** graph.get(node, []) */
    function Neighbors(node: V): (r: seq<V>)
      requires Adjacency(graph, ids, edges)
      ensures forall v :: v in r <==> Arrow(ids, edges, node, v)
    {
      if node in graph then graph[node] else []
    }

    /** The loop over graph.get(node, []), with node on top of the recursion stack. */
    method AnyNeighborHasCycle(node: V, neighbors: seq<V>) returns (found: bool)
      requires Valid() && stack != [] && stack[|stack| - 1] == node
      requires forall v :: v in neighbors <==> Arrow(ids, edges, node, v)
      modifies this
      ensures found ==> Cyclic(ids, edges)
      ensures !found ==> Valid() && stack == old(stack) && recStack == old(recStack)
      ensures !found ==> old(visited) <= visited && old(finished) <= finished
      ensures !found ==> forall v :: v in neighbors ==> v in finished
      decreases |universe - visited|, |neighbors| + 1
    {
      for i := 0 to |neighbors|
        invariant Valid() && stack == old(stack) && recStack == old(recStack)
        invariant old(visited) <= visited && old(finished) <= finished
        invariant forall v :: v in neighbors[..i] ==> v in finished
      {
        assert neighbors[i] in neighbors;
        Cardinality(universe - visited, universe - old(visited));
        found := HasCycle(neighbors[i]);
        if found {
          return true;
        }
        Sequences.Unfold(neighbors, i);
      }
      assert neighbors[..|neighbors|] == neighbors;
      found := false;
    }

    /** visited.add(node); rec_stack.add(node) */
    method Enter(node: V)
      requires Valid() && node !in visited
      requires node in universe
      requires stack == [] || Arrow(ids, edges, stack[|stack| - 1], node)
      modifies this
      ensures Valid() && stack == old(stack) + [node] && finished == old(finished)
      ensures visited == old(visited) + {node} && recStack == old(recStack) + {node}
    {
      visited := visited + {node};
      recStack := recStack + {node};
      stack := stack + [node];
    }

    /** rec_stack.remove(node): all arrows out of node have been followed. */
    method Leave(node: V, ghost before: seq<V>)
      requires Valid() && stack == before + [node] && node !in before
      requires forall v :: Arrow(ids, edges, node, v) ==> v in finished
      modifies this
      ensures Valid() && stack == before && recStack == old(recStack) - {node}
      ensures visited == old(visited) && finished == old(finished) + [node]
    {
      recStack := recStack - {node};
      stack := stack[..|stack| - 1];
      assert stack == before;
      ghost var done := finished;
      finished := finished + [node];
      OneMoreFinished(ids, edges, done, node);
    }
  }

  /** _has_circular_dependencies: True exactly when the edges whose source is a plan node contain a
      directed cycle, for any node list and any edges. */
  method HasCircularDependencies<V(==, !new)>(nodes: seq<V>, edges: seq<Edge<V>>) returns (r: bool)
    ensures r <==> Cyclic(IdSet(nodes), edges)
  {
    ghost var ids := IdSet(nodes);
    var graph := BuildAdjacency(nodes, edges);
    var finder := new CycleFinder(graph, ids, edges);
    for i := 0 to |nodes|
      invariant fresh(finder) && finder.Valid() && finder.stack == []
      invariant forall v :: v in nodes[..i] ==> v in finder.finished
      invariant finder.ids == ids && finder.edges == edges
    {
      assert nodes[..i + 1] == nodes[..i] + [nodes[i]];
      if nodes[i] !in finder.visited {
        r := finder.HasCycle(nodes[i]);
        if r {
          return true;
        }
      }
    }
    assert nodes[..|nodes|] == nodes;
    FinishedMeansAcyclic(ids, edges, finder.finished);
    r := false;
  }

  method BuildAdjacency<V(==, !new)>(nodes: seq<V>, edges: seq<Edge<V>>) returns (graph: map<V, seq<V>>)
    ensures Adjacency(graph, IdSet(nodes), edges)
  {
    graph := map[];
    for i := 0 to |nodes|
      invariant graph.Keys == IdSet(nodes[..i])
      invariant forall u :: u in graph ==> graph[u] == []
    {
      assert nodes[..i + 1] == nodes[..i] + [nodes[i]];
      graph := graph[nodes[i] := []];
    }
    assert nodes[..|nodes|] == nodes;
    for i := 0 to |edges|
      invariant Adjacency(graph, IdSet(nodes), edges[..i])
    {
      var e := edges[i];
      assert edges[..i + 1] == edges[..i] + [e];
      assert edges[..i + 1][..i] == edges[..i];
      if e.source in graph {
        graph := graph[e.source := graph[e.source] + [e.target]];
      }
    }
    assert edges[..|edges|] == edges;
  }
}
