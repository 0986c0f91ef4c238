/** Lowering an AST to workflow nodes and edges (src/praxis_sdk/dsl/planner.py:334-473) as a function
    of the AST. The identifier f"node_{k}" is represented by k, and f"edge_{k}" by k. */
module Lowering {
  import opened Wrappers
  import opened DslTypes
  import opened CycleCheck

  /** What lowering asks of the network: the best agent for a tool, and an agent's capabilities. */
  datatype Network = Network(bestAgent: string -> Option<string>, capabilities: string -> seq<string>)

  datatype NodeData =
    | ToolData(toolName: string, arguments: Args, agentId: Option<string>)
    | ParallelData(childrenCount: nat)
    | SequenceData(childrenCount: nat)
    | AgentData(agent: string, capabilities: seq<string>)

  datatype PlanNode = PlanNode(id: nat, data: NodeData, y: nat)

  datatype Plan = Plan(nodes: seq<PlanNode>, edges: seq<Edge<nat>>)

  function Concat(a: Plan, b: Plan): Plan {
    Plan(a.nodes + b.nodes, a.edges + b.edges)
  }

  const EMPTY_PLAN := Plan([], [])

  function ToolNode(net: Network, tool: string, args: Args, n: nat): PlanNode {
    PlanNode(n, ToolData(tool, args, net.bestAgent(tool)), 100 * n)
  }

  function AgentNode(net: Network, id: string, n: nat): PlanNode {
    PlanNode(n, AgentData(id, net.capabilities(id)), 100 * n)
  }

  /** The node of a block itself. */
  function BlockNode(node: Node, n: nat): PlanNode
    requires node.Parallel? || node.Sequence?
  {
    PlanNode(n, if node.Parallel? then ParallelData(|node.children|) else SequenceData(|node.children|), 100 * n)
  }

  /** _convert_ast_node: nodes numbered from n, edges from e. */
  function Lower(net: Network, node: Node, n: nat, e: nat): Plan
    decreases node, 1
  {
    match node
    case Call(tool, args) => Plan([ToolNode(net, tool, args, n)], [])
    case Agent(id) => Plan([AgentNode(net, id, n)], [])
    case Parallel(children) =>
      Concat(Plan([BlockNode(node, n)], []), LowerChildren(net, false, children, n, n + 1, e))
    case Sequence(children) =>
      Concat(Plan([BlockNode(node, n)], []), LowerChildren(net, true, children, n, n + 1, e))
    case _ => EMPTY_PLAN
  }

  /** The loop over the children of a block: the next child is numbered from c and linked from from,
      which is the block in a PARALLEL and the previous child's number in a SEQUENCE. */
  function LowerChildren(net: Network, chain: bool, children: seq<Node>, from: nat, c: nat, e: nat): Plan
    decreases children, 0
  {
    if children == [] then EMPTY_PLAN
    else
      var child := Lower(net, children[0], c, e);
      var rest := LowerChildren(net, chain, children[1..], if chain then c else from, c + |child.nodes|, e + 1);
      Linked(child, Edge(e, from, c), rest)
  }

  function Linked(child: Plan, link: Edge<nat>, rest: Plan): Plan {
    Plan(child.nodes + rest.nodes, child.edges + [link] + rest.edges)
  }

  /** One turn of the loop over the children. */
  lemma FirstChild(net: Network, chain: bool, children: seq<Node>, from: nat, c: nat, e: nat) returns (child: Plan, next: nat, rest: Plan)
    requires children != []
    ensures child == Lower(net, children[0], c, e) && next == if chain then c else from
    ensures rest == LowerChildren(net, chain, children[1..], next, c + |child.nodes|, e + 1)
    ensures LowerChildren(net, chain, children, from, c, e) == Linked(child, Edge(e, from, c), rest)
    ensures |children| == 1 ==> rest == EMPTY_PLAN
  {
    child := Lower(net, children[0], c, e);
    next := if chain then c else from;
    rest := LowerChildren(net, chain, children[1..], next, c + |child.nodes|, e + 1);
  }

  /** _ast_to_workflow_plan */
  function LowerAll(net: Network, nodes: seq<Node>, n: nat, e: nat): Plan {
    if nodes == [] then EMPTY_PLAN
    else
      var first := Lower(net, nodes[0], n, e);
      Concat(first, LowerAll(net, nodes[1..], n + |first.nodes|, e + |first.edges|))
  }

  // ---- Node numbers ----------------------------------------------------------------------------

  /** The AST nodes that become workflow nodes, in pre-order. */
  function Emitted(node: Node): seq<Node>
    decreases node, 1
  {
    match node
    case Call(_, _) => [node]
    case Agent(_) => [node]
    case Parallel(children) => [node] + EmittedAll(children)
    case Sequence(children) => [node] + EmittedAll(children)
    case _ => []
  }

  function EmittedAll(nodes: seq<Node>): seq<Node>
    decreases nodes, 0
  {
    if nodes == [] then [] else Emitted(nodes[0]) + EmittedAll(nodes[1..])
  }

  predicate Emits(node: Node) {
    node.Call? || node.Agent? || node.Parallel? || node.Sequence?
  }

  /** The workflow node with number k describes this AST node. */
  predicate Describes(net: Network, p: PlanNode, node: Node, k: nat) {
    match node
    case Call(tool, args) => p == PlanNode(k, ToolData(tool, args, net.bestAgent(tool)), 100 * k)
    case Agent(id) => p == PlanNode(k, AgentData(id, net.capabilities(id)), 100 * k)
    case Parallel(children) => p == PlanNode(k, ParallelData(|children|), 100 * k)
    case Sequence(children) => p == PlanNode(k, SequenceData(|children|), 100 * k)
    case _ => false
  }

  /** ps are the workflow nodes of these AST nodes, numbered consecutively from n. */
  ghost predicate Numbered(net: Network, ps: seq<PlanNode>, nodes: seq<Node>, n: nat) {
    |ps| == |nodes| && forall i :: 0 <= i < |ps| ==> Describes(net, ps[i], nodes[i], n + i)
  }

  lemma NumberedConcat(net: Network, ps: seq<PlanNode>, nodes: seq<Node>, n: nat, qs: seq<PlanNode>, more: seq<Node>)
    requires Numbered(net, ps, nodes, n) && Numbered(net, qs, more, n + |ps|)
    ensures Numbered(net, ps + qs, nodes + more, n)
  {
    forall i | 0 <= i < |ps + qs| ensures Describes(net, (ps + qs)[i], (nodes + more)[i], n + i) {
      if i >= |ps| {
        assert Describes(net, qs[i - |ps|], more[i - |ps|], n + |ps| + (i - |ps|));
      }
    }
  }

  lemma {:induction false} LowerNumbers(net: Network, node: Node, n: nat, e: nat)
    ensures Numbered(net, Lower(net, node, n, e).nodes, Emitted(node), n)
    decreases node, 1
  {
    match node {
      case Parallel(children) =>
        LowerChildrenNumbers(net, false, children, n, n + 1, e);
        NumberedConcat(net, [BlockNode(node, n)], [node], n, LowerChildren(net, false, children, n, n + 1, e).nodes, EmittedAll(children));
      case Sequence(children) =>
        LowerChildrenNumbers(net, true, children, n, n + 1, e);
        NumberedConcat(net, [BlockNode(node, n)], [node], n, LowerChildren(net, true, children, n, n + 1, e).nodes, EmittedAll(children));
      case _ =>
    }
  }

  lemma {:induction false} LowerChildrenNumbers(net: Network, chain: bool, children: seq<Node>, from: nat, c: nat, e: nat)
    ensures Numbered(net, LowerChildren(net, chain, children, from, c, e).nodes, EmittedAll(children), c)
    decreases children, 0
  {
    if children != [] {
      LowerNumbers(net, children[0], c, e);
      var first := Lower(net, children[0], c, e).nodes;
      var next := if chain then c else from;
      LowerChildrenNumbers(net, chain, children[1..], next, c + |first|, e + 1);
      NumberedConcat(net, first, Emitted(children[0]), c,
        LowerChildren(net, chain, children[1..], next, c + |first|, e + 1).nodes, EmittedAll(children[1..]));
    }
  }

  /** The workflow nodes are the emitted AST nodes in pre-order, numbered 0, 1, 2, ... */
  lemma {:induction false} PlanNumbers(net: Network, nodes: seq<Node>, n: nat, e: nat)
    ensures Numbered(net, LowerAll(net, nodes, n, e).nodes, EmittedAll(nodes), n)
    decreases |nodes|
  {
    if nodes != [] {
      var m, e' := FirstNumbered(net, nodes, n, e);
      PlanNumbers(net, nodes[1..], m, e');
    }
  }

  /** One turn: with the numbers of the later nodes, those of all of them are right. */
  lemma FirstNumbered(net: Network, nodes: seq<Node>, n: nat, e: nat) returns (m: nat, e': nat)
    requires nodes != []
    ensures Numbered(net, LowerAll(net, nodes[1..], m, e').nodes, EmittedAll(nodes[1..]), m) ==>
      Numbered(net, LowerAll(net, nodes, n, e).nodes, EmittedAll(nodes), n)
  {
    var first, emitted;
    first, emitted, m, e' := FirstNumbers(net, nodes, n, e);
    var rest := LowerAll(net, nodes[1..], m, e').nodes;
    if Numbered(net, rest, EmittedAll(nodes[1..]), m) {
      NumberedConcat(net, first, emitted, n, rest, EmittedAll(nodes[1..]));
    }
  }

  lemma FirstNumbers(net: Network, nodes: seq<Node>, n: nat, e: nat)
    returns (first: seq<PlanNode>, emitted: seq<Node>, m: nat, e': nat)
    requires nodes != []
    ensures LowerAll(net, nodes, n, e).nodes == first + LowerAll(net, nodes[1..], m, e').nodes
    ensures EmittedAll(nodes) == emitted + EmittedAll(nodes[1..])
    ensures m == n + |first| && Numbered(net, first, emitted, n)
  {
    var plan := Lower(net, nodes[0], n, e);
    first, emitted, m, e' := plan.nodes, Emitted(nodes[0]), n + |plan.nodes|, e + |plan.edges|;
    LowerNumbers(net, nodes[0], n, e);
  }

  // ---- Blocks whose descendants all emit: a forest ---------------------------------------------

  /** Every descendant of a PARALLEL or SEQUENCE becomes a node. */
  predicate Clean(node: Node)
    decreases node, 1
  {
    match node
    case Parallel(children) => AllCleanInside(children)
    case Sequence(children) => AllCleanInside(children)
    case _ => true
  }

  predicate AllCleanInside(children: seq<Node>)
    decreases children, 0
  {
    children == [] || (Emits(children[0]) && Clean(children[0]) && AllCleanInside(children[1..]))
  }

  function InDegree(edges: seq<Edge<nat>>, v: nat): nat {
    if edges == [] then 0 else (if edges[0].target == v then 1 else 0) + InDegree(edges[1..], v)
  }

  lemma {:induction false} InDegreeConcat(a: seq<Edge<nat>>, b: seq<Edge<nat>>, v: nat)
    ensures InDegree(a + b, v) == InDegree(a, v) + InDegree(b, v)
  {
    if a == [] {
      assert a + b == b;
    } else {
      InDegreeConcat(a[1..], b, v);
      assert (a + b)[1..] == a[1..] + b;
    }
  }

  /** Every edge goes up, between numbers in lo..hi. */
  ghost predicate Ascending(edges: seq<Edge<nat>>, lo: nat, hi: nat) {
    forall d :: d in edges ==> lo <= d.source < d.target < hi
  }

  /** A block's own plan adds no edges to those of its children. */
  lemma BlockEdges(net: Network, node: Node, n: nat, e: nat)
    requires node.Parallel? || node.Sequence?
    ensures var p := LowerChildren(net, node.Sequence?, node.children, n, n + 1, e);
            && Lower(net, node, n, e).edges == p.edges
            && |Lower(net, node, n, e).nodes| == |p.nodes| + 1
  {
    var p := LowerChildren(net, node.Sequence?, node.children, n, n + 1, e);
    assert [] + p.edges == p.edges;
  }

  lemma {:induction false} CleanCount(net: Network, node: Node, n: nat, e: nat)
    requires Clean(node)
    ensures var p := Lower(net, node, n, e);
            |p.nodes| == |p.edges| + if Emits(node) then 1 else 0
    decreases node, 1
  {
    if node.Parallel? || node.Sequence? {
      BlockEdges(net, node, n, e);
      CleanCountInside(net, node.Sequence?, node.children, n, n + 1, e);
    }
  }

  lemma {:induction false} CleanCountInside(net: Network, chain: bool, children: seq<Node>, from: nat, c: nat, e: nat)
    requires AllCleanInside(children)
    ensures var p := LowerChildren(net, chain, children, from, c, e);
            |p.nodes| == |p.edges|
    decreases children, 0
  {
    if children != [] {
      CleanCount(net, children[0], c, e);
      CleanCountInside(net, chain, children[1..], if chain then c else from, c + |Lower(net, children[0], c, e).nodes|, e + 1);
    }
  }

  lemma {:induction false} CleanAscends(net: Network, node: Node, n: nat, e: nat)
    requires Clean(node)
    ensures var p := Lower(net, node, n, e);
            Ascending(p.edges, n, n + |p.nodes|) && (Emits(node) <==> p.nodes != [])
    decreases node, 1
  {
    if node.Parallel? || node.Sequence? {
      BlockEdges(net, node, n, e);
      CleanAscendsInside(net, node.Sequence?, node.children, n, n + 1, e);
    }
  }

  lemma {:induction false} CleanAscendsInside(net: Network, chain: bool, children: seq<Node>, from: nat, c: nat, e: nat)
    requires AllCleanInside(children) && from < c
    ensures var p := LowerChildren(net, chain, children, from, c, e);
            Ascending(p.edges, from, c + |p.nodes|)
    decreases children, 0
  {
    if children != [] {
      var child, next, rest := FirstChild(net, chain, children, from, c, e);
      CleanAscends(net, children[0], c, e);
      CleanAscendsInside(net, chain, children[1..], next, c + |child.nodes|, e + 1);
      AscendingConcat(child.edges, c, c + |child.nodes|, Edge(e, from, c), rest.edges, next,
        from, c + |child.nodes| + |rest.nodes|);
    }
  }

  lemma AscendingConcat(a: seq<Edge<nat>>, loA: nat, hiA: nat, link: Edge<nat>, b: seq<Edge<nat>>, loB: nat, lo: nat, hi: nat)
    requires Ascending(a, loA, hiA) && Ascending(b, loB, hi)
    requires lo <= loA && hiA <= hi && lo <= loB && lo <= link.source < link.target < hi
    ensures Ascending(a + [link] + b, lo, hi)
  {
    Members(a, link, b);
  }

  lemma Members(a: seq<Edge<nat>>, link: Edge<nat>, b: seq<Edge<nat>>)
    ensures forall d :: d in a + [link] + b <==> d in a || d == link || d in b
  {
  }

  lemma {:induction false} CleanInDegree(net: Network, node: Node, n: nat, e: nat, v: nat)
    requires Clean(node)
    ensures var p := Lower(net, node, n, e);
            InDegree(p.edges, v) == if n < v < n + |p.nodes| then 1 else 0
    decreases node, 1
  {
    if node.Parallel? || node.Sequence? {
      BlockEdges(net, node, n, e);
      CleanInDegreeInside(net, node.Sequence?, node.children, n, n + 1, e, v);
    }
  }

  lemma {:induction false} CleanInDegreeInside(net: Network, chain: bool, children: seq<Node>, from: nat, c: nat, e: nat, v: nat)
    requires AllCleanInside(children)
    ensures var p := LowerChildren(net, chain, children, from, c, e);
            InDegree(p.edges, v) == if c <= v < c + |p.nodes| then 1 else 0
    decreases children, 0
  {
    if children != [] {
      var child, next, rest := FirstChild(net, chain, children, from, c, e);
      CleanInDegree(net, children[0], c, e, v);
      LowerEmits(net, children[0], c, e);
      CleanInDegreeInside(net, chain, children[1..], next, c + |child.nodes|, e + 1, v);
      InDegreeLink(child, Edge(e, from, c), rest, c, v);
    }
  }

  lemma LowerEmits(net: Network, node: Node, n: nat, e: nat)
    ensures Emits(node) <==> Lower(net, node, n, e).nodes != []
  {
  }

  lemma InDegreeLink(child: Plan, link: Edge<nat>, rest: Plan, c: nat, v: nat)
    requires link.target == c && child.nodes != []
    requires InDegree(child.edges, v) == if c < v < c + |child.nodes| then 1 else 0
    requires InDegree(rest.edges, v) == if c + |child.nodes| <= v < c + |child.nodes| + |rest.nodes| then 1 else 0
    ensures InDegree(Linked(child, link, rest).edges, v) == if c <= v < c + |Linked(child, link, rest).nodes| then 1 else 0
  {
    InDegreeConcat(child.edges + [link], rest.edges, v);
    InDegreeConcat(child.edges, [link], v);
  }

  predicate AllClean(nodes: seq<Node>) {
    nodes == [] || (Clean(nodes[0]) && AllClean(nodes[1..]))
  }

  function Roots(nodes: seq<Node>): nat {
    if nodes == [] then 0 else (if Emits(nodes[0]) then 1 else 0) + Roots(nodes[1..])
  }

  /** The number v belongs to a top-level node when nodes are numbered from n. */
  predicate IsRoot(nodes: seq<Node>, n: nat, v: nat) {
    nodes != [] && ((Emits(nodes[0]) && v == n) || IsRoot(nodes[1..], n + |Emitted(nodes[0])|, v))
  }

  lemma {:induction false} RootsComeLater(nodes: seq<Node>, n: nat, v: nat)
    requires IsRoot(nodes, n, v)
    ensures n <= v
  {
    if nodes != [] && !(Emits(nodes[0]) && v == n) {
      RootsComeLater(nodes[1..], n + |Emitted(nodes[0])|, v);
    }
  }

  lemma {:induction false} ForestAscends(net: Network, nodes: seq<Node>, n: nat, e: nat)
    requires AllClean(nodes)
    ensures var p := LowerAll(net, nodes, n, e);
            Ascending(p.edges, n, n + |p.nodes|) && |p.nodes| == |p.edges| + Roots(nodes)
    decreases |nodes|
  {
    if nodes != [] {
      CleanAscends(net, nodes[0], n, e);
      CleanCount(net, nodes[0], n, e);
      var first := Lower(net, nodes[0], n, e);
      ForestAscends(net, nodes[1..], n + |first.nodes|, e + |first.edges|);
    }
  }

  lemma {:induction false} ForestInDegree(net: Network, nodes: seq<Node>, n: nat, e: nat, v: nat)
    requires AllClean(nodes)
    ensures var p := LowerAll(net, nodes, n, e);
            InDegree(p.edges, v) == if n <= v < n + |p.nodes| && !IsRoot(nodes, n, v) then 1 else 0
    decreases |nodes|
  {
    if nodes != [] {
      var m, e', rest := FirstInDegree(net, nodes, n, e, v);
      ForestInDegree(net, nodes[1..], m, e', v);
      if IsRoot(nodes[1..], m, v) {
        RootsComeLater(nodes[1..], m, v);
      }
    }
  }

  /** One turn: what the first node leaves to the later ones, numbered from m. */
  lemma FirstInDegree(net: Network, nodes: seq<Node>, n: nat, e: nat, v: nat) returns (m: nat, e': nat, rest: Plan)
    requires nodes != [] && Clean(nodes[0])
    ensures rest == LowerAll(net, nodes[1..], m, e') && m == n + |Emitted(nodes[0])| && (Emits(nodes[0]) <==> n < m)
    ensures var p := LowerAll(net, nodes, n, e);
            && n + |p.nodes| == m + |rest.nodes|
            && InDegree(p.edges, v) == (if n < v < m then 1 else 0) + InDegree(rest.edges, v)
  {
    var first;
    first, m, e', rest := FirstCleanNode(net, nodes, n, e, v);
    InDegreeConcat(first.edges, rest.edges, v);
  }

  lemma FirstCleanNode(net: Network, nodes: seq<Node>, n: nat, e: nat, v: nat) returns (first: Plan, m: nat, e': nat, rest: Plan)
    requires nodes != [] && Clean(nodes[0])
    ensures LowerAll(net, nodes, n, e) == Concat(first, rest) && rest == LowerAll(net, nodes[1..], m, e')
    ensures m == n + |first.nodes| == n + |Emitted(nodes[0])| && (Emits(nodes[0]) <==> n < m)
    ensures InDegree(first.edges, v) == if n < v < m then 1 else 0
  {
    first := Lower(net, nodes[0], n, e);
    m, e' := n + |first.nodes|, e + |first.edges|;
    rest := LowerAll(net, nodes[1..], m, e');
    CleanInDegree(net, nodes[0], n, e, v);
    LowerEmits(net, nodes[0], n, e);
    LowerNumbers(net, nodes[0], n, e);
  }

  /** Lowering gives a forest when every descendant of a block emits: edges go from smaller to larger
      existing numbers, each node that is not top-level has exactly one incoming edge and the top-level
      ones have none, and there are as many edges as nodes that are not top-level. */
  lemma Forest(net: Network, nodes: seq<Node>)
    requires AllClean(nodes)
    ensures var p := LowerAll(net, nodes, 0, 0);
            && Ascending(p.edges, 0, |p.nodes|)
            && (forall v: nat :: InDegree(p.edges, v) == if v < |p.nodes| && !IsRoot(nodes, 0, v) then 1 else 0)
            && |p.edges| == |p.nodes| - Roots(nodes)
  {
    ForestAscends(net, nodes, 0, 0);
    forall v: nat
      ensures InDegree(LowerAll(net, nodes, 0, 0).edges, v)
           == if v < |LowerAll(net, nodes, 0, 0).nodes| && !IsRoot(nodes, 0, v) then 1 else 0
    {
      ForestInDegree(net, nodes, 0, 0, v);
    }
  }

  // ---- Any AST: what the edges look like -------------------------------------------------------

  /** The last child of the block, or the last child of that, and so on, emits nothing. */
  predicate OpenEnd(node: Node)
    decreases node, 1
  {
    match node
    case Parallel(children) => LastOpen(children)
    case Sequence(children) => LastOpen(children)
    case _ => false
  }

  predicate LastOpen(children: seq<Node>)
    decreases children, 0
  {
    if children == [] then false
    else if |children| == 1 then !Emits(children[0]) || OpenEnd(children[0])
    else LastOpen(children[1..])
  }

  /** All edges lie in lo..=hi and none goes down. */
  ghost predicate Within(edges: seq<Edge<nat>>, lo: nat, hi: nat) {
    forall d :: d in edges ==> lo <= d.source <= d.target <= hi
  }

  ghost predicate Reaches(edges: seq<Edge<nat>>, hi: nat) {
    exists d :: d in edges && d.target == hi
  }

  predicate IsLinked(p: Plan, child: Plan, link: Edge<nat>, rest: Plan) {
    p == Linked(child, link, rest)
  }

  lemma WithinLinked(p: Plan, child: Plan, link: Edge<nat>, rest: Plan, next: nat, from: nat, c: nat)
    requires IsLinked(p, child, link, rest) && link.source == from && link.target == c && from <= next && from <= c
    requires Within(child.edges, c, c + |child.nodes|) && Within(rest.edges, next, c + |child.nodes| + |rest.nodes|)
    ensures Within(p.edges, from, c + |p.nodes|)
  {
    Members(child.edges, link, rest.edges);
  }

  lemma {:induction false} LowerWithin(net: Network, node: Node, n: nat, e: nat)
    ensures var p := Lower(net, node, n, e);
            Within(p.edges, n, n + |p.nodes|) && (Emits(node) <==> p.nodes != [])
    decreases node, 1
  {
    if node.Parallel? || node.Sequence? {
      BlockEdges(net, node, n, e);
      LowerWithinInside(net, node.Sequence?, node.children, n, n + 1, e);
    }
  }

  lemma {:induction false} LowerWithinInside(net: Network, chain: bool, children: seq<Node>, from: nat, c: nat, e: nat)
    requires from <= c
    ensures var p := LowerChildren(net, chain, children, from, c, e);
            Within(p.edges, from, c + |p.nodes|)
    decreases children, 2
  {
    if children != [] {
      var next, c', rest := FirstWithin(net, chain, children, from, c, e);
      LowerWithinInside(net, chain, children[1..], next, c', e + 1);
    }
  }

  /** One turn: with the edges of the later children, those of all of them are in range. */
  lemma {:induction false} FirstWithin(net: Network, chain: bool, children: seq<Node>, from: nat, c: nat, e: nat)
    returns (next: nat, c': nat, rest: Plan)
    requires children != [] && from <= c
    ensures rest == LowerChildren(net, chain, children[1..], next, c', e + 1) && next <= c'
    ensures var p := LowerChildren(net, chain, children, from, c, e);
            Within(rest.edges, next, c' + |rest.nodes|) ==> Within(p.edges, from, c + |p.nodes|)
    decreases children, 1
  {
    var child, p;
    child, next, rest, p := FirstChildWithin(net, chain, children, from, c, e);
    c' := c + |child.nodes|;
    if Within(rest.edges, next, c' + |rest.nodes|) {
      WithinLinked(p, child, Edge(e, from, c), rest, next, from, c);
    }
  }

  lemma {:induction false} FirstChildWithin(net: Network, chain: bool, children: seq<Node>, from: nat, c: nat, e: nat)
    returns (child: Plan, next: nat, rest: Plan, p: Plan)
    requires children != [] && from <= c
    ensures p == LowerChildren(net, chain, children, from, c, e) && IsLinked(p, child, Edge(e, from, c), rest)
    ensures rest == LowerChildren(net, chain, children[1..], next, c + |child.nodes|, e + 1) && from <= next <= c
    ensures Within(child.edges, c, c + |child.nodes|)
    decreases children, 0
  {
    child, next, rest := FirstChild(net, chain, children, from, c, e);
    p := Linked(child, Edge(e, from, c), rest);
    LowerWithin(net, children[0], c, e);
  }

  /** An edge points just past the nodes of a block exactly when the block ends open. */
  lemma {:induction false} LowerReaches(net: Network, node: Node, n: nat, e: nat)
    ensures var p := Lower(net, node, n, e);
            Reaches(p.edges, n + |p.nodes|) <==> OpenEnd(node)
    decreases node, 1
  {
    if node.Parallel? || node.Sequence? {
      BlockEdges(net, node, n, e);
      LowerReachesInside(net, node.Sequence?, node.children, n, n + 1, e);
    }
  }

  lemma {:induction false} LowerReachesInside(net: Network, chain: bool, children: seq<Node>, from: nat, c: nat, e: nat)
    requires from <= c
    ensures var p := LowerChildren(net, chain, children, from, c, e);
            && (Reaches(p.edges, c + |p.nodes|) <==> LastOpen(children))
            && (children != [] && p.nodes == [] ==> Reaches(p.edges, c))
    decreases children, 2
  {
    if children != [] {
      var next, c', rest := FirstReaches(net, chain, children, from, c, e);
      LowerReachesInside(net, chain, children[1..], next, c', e + 1);
    }
  }

  /** One turn: the later children, numbered from c', and what reaches the end besides them. */
  lemma {:induction false} FirstReaches(net: Network, chain: bool, children: seq<Node>, from: nat, c: nat, e: nat)
    returns (next: nat, c': nat, rest: Plan)
    requires children != [] && from <= c
    ensures rest == LowerChildren(net, chain, children[1..], next, c', e + 1) && next <= c'
    ensures |children| == 1 ==> rest == EMPTY_PLAN
    ensures var p, silent := LowerChildren(net, chain, children, from, c, e), !Emits(children[0]) || OpenEnd(children[0]);
            && Reaches(p.edges, c + |p.nodes|) == (Reaches(rest.edges, c' + |rest.nodes|) || (rest.nodes == [] && silent))
            && (p.nodes == [] ==> Reaches(p.edges, c))
    decreases children, 1
  {
    var child, p;
    child, next, rest, p := FirstChildOpen(net, chain, children, from, c, e);
    c' := c + |child.nodes|;
    LinkReaches(p, child, Edge(e, from, c), rest, c);
  }

  lemma {:induction false} FirstChildOpen(net: Network, chain: bool, children: seq<Node>, from: nat, c: nat, e: nat)
    returns (child: Plan, next: nat, rest: Plan, p: Plan)
    requires children != [] && from <= c
    ensures p == LowerChildren(net, chain, children, from, c, e) && IsLinked(p, child, Edge(e, from, c), rest)
    ensures rest == LowerChildren(net, chain, children[1..], next, c + |child.nodes|, e + 1) && next <= c
    ensures |children| == 1 ==> rest == EMPTY_PLAN
    ensures Within(child.edges, c, c + |child.nodes|) && (Emits(children[0]) <==> child.nodes != [])
    ensures Reaches(child.edges, c + |child.nodes|) <==> OpenEnd(children[0])
    decreases children, 0
  {
    child, next, rest := FirstChild(net, chain, children, from, c, e);
    p := Linked(child, Edge(e, from, c), rest);
    LowerReaches(net, children[0], c, e);
    LowerWithin(net, children[0], c, e);
  }

  /** The first child's plan, or the link to it if it has no nodes, reaches the end if nothing follows. */
  lemma LinkReaches(p: Plan, child: Plan, link: Edge<nat>, rest: Plan, c: nat)
    requires IsLinked(p, child, link, rest)
    requires link.target == c && Within(child.edges, c, c + |child.nodes|)
    ensures var silent := child.nodes == [] || Reaches(child.edges, c + |child.nodes|);
            Reaches(p.edges, c + |p.nodes|) == (Reaches(rest.edges, c + |child.nodes| + |rest.nodes|) || (rest.nodes == [] && silent))
    ensures p.nodes == [] ==> Reaches(p.edges, c)
  {
    ReachConcat(child.edges, link, rest.edges, c + |child.nodes| + |rest.nodes|);
  }

  lemma ReachConcat(a: seq<Edge<nat>>, link: Edge<nat>, b: seq<Edge<nat>>, hi: nat)
    ensures Reaches(a + [link] + b, hi) <==> Reaches(a, hi) || link.target == hi || Reaches(b, hi)
  {
    Members(a, link, b);
  }

  /** The last top-level node that emits anything ends open. */
  predicate PlanOpen(nodes: seq<Node>) {
    nodes != [] && (PlanOpen(nodes[1..]) || (!AnyEmits(nodes[1..]) && OpenEnd(nodes[0])))
  }

  predicate AnyEmits(nodes: seq<Node>) {
    nodes != [] && (Emits(nodes[0]) || AnyEmits(nodes[1..]))
  }

  lemma {:induction false} PlanWithin(net: Network, nodes: seq<Node>, n: nat, e: nat)
    ensures var p := LowerAll(net, nodes, n, e);
            Within(p.edges, n, n + |p.nodes|)
    decreases |nodes|
  {
    if nodes != [] {
      LowerWithin(net, nodes[0], n, e);
      var first := Lower(net, nodes[0], n, e);
      var m := n + |first.nodes|;
      PlanWithin(net, nodes[1..], m, e + |first.edges|);
      var rest := LowerAll(net, nodes[1..], m, e + |first.edges|);
      assert LowerAll(net, nodes, n, e) == Concat(first, rest);
      PlanConcat(first.edges, rest.edges, n, m, m + |rest.nodes|);
    }
  }

  lemma {:induction false} PlanReaches(net: Network, nodes: seq<Node>, n: nat, e: nat)
    ensures var p := LowerAll(net, nodes, n, e);
            Reaches(p.edges, n + |p.nodes|) <==> PlanOpen(nodes)
    decreases |nodes|
  {
    if nodes != [] {
      var m, e', rest := FirstPlanReaches(net, nodes, n, e);
      PlanReaches(net, nodes[1..], m, e');
    }
  }

  /** One turn of the loop over the top-level nodes, and what the first one leaves open. */
  lemma FirstNode(net: Network, nodes: seq<Node>, n: nat, e: nat) returns (first: Plan, m: nat, e': nat, rest: Plan)
    requires nodes != []
    ensures LowerAll(net, nodes, n, e) == Concat(first, rest) && m == n + |first.nodes|
    ensures rest == LowerAll(net, nodes[1..], m, e') && (rest.nodes != [] <==> AnyEmits(nodes[1..]))
    ensures Within(first.edges, n, m) && (Reaches(first.edges, m) <==> OpenEnd(nodes[0]))
  {
    first := Lower(net, nodes[0], n, e);
    m, e' := n + |first.nodes|, e + |first.edges|;
    rest := LowerAll(net, nodes[1..], m, e');
    LowerWithin(net, nodes[0], n, e);
    LowerReaches(net, nodes[0], n, e);
    SilentPlan(net, nodes[1..], m, e');
  }

  lemma FirstPlanReaches(net: Network, nodes: seq<Node>, n: nat, e: nat) returns (m: nat, e': nat, rest: Plan)
    requires nodes != []
    ensures rest == LowerAll(net, nodes[1..], m, e')
    ensures var p := LowerAll(net, nodes, n, e);
            Reaches(p.edges, n + |p.nodes|) == (Reaches(rest.edges, m + |rest.nodes|) || (!AnyEmits(nodes[1..]) && OpenEnd(nodes[0])))
  {
    var first;
    first, m, e', rest := FirstNode(net, nodes, n, e);
    ReachJoin(first, rest, n);
  }

  lemma ReachJoin(first: Plan, rest: Plan, n: nat)
    requires Within(first.edges, n, n + |first.nodes|)
    ensures Reaches(Concat(first, rest).edges, n + |Concat(first, rest).nodes|)
       <==> Reaches(rest.edges, n + |first.nodes| + |rest.nodes|) || (rest.nodes == [] && Reaches(first.edges, n + |first.nodes|))
  {
    assert forall d :: d in first.edges + rest.edges <==> d in first.edges || d in rest.edges;
  }

  lemma PlanConcat(a: seq<Edge<nat>>, b: seq<Edge<nat>>, n: nat, m: nat, hi: nat)
    requires Within(a, n, m) && Within(b, m, hi) && n <= m <= hi
    ensures Within(a + b, n, hi)
  {
    assert forall d :: d in a + b <==> d in a || d in b;
  }

  lemma {:induction false} SilentPlan(net: Network, nodes: seq<Node>, n: nat, e: nat)
    ensures AnyEmits(nodes) <==> LowerAll(net, nodes, n, e).nodes != []
    decreases |nodes|
  {
    if nodes != [] {
      LowerWithin(net, nodes[0], n, e);
      var first := Lower(net, nodes[0], n, e);
      SilentPlan(net, nodes[1..], n + |first.nodes|, e + |first.edges|);
    }
  }

  // ---- Any AST: which self-loops are on existing nodes -------------------------------------------

  /** Some edge leads from a number below hi to itself. */
  ghost predicate LoopBelow(edges: seq<Edge<nat>>, hi: nat) {
    exists d :: d in edges && d.source == d.target && d.source < hi
  }

  /** Below the end of a plan numbered from n, or up to it if something more is emitted after it. */
  function End(p: Plan, n: nat, more: bool): nat {
    n + |p.nodes| + if more then 1 else 0
  }

  /** Somewhere inside, a SEQUENCE goes on after a child that emits nothing, and something is emitted
      later, inside or (more) after the node. */
  predicate SelfLoops(node: Node, more: bool)
    decreases node, 1
  {
    match node
    case Parallel(children) => AnySelfLoops(false, children, more)
    case Sequence(children) => AnySelfLoops(true, children, more)
    case _ => false
  }

  /** The same for a list of children, or of top-level nodes; chain says they form a SEQUENCE. */
  predicate AnySelfLoops(chain: bool, nodes: seq<Node>, more: bool)
    decreases nodes, 0
  {
    if nodes == [] then false
    else
      var later := more || AnyEmits(nodes[1..]);
      || SelfLoops(nodes[0], later)
      || (chain && |nodes| > 1 && !Emits(nodes[0]) && later)
      || AnySelfLoops(chain, nodes[1..], more)
  }

  lemma {:induction false} ChildrenEmit(net: Network, chain: bool, children: seq<Node>, from: nat, c: nat, e: nat)
    ensures AnyEmits(children) <==> LowerChildren(net, chain, children, from, c, e).nodes != []
    decreases |children|
  {
    if children != [] {
      var child, next, rest := FirstChild(net, chain, children, from, c, e);
      LowerEmits(net, children[0], c, e);
      ChildrenEmit(net, chain, children[1..], next, c + |child.nodes|, e + 1);
    }
  }

  lemma {:induction false} LowerSelfLoops(net: Network, node: Node, n: nat, e: nat, more: bool)
    ensures var p := Lower(net, node, n, e);
            LoopBelow(p.edges, End(p, n, more)) <==> SelfLoops(node, more)
    decreases node, 1
  {
    if node.Parallel? || node.Sequence? {
      BlockEdges(net, node, n, e);
      SelfLoopsInside(net, node.Sequence?, node.children, n, n + 1, e, more);
    }
  }

  lemma {:induction false} SelfLoopsInside(net: Network, chain: bool, children: seq<Node>, from: nat, c: nat, e: nat, more: bool)
    requires from <= c && (!chain ==> from < c)
    ensures var p := LowerChildren(net, chain, children, from, c, e);
            LoopBelow(p.edges, End(p, c, more)) == (AnySelfLoops(chain, children, more) || (from == c && children != [] && (more || AnyEmits(children))))
    decreases children, 1
  {
    if children != [] {
      var next, c', rest := FirstSelfLoops(net, chain, children, from, c, e, more);
      SelfLoopsInside(net, chain, children[1..], next, c', e + 1, more);
    }
  }

  predicate LoopsFrom(children: seq<Node>, linkLoops: bool, more: bool, restLoops: bool)
    requires children != []
  {
    var later := more || AnyEmits(children[1..]);
    SelfLoops(children[0], later) || (linkLoops && (later || Emits(children[0]))) || restLoops
  }

  /** One turn: the first child, the link to it, and the later children, numbered from c'. */
  lemma {:induction false} FirstSelfLoops(net: Network, chain: bool, children: seq<Node>, from: nat, c: nat, e: nat, more: bool)
    returns (next: nat, c': nat, rest: Plan)
    requires children != [] && from <= c && (!chain ==> from < c)
    ensures rest == LowerChildren(net, chain, children[1..], next, c', e + 1)
    ensures next <= c' && (!chain ==> next < c') && (next == c' <==> chain && !Emits(children[0]))
    ensures var p := LowerChildren(net, chain, children, from, c, e);
            LoopBelow(p.edges, End(p, c, more)) == LoopsFrom(children, from == c, more, LoopBelow(rest.edges, End(rest, c', more)))
    decreases children, 0
  {
    var child;
    child, next, rest := FirstChild(net, chain, children, from, c, e);
    c' := c + |child.nodes|;
    var later := more || AnyEmits(children[1..]);
    ChildrenEmit(net, chain, children[1..], next, c', e + 1);
    LowerSelfLoops(net, children[0], c, e, later);
    LowerWithin(net, children[0], c, e);
    LinkLoops(child, Edge(e, from, c), rest, more, later);
  }

  /** A self-loop of a child counts if it is below the child's end, or anything follows. */
  lemma LinkLoops(child: Plan, link: Edge<nat>, rest: Plan, more: bool, later: bool)
    requires Within(child.edges, link.target, link.target + |child.nodes|)
    requires later <==> more || rest.nodes != []
    ensures LoopBelow(Linked(child, link, rest).edges, End(Linked(child, link, rest), link.target, more))
       <==> || LoopBelow(child.edges, End(child, link.target, later))
            || (link.source == link.target && (later || child.nodes != []))
            || LoopBelow(rest.edges, End(rest, link.target + |child.nodes|, more))
  {
    Members(child.edges, link, rest.edges);
    assert link in child.edges + [link] + rest.edges;
  }

  lemma {:induction false} PlanSelfLoops(net: Network, nodes: seq<Node>, n: nat, e: nat)
    ensures var p := LowerAll(net, nodes, n, e);
            LoopBelow(p.edges, n + |p.nodes|) <==> AnySelfLoops(false, nodes, false)
    decreases |nodes|
  {
    if nodes != [] {
      var m, e', rest := FirstPlanLoops(net, nodes, n, e);
      PlanSelfLoops(net, nodes[1..], m, e');
    }
  }

  lemma FirstPlanLoops(net: Network, nodes: seq<Node>, n: nat, e: nat) returns (m: nat, e': nat, rest: Plan)
    requires nodes != []
    ensures rest == LowerAll(net, nodes[1..], m, e')
    ensures var p := LowerAll(net, nodes, n, e);
            LoopBelow(p.edges, n + |p.nodes|) == LoopsFrom(nodes, false, false, LoopBelow(rest.edges, m + |rest.nodes|))
  {
    var first := FirstLooping(net, nodes, n, e);
    m, e' := n + |first.nodes|, e + |first.edges|;
    rest := LowerAll(net, nodes[1..], m, e');
    LoopJoin(first, rest, n, AnyEmits(nodes[1..]));
  }

  lemma FirstLooping(net: Network, nodes: seq<Node>, n: nat, e: nat) returns (first: Plan)
    requires nodes != []
    ensures var m, later := n + |first.nodes|, AnyEmits(nodes[1..]);
            var rest := LowerAll(net, nodes[1..], m, e + |first.edges|);
            && LowerAll(net, nodes, n, e) == Concat(first, rest) && (later <==> rest.nodes != [])
            && Within(first.edges, n, m) && (LoopBelow(first.edges, End(first, n, later)) <==> SelfLoops(nodes[0], later))
  {
    first := Lower(net, nodes[0], n, e);
    LowerSelfLoops(net, nodes[0], n, e, AnyEmits(nodes[1..]));
    LowerWithin(net, nodes[0], n, e);
    SilentPlan(net, nodes[1..], n + |first.nodes|, e + |first.edges|);
  }

  lemma LoopJoin(first: Plan, rest: Plan, n: nat, later: bool)
    requires Within(first.edges, n, n + |first.nodes|)
    requires later <==> rest.nodes != []
    ensures LoopBelow(Concat(first, rest).edges, n + |Concat(first, rest).nodes|)
       <==> LoopBelow(first.edges, End(first, n, later)) || LoopBelow(rest.edges, n + |first.nodes| + |rest.nodes|)
  {
    assert forall d :: d in first.edges + rest.edges <==> d in first.edges || d in rest.edges;
  }

  // ---- Any AST: which edges link a block to its children ---------------------------------------------

  /** How many workflow nodes the children before this one become. */
  function Before(children: seq<Node>, j: nat): nat
    requires j <= |children|
  {
    |EmittedAll(children[..j])|
  }

  lemma {:induction false} BeforeStep(children: seq<Node>, j: nat)
    requires 0 < j <= |children|
    ensures Before(children, j) == |Emitted(children[0])| + Before(children[1..], j - 1)
  {
    assert children[..j][1..] == children[1..][..j - 1];
  }

  lemma {:induction false} ChildLink(net: Network, chain: bool, children: seq<Node>, from: nat, c: nat, e: nat, j: nat)
    requires j < |children|
    ensures Edge(e + j, if chain && j > 0 then c + Before(children, j - 1) else from, c + Before(children, j))
         in LowerChildren(net, chain, children, from, c, e).edges
    decreases children
  {
    hide Lower;
    var child, next, rest := FirstChild(net, chain, children, from, c, e);
    if j == 0 {
      assert Edge(e, from, c) in child.edges + [Edge(e, from, c)] + rest.edges;
    } else {
      LowerNumbers(net, children[0], c, e);
      BeforeStep(children, j);
      if j > 1 {
        BeforeStep(children, j - 1);
      }
      ChildLink(net, chain, children[1..], next, c + |child.nodes|, e + 1, j - 1);
    }
  }

  /** In any AST, an edge links to each child of a PARALLEL from the block, and to each child of a SEQUENCE
      from the child before it, or from the block to the first. */
  lemma {:induction false} BlockLinks(net: Network, children: seq<Node>, n: nat, e: nat, j: nat)
    requires j < |children|
    ensures Edge(e + j, n, n + 1 + Before(children, j)) in Lower(net, Parallel(children), n, e).edges
    ensures Edge(e + j, if j == 0 then n else n + 1 + Before(children, j - 1), n + 1 + Before(children, j))
         in Lower(net, Sequence(children), n, e).edges
  {
    ChildLink(net, false, children, n, n + 1, e, j);
    ChildLink(net, true, children, n, n + 1, e, j);
    hide LowerChildren, Before;
  }
}
