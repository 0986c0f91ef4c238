/** The planner's conversion and validation loops (src/praxis_sdk/dsl/planner.py:334-551), proved
    against Lowering, and what validate_plan says about a lowered plan. */
module Planner {
  import opened DslTypes
  import opened CycleCheck
  import opened Lowering
  import Sequences

  // ---- Conversion --------------------------------------------------------------------------------

  method AstToWorkflowPlan(net: Network, ast: seq<Node>) returns (plan: Plan)
    ensures plan == LowerAll(net, ast, 0, 0)
  {
    var nodeCounter, edgeCounter := 0, 0;
    plan := EMPTY_PLAN;
    assert LowerAll(net, ast, 0, 0) == PlanFrom(net, ast, 0, plan) by {
      assert ast[0..] == ast;
    }
    for i := 0 to |ast|
      invariant nodeCounter == |plan.nodes| && edgeCounter == |plan.edges|
      invariant LowerAll(net, ast, 0, 0) == PlanFrom(net, ast, i, plan)
    {
      PlanAdvance(net, ast, i, plan);
      var nodes, edges := ConvertAstNode(net, ast[i], nodeCounter, edgeCounter);
      plan := Plan(plan.nodes + nodes, plan.edges + edges);
      nodeCounter := nodeCounter + |nodes|;
      edgeCounter := edgeCounter + |edges|;
    }
    assert Concat(plan, EMPTY_PLAN) == plan;
  }

  /** The plan of the whole list with the nodes before the one at i already converted. */
  function PlanFrom(net: Network, ast: seq<Node>, i: nat, done: Plan): Plan
    requires i <= |ast|
  {
    Concat(done, LowerAll(net, ast[i..], |done.nodes|, |done.edges|))
  }

  lemma PlanAdvance(net: Network, ast: seq<Node>, i: nat, done: Plan)
    requires i < |ast|
    ensures var p := Lower(net, ast[i], |done.nodes|, |done.edges|);
            PlanFrom(net, ast, i, done) == PlanFrom(net, ast, i + 1, Plan(done.nodes + p.nodes, done.edges + p.edges))
  {
    var p := Lower(net, ast[i], |done.nodes|, |done.edges|);
    Sequences.Unfold(ast, i);
    ConcatAssoc(done, p, LowerAll(net, ast[i + 1..], |done.nodes| + |p.nodes|, |done.edges| + |p.edges|));
  }

  method ConvertAstNode(net: Network, astNode: Node, nodeStartId: nat, edgeStartId: nat)
    returns (nodes: seq<PlanNode>, edges: seq<Edge<nat>>)
    ensures Plan(nodes, edges) == Lower(net, astNode, nodeStartId, edgeStartId)
    decreases astNode, 1
  {
    match astNode {
      case Call(tool, args) =>
        nodes, edges := [ToolNode(net, tool, args, nodeStartId)], [];
      case Parallel(children) =>
        nodes, edges := ConvertChildren(net, astNode, nodeStartId, edgeStartId);
      case Sequence(children) =>
        nodes, edges := ConvertChildren(net, astNode, nodeStartId, edgeStartId);
      case Agent(id) =>
        nodes, edges := [AgentNode(net, id, nodeStartId)], [];
      case _ =>
        nodes, edges := [], [];
    }
  }

  /** The two block cases; they differ in the node data and in what the next child is linked from. */
  method ConvertChildren(net: Network, block: Node, nodeStartId: nat, edgeStartId: nat)
    returns (nodes: seq<PlanNode>, edges: seq<Edge<nat>>)
    requires block.Parallel? || block.Sequence?
    ensures Plan(nodes, edges) == Lower(net, block, nodeStartId, edgeStartId)
    decreases block, 0
  {
    nodes, edges := [BlockNode(block, nodeStartId)], [];
    var prevNodeId: nat, childNodeId: nat, edgeId: nat := nodeStartId, nodeStartId + 1, edgeStartId;
    ghost var whole := Lower(net, block, nodeStartId, edgeStartId);
    assert whole == ChildrenFrom(net, block, 0, Plan(nodes, edges), prevNodeId, childNodeId, edgeId) by {
      assert block.children[0..] == block.children;
    }
    for i := 0 to |block.children|
      invariant whole == ChildrenFrom(net, block, i, Plan(nodes, edges), prevNodeId, childNodeId, edgeId)
    {
      ChildrenAdvance(net, block, i, Plan(nodes, edges), prevNodeId, childNodeId, edgeId);
      var childNodes, childEdges := ConvertAstNode(net, block.children[i], childNodeId, edgeId);
      nodes := nodes + childNodes;
      edges := edges + childEdges;
      edges := edges + [Edge(edgeId, prevNodeId, childNodeId)];
      if block.Sequence? {
        prevNodeId := childNodeId;
      }
      childNodeId := childNodeId + |childNodes|;
      edgeId := edgeId + 1;
    }
    assert Concat(Plan(nodes, edges), EMPTY_PLAN) == Plan(nodes, edges);
  }

  /** The plan of a block with the children before the one at i already converted. */
  function ChildrenFrom(net: Network, block: Node, i: nat, done: Plan, from: nat, c: nat, e: nat): Plan
    requires (block.Parallel? || block.Sequence?) && i <= |block.children|
  {
    Concat(done, LowerChildren(net, block.Sequence?, block.children[i..], from, c, e))
  }

  lemma ChildrenAdvance(net: Network, block: Node, i: nat, done: Plan, from: nat, c: nat, e: nat)
    requires (block.Parallel? || block.Sequence?) && i < |block.children|
    ensures var child := Lower(net, block.children[i], c, e);
            ChildrenFrom(net, block, i, done, from, c, e)
            == ChildrenFrom(net, block, i + 1, Plan(done.nodes + child.nodes, done.edges + child.edges + [Edge(e, from, c)]),
                            if block.Sequence? then c else from, c + |child.nodes|, e + 1)
  {
    Sequences.Unfold(block.children, i);
    var child, next, rest := FirstChild(net, block.Sequence?, block.children[i..], from, c, e);
    ConcatStep(done, child, Edge(e, from, c), rest);
  }

  lemma ConcatAssoc(a: Plan, b: Plan, c: Plan)
    ensures Concat(Concat(a, b), c) == Concat(a, Concat(b, c))
  {
    Sequences.Assoc(a.nodes, b.nodes, c.nodes);
    Sequences.Assoc(a.edges, b.edges, c.edges);
  }

  lemma ConcatStep(a: Plan, child: Plan, link: Edge<nat>, rest: Plan)
    ensures Concat(a, Linked(child, link, rest))
         == Concat(Plan(a.nodes + child.nodes, a.edges + child.edges + [link]), rest)
  {
    Sequences.Assoc(a.nodes, child.nodes, rest.nodes);
    Sequences.Assoc(a.edges, child.edges, [link]);
    Sequences.Assoc(a.edges, child.edges + [link], rest.edges);
  }

  // ---- Validation --------------------------------------------------------------------------------

  datatype PlanError =
    | ToolNotAvailable(tool: string)
    | SourceNotFound(source: nat)
    | TargetNotFound(target: nat)
    | CircularDependencies

  function MissingTools(required: seq<string>, available: set<string>): seq<PlanError> {
    if required == [] then []
    else (if required[0] in available then [] else [ToolNotAvailable(required[0])]) + MissingTools(required[1..], available)
  }

  function EdgeErrors(ids: set<nat>, d: Edge<nat>): seq<PlanError> {
    (if d.source in ids then [] else [SourceNotFound(d.source)]) + (if d.target in ids then [] else [TargetNotFound(d.target)])
  }

  function DanglingEdges(ids: set<nat>, edges: seq<Edge<nat>>): seq<PlanError> {
    if edges == [] then [] else EdgeErrors(ids, edges[0]) + DanglingEdges(ids, edges[1..])
  }

  function Ids(nodes: seq<PlanNode>): (ids: seq<nat>)
    ensures |ids| == |nodes|
  {
    seq(|nodes|, i requires 0 <= i < |nodes| => nodes[i].id)
  }

  ghost predicate HasId(nodes: seq<PlanNode>, id: nat) {
    exists n :: n in nodes && n.id == id
  }

  /** What validate_plan finds: each required tool that is not available, and each end of an edge that is
      no node of the plan. */
  ghost predicate Finds(e: PlanError, plan: Plan, requiredTools: seq<string>, availableTools: set<string>) {
    match e
    case ToolNotAvailable(tool) => tool in requiredTools && tool !in availableTools
    case SourceNotFound(id) => !HasId(plan.nodes, id) && exists d :: d in plan.edges && d.source == id
    case TargetNotFound(id) => !HasId(plan.nodes, id) && exists d :: d in plan.edges && d.target == id
    case CircularDependencies => false
  }

  lemma {:induction false} MissingToolsExactly(required: seq<string>, available: set<string>, e: PlanError)
    ensures e in MissingTools(required, available) <==> e.ToolNotAvailable? && e.tool in required && e.tool !in available
  {
    if required != [] {
      MissingToolsExactly(required[1..], available, e);
      assert required == [required[0]] + required[1..];
    }
  }

  lemma {:induction false} DanglingEdgesExactly(ids: set<nat>, edges: seq<Edge<nat>>, e: PlanError)
    ensures e in DanglingEdges(ids, edges) <==>
            || (e.SourceNotFound? && e.source !in ids && exists d :: d in edges && d.source == e.source)
            || (e.TargetNotFound? && e.target !in ids && exists d :: d in edges && d.target == e.target)
  {
    if edges != [] {
      DanglingEdgesExactly(ids, edges[1..], e);
      assert edges == [edges[0]] + edges[1..];
    }
  }

  lemma IdsExactly(nodes: seq<PlanNode>, id: nat)
    ensures id in IdSet(Ids(nodes)) <==> HasId(nodes, id)
  {
    var ids := Ids(nodes);
    if id in IdSet(ids) {
      var i :| 0 <= i < |ids| && ids[i] == id;
      assert nodes[i] in nodes;
    }
    if HasId(nodes, id) {
      var n :| n in nodes && n.id == id;
      var i :| 0 <= i < |nodes| && nodes[i] == n;
      assert ids[i] == id;
    }
  }

  lemma FoundExactly(plan: Plan, requiredTools: seq<string>, availableTools: set<string>, e: PlanError)
    ensures e in MissingTools(requiredTools, availableTools) + DanglingEdges(IdSet(Ids(plan.nodes)), plan.edges)
       <==> Finds(e, plan, requiredTools, availableTools)
  {
    MissingToolsExactly(requiredTools, availableTools, e);
    DanglingEdgesExactly(IdSet(Ids(plan.nodes)), plan.edges, e);
    if e.SourceNotFound? {
      IdsExactly(plan.nodes, e.source);
    }
    if e.TargetNotFound? {
      IdsExactly(plan.nodes, e.target);
    }
  }

  /** validate_plan */
  method ValidatePlan(plan: Plan, requiredTools: seq<string>, availableTools: set<string>) returns (errors: seq<PlanError>)
    ensures var ids := IdSet(Ids(plan.nodes));
            var found := MissingTools(requiredTools, availableTools) + DanglingEdges(ids, plan.edges);
            errors == if Cyclic(ids, plan.edges) then found + [CircularDependencies] else found
    ensures forall e :: e in errors && e != CircularDependencies <==> Finds(e, plan, requiredTools, availableTools)
    ensures CircularDependencies in errors <==> Cyclic(IdSet(Ids(plan.nodes)), plan.edges)
  {
    errors := CheckTools(requiredTools, availableTools);
    var dangling := CheckEdges(IdSet(Ids(plan.nodes)), plan.edges);
    errors := errors + dangling;
    forall e ensures e in errors <==> Finds(e, plan, requiredTools, availableTools) {
      FoundExactly(plan, requiredTools, availableTools, e);
    }
    var circular := HasCircularDependencies(Ids(plan.nodes), plan.edges);
    if circular {
      errors := errors + [CircularDependencies];
    }
  }

  method CheckTools(requiredTools: seq<string>, availableTools: set<string>) returns (errors: seq<PlanError>)
    ensures errors == MissingTools(requiredTools, availableTools)
  {
    errors := [];
    for i := 0 to |requiredTools|
      invariant MissingTools(requiredTools, availableTools) == errors + MissingTools(requiredTools[i..], availableTools)
    {
      Sequences.Unfold(requiredTools, i);
      if requiredTools[i] !in availableTools {
        errors := errors + [ToolNotAvailable(requiredTools[i])];
      }
    }
  }

  method CheckEdges(nodeIds: set<nat>, edges: seq<Edge<nat>>) returns (errors: seq<PlanError>)
    ensures errors == DanglingEdges(nodeIds, edges)
  {
    errors := [];
    for i := 0 to |edges|
      invariant DanglingEdges(nodeIds, edges) == errors + DanglingEdges(nodeIds, edges[i..])
    {
      Sequences.Unfold(edges, i);
      Sequences.Assoc(errors, EdgeErrors(nodeIds, edges[i]), DanglingEdges(nodeIds, edges[i + 1..]));
      ghost var before := errors;
      if edges[i].source !in nodeIds {
        errors := errors + [SourceNotFound(edges[i].source)];
      }
      if edges[i].target !in nodeIds {
        errors := errors + [TargetNotFound(edges[i].target)];
      }
      assert errors == before + EdgeErrors(nodeIds, edges[i]);
    }
  }

  lemma {:induction false} NothingDangles(ids: set<nat>, edges: seq<Edge<nat>>)
    ensures DanglingEdges(ids, edges) == [] <==> forall d :: d in edges ==> d.source in ids && d.target in ids
  {
    if edges != [] {
      NothingDangles(ids, edges[1..]);
      assert edges == [edges[0]] + edges[1..];
    }
  }

  lemma {:induction false} PathAscends(ids: set<nat>, edges: seq<Edge<nat>>, p: seq<nat>, i: nat)
    requires Path(ids, edges, p) && forall d :: d in edges ==> d.source <= d.target
    requires i < |p|
    ensures p[0] <= p[i]
    decreases i
  {
    if i > 0 {
      PathAscends(ids, edges, p, i - 1);
      assert Arrow(ids, edges, p[i - 1], p[i]);
    }
  }

  /** When no edge goes down, the only cycles are self-loops of plan nodes. */
  lemma OnlySelfLoops(ids: set<nat>, edges: seq<Edge<nat>>)
    requires forall d :: d in edges ==> d.source <= d.target
    ensures Cyclic(ids, edges) <==> exists d :: d in edges && d.source == d.target && d.source in ids
  {
    if p: seq<nat> :| Cycle(ids, edges, p) {
      assert Arrow(ids, edges, p[0], p[1]);
      var q := p[1..];
      forall k {:trigger q[k]} | 0 < k < |q| ensures Arrow(ids, edges, q[k - 1], q[k]) {
        assert p[k + 1] == q[k];
      }
      PathAscends(ids, edges, q, |q| - 1);
      assert p[1] <= p[|p| - 1] == p[0];
    }
    if d :| d in edges && d.source == d.target && d.source in ids {
      var p := [d.source, d.target];
      assert Arrow(ids, edges, p[0], p[1]);
      assert Cycle(ids, edges, p);
    }
  }

  lemma PlanIds(net: Network, ast: seq<Node>)
    ensures var plan := LowerAll(net, ast, 0, 0);
            forall k: nat :: k in IdSet(Ids(plan.nodes)) <==> k < |plan.nodes|
  {
    var plan := LowerAll(net, ast, 0, 0);
    PlanNumbers(net, ast, 0, 0);
    var ids := Ids(plan.nodes);
    forall i | 0 <= i < |plan.nodes| ensures ids[i] == i {
      assert Describes(net, plan.nodes[i], EmittedAll(ast)[i], 0 + i);
    }
    forall k: nat | k < |plan.nodes| ensures k in IdSet(ids) {
      assert ids[k] == k;
    }
  }

  /** Exactly when a lowered AST is reported as circular: some SEQUENCE goes on after a child that
      becomes no node, and a later part of the program becomes one. */
  lemma CircularExactly(net: Network, ast: seq<Node>)
    ensures var plan := LowerAll(net, ast, 0, 0);
            Cyclic(IdSet(Ids(plan.nodes)), plan.edges) <==> AnySelfLoops(false, ast, false)
  {
    var plan := LowerAll(net, ast, 0, 0);
    PlanIds(net, ast);
    PlanWithin(net, ast, 0, 0);
    PlanSelfLoops(net, ast, 0, 0);
    OnlySelfLoops(IdSet(Ids(plan.nodes)), plan.edges);
  }

  /** Exactly when it is reported as dangling: the last node that emits anything ends in a child that
      becomes no node. Such an edge points just past the last workflow node. */
  lemma DanglingExactly(net: Network, ast: seq<Node>)
    ensures var plan := LowerAll(net, ast, 0, 0);
            DanglingEdges(IdSet(Ids(plan.nodes)), plan.edges) != [] <==> PlanOpen(ast)
  {
    var plan := LowerAll(net, ast, 0, 0);
    var ids := IdSet(Ids(plan.nodes));
    PlanIds(net, ast);
    PlanWithin(net, ast, 0, 0);
    PlanReaches(net, ast, 0, 0);
    NothingDangles(ids, plan.edges);
    if d :| d in plan.edges && !(d.source in ids && d.target in ids) {
      assert d.target == |plan.nodes|;
      assert Reaches(plan.edges, |plan.nodes|);
    }
    if Reaches(plan.edges, |plan.nodes|) {
      var d :| d in plan.edges && d.target == |plan.nodes|;
      assert !(d.target in ids);
    }
  }

  /** A plan whose blocks have only emitting descendants passes both checks. */
  lemma CleanPlansPass(net: Network, ast: seq<Node>)
    requires AllClean(ast)
    ensures var plan := LowerAll(net, ast, 0, 0);
            var ids := IdSet(Ids(plan.nodes));
            DanglingEdges(ids, plan.edges) == [] && !Cyclic(ids, plan.edges)
  {
    var plan := LowerAll(net, ast, 0, 0);
    var ids := IdSet(Ids(plan.nodes));
    Forest(net, ast);
    PlanIds(net, ast);
    NothingDangles(ids, plan.edges);
    OnlySelfLoops(ids, plan.edges);
  }

  /** Lowering turns a SEQUENCE of a TASK and a CALL into a circular plan, whatever their arguments. */
  lemma TaskThenCallIsCircular(net: Network, task: Args, tool: string, args: Args)
    ensures var plan := LowerAll(net, [Sequence([Task(task), Call(tool, args)])], 0, 0);
            Cyclic(IdSet(Ids(plan.nodes)), plan.edges)
  {
    var ast := [Sequence([Task(task), Call(tool, args)])];
    assert ast[0].children[1..] == [Call(tool, args)];
    assert AnySelfLoops(true, ast[0].children, false);
    CircularExactly(net, ast);
  }

  /** And a PARALLEL of a CALL and a TASK into one with a dangling edge. */
  lemma CallThenTaskDangles(net: Network, tool: string, args: Args, task: Args)
    ensures var plan := LowerAll(net, [Parallel([Call(tool, args), Task(task)])], 0, 0);
            DanglingEdges(IdSet(Ids(plan.nodes)), plan.edges) != []
  {
    var ast := [Parallel([Call(tool, args), Task(task)])];
    assert ast[0].children[1..] == [Task(task)];
    assert LastOpen(ast[0].children) == LastOpen([Task(task)]);
    assert OpenEnd(ast[0]);
    DanglingExactly(net, ast);
  }
}
