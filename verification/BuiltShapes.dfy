/** What a built AST can look like (src/praxis_sdk/dsl/ast_builder.py:256-383, 531-567). */
module BuiltShapes {
  import opened Wrappers
  import opened DslTypes
  import opened Arguments
  import opened Parsing

  // ---- Shape ---------------------------------------------------------------------------------------

  /** CALL, TASK, AGENT and plain commands. */
  predicate PlainLeaf(node: Node) {
    node.Call? || node.Task? || node.Agent? || node.Command?
  }

  /** Below a PARALLEL: plain leaves and PARALLELs, all the way down; below a SEQUENCE alike. */
  predicate OneKind(parallel: bool, node: Node)
    decreases node, 1
  {
    match node
    case Parallel(children) => parallel && AllOneKind(parallel, children)
    case Sequence(children) => !parallel && AllOneKind(parallel, children)
    case _ => PlainLeaf(node)
  }

  predicate AllOneKind(parallel: bool, nodes: seq<Node>)
    decreases nodes, 0
  {
    nodes == [] || (OneKind(parallel, nodes[0]) && AllOneKind(parallel, nodes[1..]))
  }

  predicate AllPlainLeaves(nodes: seq<Node>) {
    nodes == [] || (PlainLeaf(nodes[0]) && AllPlainLeaves(nodes[1..]))
  }

  /** At the top level anything goes, but blocks hold only their own kind and an IF only leaves. */
  predicate WellShaped(node: Node) {
    match node
    case Parallel(children) => AllOneKind(true, children)
    case Sequence(children) => AllOneKind(false, children)
    case Conditional(_, children, elseChildren) => AllPlainLeaves(children) && AllPlainLeaves(elseChildren)
    case _ => true
  }

  predicate AllWellShaped(nodes: seq<Node>) {
    nodes == [] || (WellShaped(nodes[0]) && AllWellShaped(nodes[1..]))
  }

  lemma LeafShape(parse: ValueParser, t: Token)
    ensures var k, leaf := KeywordOf(t), LeafNode(parse, t);
            && (leaf.Some? && k != WORKFLOW && !OpensBlock(k) ==> PlainLeaf(leaf.value))
            && (leaf.Some? && k == WORKFLOW ==> leaf.value.Workflow?)
  {
  }

  lemma {:induction false} BlockShape(parse: ValueParser, ts: seq<Token>, i: nat, parallel: bool)
    requires i <= |ts| && ParseBlock(parse, ts, i, parallel).Ok?
    ensures AllOneKind(parallel, ParseBlock(parse, ts, i, parallel).value)
    decreases |ts| - i
  {
    if i < |ts| && !EndsBlock(parallel, KeywordOf(ts[i])) {
      var Ok(node, j) := ParseNode(parse, ts, i);
      LeafShape(parse, ts[i]);
      if OpensBlock(KeywordOf(ts[i])) {
        BlockShape(parse, ts, i + 1, parallel);
      }
      BlockShape(parse, ts, j, parallel);
      var rest := ParseBlock(parse, ts, j, parallel).value;
      assert ([node] + rest)[1..] == rest;
    }
  }

  lemma {:induction false} BranchShape(parse: ValueParser, ts: seq<Token>, i: nat, inElse: bool)
    requires i <= |ts| && ParseBranches(parse, ts, i, inElse).Ok?
    ensures var b := ParseBranches(parse, ts, i, inElse).value;
            AllPlainLeaves(b.thenPart) && AllPlainLeaves(b.elsePart)
    decreases |ts| - i
  {
    if i < |ts| {
      var k := KeywordOf(ts[i]);
      if k == ELSE {
        BranchShape(parse, ts, i + 1, true);
      } else if !LeavesIf(k) && k != ENDIF && k != END_IF {
        var Ok(node, j) := ParseNode(parse, ts, i);
        LeafShape(parse, ts[i]);
        BranchShape(parse, ts, j, inElse);
        var rest := ParseBranches(parse, ts, j, inElse).value;
        assert ([node] + rest.thenPart)[1..] == rest.thenPart && ([node] + rest.elsePart)[1..] == rest.elsePart;
        assert [] + rest.thenPart == rest.thenPart && [] + rest.elsePart == rest.elsePart;
      }
    }
  }

  lemma NodeShape(parse: ValueParser, ts: seq<Token>, i: nat)
    requires i < |ts| && ParseNode(parse, ts, i).Ok?
    ensures WellShaped(ParseNode(parse, ts, i).value)
  {
    match KeywordOf(ts[i]) {
      case PARALLEL => BlockShape(parse, ts, i + 1, true);
      case SEQUENCE => BlockShape(parse, ts, i + 1, false);
      case IF => BranchShape(parse, ts, i + 1, false);
      case _ =>
    }
  }

  /** In every parsed AST a PARALLEL has no SEQUENCE, CONDITIONAL or WORKFLOW anywhere below it, a
      SEQUENCE no PARALLEL, CONDITIONAL or WORKFLOW, and both branches of a CONDITIONAL hold only leaves. */
  lemma {:induction false} ParsedShape(parse: ValueParser, ts: seq<Token>, i: nat)
    requires i <= |ts| && ParseAll(parse, ts, i).Ok?
    ensures AllWellShaped(ParseAll(parse, ts, i).value)
    decreases |ts| - i
  {
    if i < |ts| {
      var Ok(node, j) := ParseNode(parse, ts, i);
      NodeShape(parse, ts, i);
      ParsedShape(parse, ts, j);
      var rest := ParseAll(parse, ts, j).value;
      assert ([node] + rest)[1..] == rest;
    }
  }

  /** No PARALLEL or SEQUENCE without children, anywhere: in children or in else branches. */
  predicate NoEmptyBlock(node: Node)
    decreases node, 1
  {
    match node
    case Parallel(children) => children != [] && NoEmptyBlocks(children)
    case Sequence(children) => children != [] && NoEmptyBlocks(children)
    case Conditional(_, children, elseChildren) => NoEmptyBlocks(children) && NoEmptyBlocks(elseChildren)
    case _ => true
  }

  predicate NoEmptyBlocks(nodes: seq<Node>)
    decreases nodes, 0
  {
    nodes == [] || (NoEmptyBlock(nodes[0]) && NoEmptyBlocks(nodes[1..]))
  }

  lemma {:induction false} LeavesHaveNoBlocks(nodes: seq<Node>)
    requires AllPlainLeaves(nodes)
    ensures NoEmptyBlocks(nodes)
  {
    if nodes != [] {
      LeavesHaveNoBlocks(nodes[1..]);
    }
  }

  lemma {:induction false} ValidInside(parallel: bool, nodes: seq<Node>)
    requires AllOneKind(parallel, nodes) && AllValid(nodes)
    ensures NoEmptyBlocks(nodes)
    decreases nodes, 0
  {
    if nodes != [] {
      if nodes[0].Parallel? || nodes[0].Sequence? {
        ValidInside(parallel, nodes[0].children);
      }
      ValidInside(parallel, nodes[1..]);
    }
  }

  lemma {:induction false} ValidAtTop(nodes: seq<Node>)
    requires AllWellShaped(nodes) && AllValid(nodes)
    ensures NoEmptyBlocks(nodes)
  {
    if nodes != [] {
      match nodes[0] {
        case Parallel(children) => ValidInside(true, children);
        case Sequence(children) => ValidInside(false, children);
        case Conditional(_, children, elseChildren) =>
          LeavesHaveNoBlocks(children);
          LeavesHaveNoBlocks(elseChildren);
        case _ =>
      }
      ValidAtTop(nodes[1..]);
    }
  }

  /** Validation never looks into else branches, and still no built AST has an empty block anywhere. */
  lemma BuiltShape(parse: ValueParser, ts: seq<Token>)
    requires BuildAst(parse, ts).Built?
    ensures AllWellShaped(BuildAst(parse, ts).nodes) && NoEmptyBlocks(BuildAst(parse, ts).nodes)
  {
    ParsedShape(parse, ts, 0);
    ValidAtTop(BuildAst(parse, ts).nodes);
  }
}
