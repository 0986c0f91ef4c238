/** Recursive descent and recursive validation decide and build what one left-to-right scan with a
    small state does. The scan lists the nodes in pre-order with their depth; it never looks back. */
module LinearScan {
  import opened DslTypes
  import opened Arguments
  import opened Parsing
  import Sequences

  /** What is open before a token. A block of another kind, or any stop token, closes everything. */
  datatype Mode = Top | InParallel(depth: nat) | InSequence(depth: nat) | InIf(inElse: bool)

  /** The mode in which a token is read: the stop tokens of an open block are read at the top. */
  function ReadIn(m: Mode, k: Keyword): Mode {
    match m
    case Top => Top
    case InParallel(_) => if EndsBlock(true, k) then Top else m
    case InSequence(_) => if EndsBlock(false, k) then Top else m
    case InIf(_) => if LeavesIf(k) then Top else m
  }

  /** ELSE, ENDIF and END_IF leave no node when they are read inside an IF. */
  predicate Absorbed(m: Mode, k: Keyword) {
    ReadIn(m, k).InIf? && (k == ELSE || k == ENDIF || k == END_IF)
  }

  function After(m: Mode, k: Keyword): Mode {
    match ReadIn(m, k)
    case Top =>
      (match k
       case PARALLEL => InParallel(1)
       case SEQUENCE => InSequence(1)
       case IF => InIf(false)
       case _ => Top)
    case InParallel(d) => if k == PARALLEL then InParallel(d + 1) else InParallel(d)
    case InSequence(d) => if k == SEQUENCE then InSequence(d + 1) else InSequence(d)
    case InIf(inElse) =>
      if k == ELSE then InIf(true) else if k == ENDIF || k == END_IF then Top else InIf(inElse)
  }

  function Depth(m: Mode): nat {
    match m
    case Top => 0
    case InParallel(d) => d
    case InSequence(d) => d
    case InIf(_) => 1
  }

  /** A node without its children, at some depth, in an else branch or not. */
  datatype Mark = Mark(depth: nat, inElse: bool, shape: Node)

  /** The node a token stands for, without its children. */
  function ShapeOf(parse: ValueParser, t: Token): Node {
    match KeywordOf(t)
    case PARALLEL => Parallel([])
    case SEQUENCE => Sequence([])
    case IF => Conditional(ConditionOf(t), [], [])
    case CALL => if t.args == [] then Call("", map[]) else LeafNode(parse, t).value
    case _ => LeafNode(parse, t).value
  }

  function Scan(parse: ValueParser, ts: seq<Token>, i: nat, m: Mode): seq<Mark>
    requires i <= |ts|
    decreases |ts| - i
  {
    if i == |ts| then []
    else
      var k := KeywordOf(ts[i]);
      var rest := Scan(parse, ts, i + 1, After(m, k));
      if Absorbed(m, k) then rest
      else [Mark(Depth(ReadIn(m, k)), ReadIn(m, k) == InIf(true), ShapeOf(parse, ts[i]))] + rest
  }

  // ---- The pre-order profile of an AST -----------------------------------------------------------

  function Shallow(node: Node): Node {
    match node
    case Parallel(_) => Parallel([])
    case Sequence(_) => Sequence([])
    case Conditional(c, _, _) => Conditional(c, [], [])
    case _ => node
  }

  function Profile(node: Node, depth: nat, inElse: bool): seq<Mark>
    decreases node, 1
  {
    [Mark(depth, inElse, Shallow(node))] +
    match node
    case Parallel(children) => ProfileAll(children, depth + 1, false)
    case Sequence(children) => ProfileAll(children, depth + 1, false)
    case Conditional(_, children, elseChildren) =>
      ProfileAll(children, depth + 1, false) + ProfileAll(elseChildren, depth + 1, true)
    case _ => []
  }

  function ProfileAll(nodes: seq<Node>, depth: nat, inElse: bool): seq<Mark>
    decreases nodes, 0
  {
    if nodes == [] then [] else Profile(nodes[0], depth, inElse) + ProfileAll(nodes[1..], depth, inElse)
  }

  // ---- Parsing is scanning -----------------------------------------------------------------------

  /** At a stop token, or at the end, an open block is as good as closed. */
  lemma StopIsTop(parse: ValueParser, ts: seq<Token>, i: nat, m: Mode)
    requires i <= |ts|
    requires i == |ts| || ReadIn(m, KeywordOf(ts[i])) == Top
    ensures Scan(parse, ts, i, m) == Scan(parse, ts, i, Top)
  {
  }

  function BlockMode(parallel: bool, depth: nat): Mode {
    if parallel then InParallel(depth) else InSequence(depth)
  }

  lemma StepInBlock(parse: ValueParser, ts: seq<Token>, i: nat, parallel: bool, depth: nat)
    requires i < |ts| && !EndsBlock(parallel, KeywordOf(ts[i]))
    ensures Scan(parse, ts, i, BlockMode(parallel, depth))
         == [Mark(depth, false, ShapeOf(parse, ts[i]))]
            + Scan(parse, ts, i + 1, BlockMode(parallel, if OpensBlock(KeywordOf(ts[i])) then depth + 1 else depth))
  {
    var m, k := BlockMode(parallel, depth), KeywordOf(ts[i]);
    assert ReadIn(m, k) == m && Depth(m) == depth && !Absorbed(m, k);
    assert After(m, k) == BlockMode(parallel, if OpensBlock(k) then depth + 1 else depth);
  }

  lemma StepInIf(parse: ValueParser, ts: seq<Token>, i: nat, inElse: bool)
    requires i < |ts| && BranchChild(KeywordOf(ts[i]))
    ensures Scan(parse, ts, i, InIf(inElse))
         == [Mark(1, inElse, ShapeOf(parse, ts[i]))] + Scan(parse, ts, i + 1, InIf(inElse))
  {
  }

  /** A parsed node has the shape of its first token, and a leaf is only that token. */
  lemma FirstTokenIsShape(parse: ValueParser, ts: seq<Token>, i: nat, depth: nat, inElse: bool)
    requires i < |ts| && ParseNode(parse, ts, i).Ok?
    ensures var Ok(node, j) := ParseNode(parse, ts, i);
            && Shallow(node) == ShapeOf(parse, ts[i])
            && (KeywordOf(ts[i]) == PARALLEL <==> node.Parallel?) && (KeywordOf(ts[i]) == SEQUENCE <==> node.Sequence?)
            && (!OpensBlock(KeywordOf(ts[i])) ==> j == i + 1 && Profile(node, depth, inElse) == [Mark(depth, inElse, Shallow(node))])
  {
  }

  /** The children of a block are scanned one level deeper, up to a token read at the top. */
  lemma {:induction false} BlockIsScanned(parse: ValueParser, ts: seq<Token>, i: nat, parallel: bool, depth: nat)
    requires i <= |ts| && ParseBlock(parse, ts, i, parallel).Ok?
    ensures var Ok(children, j) := ParseBlock(parse, ts, i, parallel);
            && (j == |ts| || EndsBlock(parallel, KeywordOf(ts[j])))
            && Scan(parse, ts, i, BlockMode(parallel, depth)) == ProfileAll(children, depth, false) + Scan(parse, ts, j, Top)
    decreases |ts| - i, 1
  {
    if i == |ts| || EndsBlock(parallel, KeywordOf(ts[i])) {
      StopIsTop(parse, ts, i, BlockMode(parallel, depth));
    } else {
      var Ok(node, j) := ParseNode(parse, ts, i);
      var Ok(rest, l) := ParseBlock(parse, ts, j, parallel);
      ChildIsScanned(parse, ts, i, parallel, depth);
      BlockIsScanned(parse, ts, j, parallel, depth);
      ProfileCons(node, rest, depth, false, Scan(parse, ts, l, Top));
    }
  }

  /** One child of a block; the block goes on behind it. Only a block of the same kind can open there, and
      it ends where the enclosing one does. */
  lemma {:induction false} ChildIsScanned(parse: ValueParser, ts: seq<Token>, i: nat, parallel: bool, depth: nat)
    requires i < |ts| && ParseNode(parse, ts, i).Ok? && !EndsBlock(parallel, KeywordOf(ts[i]))
    ensures var Ok(node, j) := ParseNode(parse, ts, i);
            Scan(parse, ts, i, BlockMode(parallel, depth))
            == Profile(node, depth, false) + Scan(parse, ts, j, BlockMode(parallel, depth))
    decreases |ts| - i, 0
  {
    StepInBlock(parse, ts, i, parallel, depth);
    FirstTokenIsShape(parse, ts, i, depth, false);
    if OpensBlock(KeywordOf(ts[i])) {
      BlockIsScanned(parse, ts, i + 1, parallel, depth + 1);
      var Ok(node, j) := ParseNode(parse, ts, i);
      StopIsTop(parse, ts, j, BlockMode(parallel, depth));
      Sequences.Assoc([Mark(depth, false, Shallow(node))], ProfileAll(node.children, depth + 1, false), Scan(parse, ts, j, Top));
    }
  }

  lemma ProfileCons(node: Node, rest: seq<Node>, depth: nat, inElse: bool, tail: seq<Mark>)
    ensures ProfileAll([node] + rest, depth, inElse) + tail
         == Profile(node, depth, inElse) + (ProfileAll(rest, depth, inElse) + tail)
  {
    assert ([node] + rest)[1..] == rest;
    Sequences.Assoc(Profile(node, depth, inElse), ProfileAll(rest, depth, inElse), tail);
  }

  function ProfileBranches(b: Branches): seq<Mark> {
    ProfileAll(b.thenPart, 1, false) + ProfileAll(b.elsePart, 1, true)
  }

  /** The branches of an IF: the then part first, and once an ELSE has been read, only the else part. */
  lemma {:induction false} BranchesAreScanned(parse: ValueParser, ts: seq<Token>, i: nat, inElse: bool)
    requires i <= |ts| && ParseBranches(parse, ts, i, inElse).Ok?
    ensures var Ok(b, j) := ParseBranches(parse, ts, i, inElse);
            && (inElse ==> b.thenPart == [])
            && Scan(parse, ts, i, InIf(inElse)) == ProfileBranches(b) + Scan(parse, ts, j, Top)
    decreases |ts| - i
  {
    if i == |ts| || LeavesIf(KeywordOf(ts[i])) {
      StopIsTop(parse, ts, i, InIf(inElse));
    } else if KeywordOf(ts[i]) in {ELSE, ENDIF, END_IF} {
      AbsorbedInIf(parse, ts, i, inElse);
      if KeywordOf(ts[i]) == ELSE {
        BranchesAreScanned(parse, ts, i + 1, true);
      }
    } else {
      var Ok(node, j) := ParseNode(parse, ts, i);
      var Ok(rest, l) := ParseBranches(parse, ts, j, inElse);
      LeafInIf(parse, ts, i, inElse);
      BranchesAreScanned(parse, ts, j, inElse);
      BranchesCons(node, inElse, rest, Scan(parse, ts, l, Top));
    }
  }

  lemma AbsorbedInIf(parse: ValueParser, ts: seq<Token>, i: nat, inElse: bool)
    requires i < |ts| && KeywordOf(ts[i]) in {ELSE, ENDIF, END_IF}
    ensures Scan(parse, ts, i, InIf(inElse)) == Scan(parse, ts, i + 1, if KeywordOf(ts[i]) == ELSE then InIf(true) else Top)
  {
    var k := KeywordOf(ts[i]);
    assert Absorbed(InIf(inElse), k);
    assert After(InIf(inElse), k) == if k == ELSE then InIf(true) else Top;
  }

  lemma LeafInIf(parse: ValueParser, ts: seq<Token>, i: nat, inElse: bool)
    requires i < |ts| && ParseNode(parse, ts, i).Ok?
    requires BranchChild(KeywordOf(ts[i]))
    ensures var Ok(node, j) := ParseNode(parse, ts, i);
            j == i + 1 && Scan(parse, ts, i, InIf(inElse)) == Profile(node, 1, inElse) + Scan(parse, ts, j, InIf(inElse))
  {
    StepInIf(parse, ts, i, inElse);
    FirstTokenIsShape(parse, ts, i, 1, inElse);
  }

  lemma BranchesCons(node: Node, inElse: bool, rest: Branches, tail: seq<Mark>)
    requires inElse ==> rest.thenPart == []
    ensures var b := if inElse then Branches([] + rest.thenPart, [node] + rest.elsePart)
                     else Branches([node] + rest.thenPart, [] + rest.elsePart);
            ProfileBranches(b) + tail == Profile(node, 1, inElse) + (ProfileBranches(rest) + tail)
  {
    var elses := ProfileAll(rest.elsePart, 1, true);
    assert [] + rest.elsePart == rest.elsePart && [] + rest.thenPart == rest.thenPart;
    if inElse {
      ProfileCons(node, rest.elsePart, 1, true, tail);
      Sequences.Assoc([], ProfileAll([node] + rest.elsePart, 1, true), tail);
      Sequences.Assoc([], elses, tail);
    } else {
      ProfileCons(node, rest.thenPart, 1, false, elses + tail);
      Sequences.Assoc(ProfileAll([node] + rest.thenPart, 1, false), elses, tail);
      Sequences.Assoc(ProfileAll(rest.thenPart, 1, false), elses, tail);
    }
  }

  lemma TopBlockIsScanned(parse: ValueParser, ts: seq<Token>, i: nat, parallel: bool)
    requires i < |ts| && ParseNode(parse, ts, i).Ok? && KeywordOf(ts[i]) == (if parallel then PARALLEL else SEQUENCE)
    ensures var Ok(node, j) := ParseNode(parse, ts, i);
            Scan(parse, ts, i, Top) == Profile(node, 0, false) + Scan(parse, ts, j, Top)
  {
    var Ok(children, j) := ParseBlock(parse, ts, i + 1, parallel);
    var node := if parallel then Parallel(children) else Sequence(children);
    BlockIsScanned(parse, ts, i + 1, parallel, 1);
    Sequences.Assoc([Mark(0, false, Shallow(node))], ProfileAll(children, 1, false), Scan(parse, ts, j, Top));
  }

  lemma TopIfIsScanned(parse: ValueParser, ts: seq<Token>, i: nat)
    requires i < |ts| && ParseNode(parse, ts, i).Ok? && KeywordOf(ts[i]) == IF
    ensures var Ok(node, j) := ParseNode(parse, ts, i);
            Scan(parse, ts, i, Top) == Profile(node, 0, false) + Scan(parse, ts, j, Top)
  {
    var Ok(b, j) := ParseBranches(parse, ts, i + 1, false);
    BranchesAreScanned(parse, ts, i + 1, false);
    var node := Conditional(ConditionOf(ts[i]), b.thenPart, b.elsePart);
    Sequences.Assoc([Mark(0, false, Shallow(node))], ProfileBranches(b), Scan(parse, ts, j, Top));
  }

  lemma NodeIsScanned(parse: ValueParser, ts: seq<Token>, i: nat)
    requires i < |ts| && ParseNode(parse, ts, i).Ok?
    ensures var Ok(node, j) := ParseNode(parse, ts, i);
            Scan(parse, ts, i, Top) == Profile(node, 0, false) + Scan(parse, ts, j, Top)
  {
    match KeywordOf(ts[i]) {
      case PARALLEL => TopBlockIsScanned(parse, ts, i, true);
      case SEQUENCE => TopBlockIsScanned(parse, ts, i, false);
      case IF => TopIfIsScanned(parse, ts, i);
      case _ => FirstTokenIsShape(parse, ts, i, 0, false);
    }
  }

  /** The AST that build_ast parses has exactly the profile the scan lists: every token becomes one node,
      in source order and at the scanned depth, apart from the ELSE, ENDIF and END_IF an IF absorbs. */
  lemma {:induction false} ParseIsScan(parse: ValueParser, ts: seq<Token>, i: nat)
    requires i <= |ts| && ParseAll(parse, ts, i).Ok?
    ensures ProfileAll(ParseAll(parse, ts, i).value, 0, false) == Scan(parse, ts, i, Top)
    decreases |ts| - i
  {
    if i < |ts| {
      var Ok(node, j) := ParseNode(parse, ts, i);
      NodeIsScanned(parse, ts, i);
      ParseIsScan(parse, ts, j);
      var rest := ParseAll(parse, ts, j).value;
      assert ([node] + rest)[1..] == rest;
    }
  }
}
