/** How the ASTs of token lists compose (src/praxis_sdk/dsl/ast_builder.py:33-105, 256-383): what stands
    in a block, in either branch of an IF, and behind it, parses as it does on its own. */
module Composition {
  import opened Wrappers
  import opened DslTypes
  import opened Arguments
  import opened Parsing

  // ---- Positions -------------------------------------------------------------------------------------

  function Moved<T>(r: Parsed<T>, n: nat): Parsed<T> {
    match r
    case SyntaxError => SyntaxError
    case Ok(value, next) => Ok(value, n + next)
  }

  /** From n on, this list is that one. */
  ghost predicate From(all: seq<Token>, n: nat, ts: seq<Token>) {
    n + |ts| == |all| && forall i {:trigger ts[i]} :: 0 <= i < |ts| ==> all[n + i] == ts[i]
  }

  /** Parsing looks only ahead: it finds at n + i in a list what it finds at i in the list from n on. */
  lemma {:induction false} BlockNode(parse: ValueParser, ts: seq<Token>, i: nat, parallel: bool, r: Parsed<seq<Node>>)
    requires i < |ts| && KeywordOf(ts[i]) == (if parallel then PARALLEL else SEQUENCE)
    requires ParseBlock(parse, ts, i + 1, parallel) == r
    ensures ParseNode(parse, ts, i) == AsNode(nodes => if parallel then Parallel(nodes) else Sequence(nodes), r)
  {
  }

  lemma {:induction false} BranchNode(parse: ValueParser, ts: seq<Token>, i: nat, r: Parsed<Branches>)
    requires i < |ts| && KeywordOf(ts[i]) == IF && ParseBranches(parse, ts, i + 1, false) == r
    ensures ParseNode(parse, ts, i) == AsNode((b: Branches) => Conditional(ConditionOf(ts[i]), b.thenPart, b.elsePart), r)
  {
  }

  function AsNode<T>(make: T -> Node, r: Parsed<T>): Parsed<Node> {
    match r
    case SyntaxError => SyntaxError
    case Ok(value, next) => Ok(make(value), next)
  }

  lemma {:induction false} LeafMoves(parse: ValueParser, all: seq<Token>, n: nat, ts: seq<Token>, i: nat)
    requires From(all, n, ts) && i < |ts| && !OpensBlock(KeywordOf(ts[i]))
    ensures var r := ParseNode(parse, ts, i);
            ParseNode(parse, all, n + i) == Moved(r, n) && (r.Ok? ==> r.next == i + 1)
  {
    assert all[n + i] == ts[i];
    hide LeafNode, KeywordOf;
  }

  lemma {:induction false} NodeMoves(parse: ValueParser, all: seq<Token>, n: nat, ts: seq<Token>, i: nat)
      returns (r: Parsed<Node>)
    requires From(all, n, ts) && i < |ts|
    ensures ParseNode(parse, ts, i) == r && ParseNode(parse, all, n + i) == Moved(r, n)
    ensures r.Ok? ==> i < r.next <= |ts|
    decreases |ts| - i, 0, 0
  {
    hide ParseNode, ParseBlock, ParseBranches, KeywordOf;
    assert all[n + i] == ts[i];
    r := ParseNode(parse, ts, i);
    match KeywordOf(ts[i]) {
      case PARALLEL =>
        var children := BlockMoves(parse, all, n, ts, i + 1, true);
        BlockNode(parse, ts, i, true, children);
        BlockNode(parse, all, n + i, true, Moved(children, n));
      case SEQUENCE =>
        var children := BlockMoves(parse, all, n, ts, i + 1, false);
        BlockNode(parse, ts, i, false, children);
        BlockNode(parse, all, n + i, false, Moved(children, n));
      case IF =>
        var branches := BranchesMove(parse, all, n, ts, i + 1, false);
        BranchNode(parse, ts, i, branches);
        BranchNode(parse, all, n + i, Moved(branches, n));
      case _ =>
        LeafMoves(parse, all, n, ts, i);
    }
  }

  lemma {:induction false} BlockStep(parse: ValueParser, ts: seq<Token>, i: nat, parallel: bool, node: Node, j: nat, rest: Parsed<seq<Node>>)
    requires i <= |ts| && !BlockStops(ts, i, parallel) && ParseNode(parse, ts, i) == Ok(node, j)
    requires j <= |ts| && ParseBlock(parse, ts, j, parallel) == rest
    ensures ParseBlock(parse, ts, i, parallel) == Prepend([node], rest)
  {
  }

  predicate BlockStops(ts: seq<Token>, i: nat, parallel: bool)
    requires i <= |ts|
  {
    i == |ts| || EndsBlock(parallel, KeywordOf(ts[i]))
  }

  lemma {:induction false} BlockEnd(parse: ValueParser, ts: seq<Token>, i: nat, parallel: bool)
    requires i <= |ts| && BlockStops(ts, i, parallel)
    ensures ParseBlock(parse, ts, i, parallel) == Ok([], i)
  {
  }

  lemma {:induction false} BlockFails(parse: ValueParser, ts: seq<Token>, i: nat, parallel: bool)
    requires i <= |ts| && !BlockStops(ts, i, parallel) && ParseNode(parse, ts, i) == SyntaxError
    ensures ParseBlock(parse, ts, i, parallel) == SyntaxError
  {
  }

  lemma {:induction false} BlockMoves(parse: ValueParser, all: seq<Token>, n: nat, ts: seq<Token>, i: nat, parallel: bool)
      returns (r: Parsed<seq<Node>>)
    requires From(all, n, ts) && i <= |ts|
    ensures ParseBlock(parse, ts, i, parallel) == r && ParseBlock(parse, all, n + i, parallel) == Moved(r, n)
    decreases |ts| - i, 1
  {
    hide ParseNode, ParseBlock, KeywordOf;
    assert BlockStops(all, n + i, parallel) == BlockStops(ts, i, parallel) by {
      assert i < |ts| ==> all[n + i] == ts[i];
    }
    if BlockStops(ts, i, parallel) {
      r := Ok([], i);
      BlockEnd(parse, ts, i, parallel);
      BlockEnd(parse, all, n + i, parallel);
    } else {
      var first := NodeMoves(parse, all, n, ts, i);
      match first {
        case SyntaxError =>
          r := SyntaxError;
          BlockFails(parse, ts, i, parallel);
          BlockFails(parse, all, n + i, parallel);
        case Ok(node, j) =>
          assert Moved(first, n) == Ok(node, n + j);
          var rest := BlockMoves(parse, all, n, ts, j, parallel);
          r := Prepend([node], rest);
          BlockStep(parse, ts, i, parallel, node, j, rest);
          BlockStep(parse, all, n + i, parallel, node, n + j, Moved(rest, n));
          PrependMoves([node], rest, n);
      }
    }
  }

  lemma {:induction false} BranchStep(parse: ValueParser, ts: seq<Token>, i: nat, inElse: bool, node: Node, j: nat, rest: Parsed<Branches>)
    requires i <= |ts| && !BranchTurns(ts, i) && ParseNode(parse, ts, i) == Ok(node, j)
    requires j <= |ts| && ParseBranches(parse, ts, j, inElse) == rest
    ensures ParseBranches(parse, ts, i, inElse) == PrependBranches(InBranch(inElse, [node]), rest)
  {
  }

  function InBranch(inElse: bool, nodes: seq<Node>): Branches {
    if inElse then Branches([], nodes) else Branches(nodes, [])
  }

  /** Where the loop of an IF stops or turns to the else branch. */
  predicate BranchTurns(ts: seq<Token>, i: nat)
    requires i <= |ts|
  {
    i == |ts| || !BranchChild(KeywordOf(ts[i]))
  }

  lemma {:induction false} TurnMoves(parse: ValueParser, all: seq<Token>, n: nat, ts: seq<Token>, i: nat, inElse: bool)
    requires From(all, n, ts) && i <= |ts| && BranchTurns(ts, i) && (i < |ts| ==> KeywordOf(ts[i]) != ELSE)
    ensures ParseBranches(parse, all, n + i, inElse) == Moved(ParseBranches(parse, ts, i, inElse), n)
  {
    if i < |ts| {
      assert all[n + i] == ts[i];
    }
  }

  lemma {:induction false} BranchFails(parse: ValueParser, ts: seq<Token>, i: nat, inElse: bool)
    requires i <= |ts| && !BranchTurns(ts, i) && ParseNode(parse, ts, i) == SyntaxError
    ensures ParseBranches(parse, ts, i, inElse) == SyntaxError
  {
  }

  lemma {:induction false} ElseStep(parse: ValueParser, ts: seq<Token>, i: nat, inElse: bool, r: Parsed<Branches>)
    requires i < |ts| && KeywordOf(ts[i]) == ELSE && r == ParseBranches(parse, ts, i + 1, true)
    ensures ParseBranches(parse, ts, i, inElse) == r
  {
  }

  lemma PrependBranchesMoves(b: Branches, r: Parsed<Branches>, n: nat)
    ensures PrependBranches(b, Moved(r, n)) == Moved(PrependBranches(b, r), n)
  {
  }

  lemma {:induction false} BranchesMove(parse: ValueParser, all: seq<Token>, n: nat, ts: seq<Token>, i: nat, inElse: bool)
      returns (r: Parsed<Branches>)
    requires From(all, n, ts) && i <= |ts|
    ensures ParseBranches(parse, ts, i, inElse) == r && ParseBranches(parse, all, n + i, inElse) == Moved(r, n)
    decreases |ts| - i, 1
  {
    hide ParseBranches, KeywordOf;
    if i < |ts| && KeywordOf(ts[i]) == ELSE {
      assert all[n + i] == ts[i];
      r := BranchesMove(parse, all, n, ts, i + 1, true);
      ElseStep(parse, ts, i, inElse, r);
      ElseStep(parse, all, n + i, inElse, Moved(r, n));
    } else if BranchTurns(ts, i) {
      r := ParseBranches(parse, ts, i, inElse);
      TurnMoves(parse, all, n, ts, i, inElse);
    } else {
      r := ChildMoves(parse, all, n, ts, i, inElse);
    }
  }

  lemma {:induction false} ChildMoves(parse: ValueParser, all: seq<Token>, n: nat, ts: seq<Token>, i: nat, inElse: bool)
      returns (r: Parsed<Branches>)
    requires From(all, n, ts) && i <= |ts| && !BranchTurns(ts, i)
    ensures ParseBranches(parse, ts, i, inElse) == r && ParseBranches(parse, all, n + i, inElse) == Moved(r, n)
    decreases |ts| - i, 0, 1
  {
    hide ParseNode, ParseBranches, KeywordOf;
    assert !BranchTurns(all, n + i) by {
      assert all[n + i] == ts[i];
    }
    var first := NodeMoves(parse, all, n, ts, i);
    match first {
      case SyntaxError =>
        r := SyntaxError;
        BranchFails(parse, ts, i, inElse);
        BranchFails(parse, all, n + i, inElse);
      case Ok(node, j) =>
        assert Moved(first, n) == Ok(node, n + j);
        var rest := BranchesMove(parse, all, n, ts, j, inElse);
        r := PrependBranches(InBranch(inElse, [node]), rest);
        BranchStep(parse, ts, i, inElse, node, j, rest);
        BranchStep(parse, all, n + i, inElse, node, n + j, Moved(rest, n));
        PrependBranchesMoves(InBranch(inElse, [node]), rest, n);
    }
  }

  lemma PrependMoves(nodes: seq<Node>, r: Parsed<seq<Node>>, n: nat)
    ensures Prepend(nodes, Moved(r, n)) == Moved(Prepend(nodes, r), n)
  {
  }

  lemma {:induction false} AllStep(parse: ValueParser, ts: seq<Token>, i: nat, node: Node, j: nat, rest: Parsed<seq<Node>>)
    requires i < |ts| && ParseNode(parse, ts, i) == Ok(node, j) && j <= |ts| && ParseAll(parse, ts, j) == rest
    ensures ParseAll(parse, ts, i) == Prepend([node], rest)
  {
  }

  lemma {:induction false} AllMoves(parse: ValueParser, all: seq<Token>, n: nat, ts: seq<Token>, i: nat)
      returns (r: Parsed<seq<Node>>)
    requires From(all, n, ts) && i <= |ts|
    ensures ParseAll(parse, ts, i) == r && ParseAll(parse, all, n + i) == Moved(r, n)
    decreases |ts| - i
  {
    hide ParseNode;
    if i == |ts| {
      r := Ok([], i);
    } else {
      var first := NodeMoves(parse, all, n, ts, i);
      match first {
        case SyntaxError =>
          r := SyntaxError;
        case Ok(node, j) =>
          assert Moved(first, n) == Ok(node, n + j);
          var rest := AllMoves(parse, all, n, ts, j);
          r := Prepend([node], rest);
          AllStep(parse, ts, i, node, j, rest);
          AllStep(parse, all, n + i, node, n + j, Moved(rest, n));
          PrependMoves([node], rest, n);
      }
    }
  }

  // ---- Leaves ----------------------------------------------------------------------------------------

  /** A command that neither opens, divides nor ends a block. */
  predicate LeafWord(word: string) {
    && word != "PARALLEL" && word != "SEQUENCE" && word != "IF" && word != "ELSE" && word != "WORKFLOW"
    && word != "END_PARALLEL" && word != "END_SEQUENCE" && word != "ENDIF" && word != "END_IF"
  }

  predicate Leaf(t: Token) {
    LeafWord(UpperCase(t.value))
  }

  predicate Leaves(ts: seq<Token>) {
    forall t :: t in ts ==> Leaf(t)
  }

  lemma LeafKeyword(t: Token)
    requires Leaf(t)
    ensures var k := KeywordOf(t); BranchChild(k) && !OpensBlock(k) && !EndsBlock(true, k) && !EndsBlock(false, k)
  {
  }

  /** From n on, this list begins with that one. */
  ghost predicate Begins(all: seq<Token>, n: nat, a: seq<Token>) {
    n + |a| <= |all| && forall i {:trigger a[i]} :: 0 <= i < |a| ==> all[n + i] == a[i]
  }

  /** A leaf among other tokens is the same node, or the same error. */
  lemma {:induction false} LeafStep(parse: ValueParser, all: seq<Token>, n: nat, a: seq<Token>, i: nat)
    requires i < |a| && Begins(all, n, a) && Leaves(a)
    ensures !BranchTurns(all, n + i) && !BlockStops(all, n + i, true) && !BlockStops(all, n + i, false)
    ensures var r := ParseNode(parse, a, i); ParseNode(parse, all, n + i) == Moved(r, n) && (r.Ok? ==> r.next == i + 1)
  {
    hide LeafNode, KeywordOf;
    assert all[n + i] == a[i];
    LeafKeyword(a[i]);
  }

  /** The nodes of a list of leaves from one on, as far as they parse. */
  lemma {:induction false} NextLeaf(parse: ValueParser, all: seq<Token>, n: nat, a: seq<Token>, i: nat, r: Parsed<seq<Node>>)
      returns (node: Node, rest: Parsed<seq<Node>>)
    requires i < |a| && Begins(all, n, a) && Leaves(a) && ParseAll(parse, a, i) == r && r.Ok?
    ensures ParseNode(parse, all, n + i) == Ok(node, n + i + 1)
    ensures ParseAll(parse, a, i + 1) == rest && rest.Ok? && r == Prepend([node], rest)
  {
    LeafStep(parse, all, n, a, i);
    hide ParseNode;
    node := ParseNode(parse, a, i).value;
    rest := ParseAll(parse, a, i + 1);
  }

  lemma {:induction false} BlockOfLeaves(parse: ValueParser, all: seq<Token>, n: nat, a: seq<Token>, i: nat, parallel: bool, r: Parsed<seq<Node>>)
    requires i <= |a| && Begins(all, n, a) && Leaves(a) && ParseAll(parse, a, i) == r && r.Ok?
    requires BlockStops(all, n + |a|, parallel)
    ensures ParseBlock(parse, all, n + i, parallel) == Ok(r.value, n + |a|)
    decreases |a| - i
  {
    hide ParseBlock, ParseNode, KeywordOf;
    if i == |a| {
      BlockEnd(parse, all, n + i, parallel);
    } else {
      LeafStep(parse, all, n, a, i);
      var node, rest := NextLeaf(parse, all, n, a, i, r);
      BlockOfLeaves(parse, all, n, a, i + 1, parallel, rest);
      BlockStep(parse, all, n + i, parallel, node, n + i + 1, Ok(rest.value, n + |a|));
    }
  }

  lemma {:induction false} BranchOfLeaves(parse: ValueParser, all: seq<Token>, n: nat, a: seq<Token>, i: nat, inElse: bool,
                                          r: Parsed<seq<Node>>, after: Parsed<Branches>)
    requires i <= |a| && Begins(all, n, a) && Leaves(a) && ParseAll(parse, a, i) == r && r.Ok?
    requires ParseBranches(parse, all, n + |a|, inElse) == after
    ensures ParseBranches(parse, all, n + i, inElse) == PrependBranches(InBranch(inElse, r.value), after)
    decreases |a| - i
  {
    hide ParseBranches, ParseNode, KeywordOf;
    if i == |a| {
      NothingPrepended(inElse, after);
    } else {
      LeafStep(parse, all, n, a, i);
      var node, rest := NextLeaf(parse, all, n, a, i, r);
      BranchOfLeaves(parse, all, n, a, i + 1, inElse, rest, after);
      BranchStep(parse, all, n + i, inElse, node, n + i + 1, PrependBranches(InBranch(inElse, rest.value), after));
      BranchGrows(inElse, node, rest.value, after);
    }
  }

  lemma NothingPrepended(inElse: bool, rest: Parsed<Branches>)
    ensures PrependBranches(InBranch(inElse, []), rest) == rest
  {
    if rest.Ok? {
      assert [] + rest.value.thenPart == rest.value.thenPart && [] + rest.value.elsePart == rest.value.elsePart;
    }
  }

  lemma BranchGrows(inElse: bool, node: Node, nodes: seq<Node>, rest: Parsed<Branches>)
    ensures PrependBranches(InBranch(inElse, [node]), PrependBranches(InBranch(inElse, nodes), rest))
         == PrependBranches(InBranch(inElse, [node] + nodes), rest)
  {
    if rest.Ok? {
      var b := rest.value;
      assert [node] + (nodes + b.thenPart) == [node] + nodes + b.thenPart;
      assert [node] + (nodes + b.elsePart) == [node] + nodes + b.elsePart;
      assert [] + ([] + b.thenPart) == [] + b.thenPart && [] + ([] + b.elsePart) == [] + b.elsePart;
    }
  }

  // ---- Programs --------------------------------------------------------------------------------------

  predicate Accepted(parse: ValueParser, ts: seq<Token>) {
    BuildAst(parse, ts).Built?
  }

  function Ast(parse: ValueParser, ts: seq<Token>): seq<Node>
    requires Accepted(parse, ts)
  {
    BuildAst(parse, ts).nodes
  }

  /** A program of a first node and an accepted rest. */
  lemma {:induction false} FirstAndRest(parse: ValueParser, all: seq<Token>, node: Node, j: nat, rest: seq<Token>)
    requires From(all, j, rest) && Accepted(parse, rest)
    requires all != [] && ParseNode(parse, all, 0) == Ok(node, j) && ValidNode(node)
    ensures BuildAst(parse, all) == Built([node] + Ast(parse, rest))
  {
    hide ParseNode, ParseAll;
    var r := AllMoves(parse, all, j, rest, 0);
    AllStep(parse, all, 0, node, j, Moved(r, j));
    assert r.value == Ast(parse, rest);
    assert ([node] + r.value)[1..] == r.value;
  }

  predicate Ends(parallel: bool, word: string) {
    || word == (if parallel then "END_PARALLEL" else "END_SEQUENCE")
    || word == (if parallel then "SEQUENCE" else "PARALLEL") || word == "WORKFLOW" || word == "IF"
  }

  /** Where the list is over, or this command follows. */
  predicate StopsBlock(parallel: bool, rest: seq<Token>) {
    rest == [] || Ends(parallel, UpperCase(rest[0].value))
  }

  lemma EndsByWord(parallel: bool, t: Token)
    requires Ends(parallel, UpperCase(t.value))
    ensures EndsBlock(parallel, KeywordOf(t))
  {
  }

  lemma {:induction false} StopsHere(parallel: bool, all: seq<Token>, n: nat, rest: seq<Token>)
    requires From(all, n, rest) && StopsBlock(parallel, rest)
    ensures BlockStops(all, n, parallel)
  {
    hide KeywordOf, EndsBlock, Ends;
    if rest != [] {
      assert all[n] == rest[0];
      EndsByWord(parallel, rest[0]);
    }
  }

  predicate Opens(parallel: bool, t: Token) {
    UpperCase(t.value) == if parallel then "PARALLEL" else "SEQUENCE"
  }

  lemma OpensByWord(parallel: bool, t: Token)
    requires Opens(parallel, t)
    ensures KeywordOf(t) == (if parallel then PARALLEL else SEQUENCE) && !EndsBlock(parallel, KeywordOf(t))
  {
  }

  function Block(parallel: bool, children: seq<Node>): Node {
    if parallel then Parallel(children) else Sequence(children)
  }

  lemma BlockLayout(open: Token, a: seq<Token>, rest: seq<Token>) returns (all: seq<Token>)
    ensures all == [open] + a + rest && all[0] == open && Begins(all, 1, a) && From(all, 1 + |a|, rest)
  {
    all := [open] + a + rest;
  }

  /** A block holds the leaves behind it, up to the end of the list or the first END_PARALLEL, SEQUENCE,
      WORKFLOW or IF (END_SEQUENCE, PARALLEL, WORKFLOW or IF), which is not part of the block. */
  lemma {:induction false} BlockComposes(parse: ValueParser, open: Token, parallel: bool, a: seq<Token>, rest: seq<Token>)
    requires Opens(parallel, open) && a != [] && Leaves(a) && StopsBlock(parallel, rest)
    requires Accepted(parse, a) && Accepted(parse, rest)
    ensures BuildAst(parse, [open] + a + rest) == Built([Block(parallel, Ast(parse, a))] + Ast(parse, rest))
  {
    hide ParseNode, ParseAll, ParseBlock, KeywordOf, Opens, Begins, From, Leaves, StopsBlock, BlockStops;
    var all := BlockLayout(open, a, rest);
    var n := 1 + |a|;
    StopsHere(parallel, all, n, rest);
    BlockOfLeaves(parse, all, 1, a, 0, parallel, ParseAll(parse, a, 0));
    OpensByWord(parallel, open);
    BlockNode(parse, all, 0, parallel, Ok(Ast(parse, a), n));
    LeavesAreNodes(parse, a);
    FirstAndRest(parse, all, Block(parallel, Ast(parse, a)), n, rest);
  }

  lemma {:induction false} LeavesAreNodes(parse: ValueParser, a: seq<Token>)
    requires a != [] && Accepted(parse, a)
    ensures Ast(parse, a) != [] && AllValid(Ast(parse, a))
  {
    var first := ParseNode(parse, a, 0);
    assert first.Ok?;
  }

  lemma TwoLayout(open: Token, a: seq<Token>, inner: Token, b: seq<Token>, rest: seq<Token>) returns (all: seq<Token>)
    ensures all == [open] + a + [inner] + b + rest && all[0] == open && all[1 + |a|] == inner
    ensures Begins(all, 1, a) && Begins(all, 2 + |a|, b) && From(all, 2 + |a| + |b|, rest)
  {
    all := [open] + a + [inner] + b + rest;
  }

  /** The inner block of a block: it stops where the outer one does. */
  lemma {:induction false} InnerBlock(parse: ValueParser, all: seq<Token>, m: nat, parallel: bool, b: seq<Token>)
    requires m < |all| && Opens(parallel, all[m]) && Begins(all, m + 1, b) && Leaves(b) && Accepted(parse, b)
    requires BlockStops(all, m + 1 + |b|, parallel)
    ensures ParseBlock(parse, all, m, parallel) == Ok([Block(parallel, Ast(parse, b))], m + 1 + |b|)
  {
    hide ParseNode, ParseAll, ParseBlock, KeywordOf, Opens, Begins, Leaves;
    var within, n := Block(parallel, Ast(parse, b)), m + 1 + |b|;
    OpensByWord(parallel, all[m]);
    BlockOfLeaves(parse, all, m + 1, b, 0, parallel, ParseAll(parse, b, 0));
    BlockNode(parse, all, m, parallel, Ok(Ast(parse, b), n));
    BlockEnd(parse, all, n, parallel);
    BlockStep(parse, all, m, parallel, within, n, Ok([], n));
    assert [within] + [] == [within];
  }

  /** A block of the same kind inside goes one level down, and what ends it ends the outer one too: an
      end marker is never taken for the inner block alone. */
  lemma {:induction false} NestedComposes(parse: ValueParser, open: Token, a: seq<Token>, inner: Token, parallel: bool,
                                          b: seq<Token>, rest: seq<Token>)
    requires Opens(parallel, open) && Opens(parallel, inner) && Leaves(a) && b != [] && Leaves(b) && StopsBlock(parallel, rest)
    requires Accepted(parse, a) && Accepted(parse, b) && Accepted(parse, rest)
    ensures BuildAst(parse, [open] + a + [inner] + b + rest)
         == Built([Block(parallel, Ast(parse, a) + [Block(parallel, Ast(parse, b))])] + Ast(parse, rest))
  {
    hide ParseNode, ParseAll, ParseBlock, KeywordOf, Opens, Begins, From, Leaves, StopsBlock, BlockStops;
    var all := TwoLayout(open, a, inner, b, rest);
    var m, n, within := 1 + |a|, 2 + |a| + |b|, Block(parallel, Ast(parse, b));
    StopsHere(parallel, all, n, rest);
    InnerBlock(parse, all, m, parallel, b);
    var children := BlockAfterLeaves(parse, all, 1, a, 0, parallel, ParseAll(parse, a, 0), Ok([within], n));
    OpensByWord(parallel, open);
    BlockNode(parse, all, 0, parallel, Ok(children, n));
    LeavesAreNodes(parse, b);
    AllValidConcat(Ast(parse, a), [within]);
    FirstAndRest(parse, all, Block(parallel, children), n, rest);
  }

  lemma {:induction false} AllValidConcat(a: seq<Node>, b: seq<Node>)
    ensures AllValid(a + b) <==> AllValid(a) && AllValid(b)
  {
    if a == [] {
      assert a + b == b;
    } else {
      assert (a + b)[1..] == a[1..] + b;
      AllValidConcat(a[1..], b);
    }
  }

  lemma {:induction false} BlockAfterLeaves(parse: ValueParser, all: seq<Token>, n: nat, a: seq<Token>, i: nat, parallel: bool,
                                            r: Parsed<seq<Node>>, after: Parsed<seq<Node>>) returns (children: seq<Node>)
    requires i <= |a| && Begins(all, n, a) && Leaves(a) && ParseAll(parse, a, i) == r && r.Ok?
    requires ParseBlock(parse, all, n + |a|, parallel) == after && after.Ok?
    ensures ParseBlock(parse, all, n + i, parallel) == Ok(children, after.next) && children == r.value + after.value
    decreases |a| - i
  {
    hide ParseBlock, ParseNode, KeywordOf;
    if i == |a| {
      children := after.value;
    } else {
      LeafStep(parse, all, n, a, i);
      var node, rest := NextLeaf(parse, all, n, a, i, r);
      var others := BlockAfterLeaves(parse, all, n, a, i + 1, parallel, rest, after);
      BlockStep(parse, all, n + i, parallel, node, n + i + 1, Ok(others, after.next));
      children := [node] + others;
    }
  }

  // ---- IF --------------------------------------------------------------------------------------------

  /** What closes an IF: ENDIF or END_IF, which belongs to it, or else the end of the list or the command
      that follows. */
  predicate ClosesIf(close: seq<Token>, rest: seq<Token>) {
    if close == [] then rest == [] || StopsIf(UpperCase(rest[0].value))
    else |close| == 1 && (UpperCase(close[0].value) == "ENDIF" || UpperCase(close[0].value) == "END_IF")
  }

  predicate StopsIf(word: string) {
    word == "IF" || word == "PARALLEL" || word == "SEQUENCE" || word == "WORKFLOW"
  }

  lemma IfKeywords(t: Token)
    ensures var word, k := UpperCase(t.value), KeywordOf(t);
            && (word == "IF" <==> k == IF) && (word == "ELSE" <==> k == ELSE)
            && (word == "ENDIF" || word == "END_IF" <==> k == ENDIF || k == END_IF)
            && (StopsIf(word) <==> LeavesIf(k))
  {
  }

  lemma {:induction false} IfCloses(parse: ValueParser, all: seq<Token>, n: nat, close: seq<Token>, rest: seq<Token>, inElse: bool)
    requires ClosesIf(close, rest) && Begins(all, n, close) && From(all, n + |close|, rest)
    ensures ParseBranches(parse, all, n, inElse) == Ok(Branches([], []), n + |close|)
  {
    hide KeywordOf;
    if close != [] {
      assert all[n] == close[0];
      IfKeywords(close[0]);
    } else if rest != [] {
      assert all[n] == rest[0];
      IfKeywords(rest[0]);
    }
  }

  function Condition(open: Token): string {
    if open.args == [] then "true" else Join(" ", open.args)
  }

  lemma {:induction false} BranchLeaves(parse: ValueParser, all: seq<Token>, n: nat, a: seq<Token>, inElse: bool, j: nat, b: seq<Node>)
    requires Begins(all, n, a) && Leaves(a) && Accepted(parse, a)
    requires ParseBranches(parse, all, n + |a|, inElse) == Ok(Branches([], b), j)
    ensures ParseBranches(parse, all, n, inElse)
         == Ok(if inElse then Branches([], Ast(parse, a) + b) else Branches(Ast(parse, a), b), j)
  {
    hide ParseNode, ParseAll, ParseBranches, KeywordOf, Begins, Leaves;
    BranchOfLeaves(parse, all, n, a, 0, inElse, ParseAll(parse, a, 0), Ok(Branches([], b), j));
    assert Ast(parse, a) + [] == Ast(parse, a) && [] + b == b;
  }

  lemma {:induction false} IfNode(parse: ValueParser, all: seq<Token>, j: nat, rest: seq<Token>, b: Branches)
    requires From(all, j, rest) && Accepted(parse, rest) && all != [] && UpperCase(all[0].value) == "IF"
    requires ParseBranches(parse, all, 1, false) == Ok(b, j) && AllValid(b.thenPart)
    ensures BuildAst(parse, all) == Built([Conditional(Condition(all[0]), b.thenPart, b.elsePart)] + Ast(parse, rest))
  {
    hide ParseNode, ParseAll, ParseBranches, KeywordOf, From;
    IfKeywords(all[0]);
    BranchNode(parse, all, 0, Ok(b, j));
    FirstAndRest(parse, all, Conditional(Condition(all[0]), b.thenPart, b.elsePart), j, rest);
  }

  lemma OneLayout(open: Token, a: seq<Token>, close: seq<Token>, rest: seq<Token>) returns (all: seq<Token>)
    ensures all == [open] + a + close + rest && all[0] == open
    ensures Begins(all, 1, a) && Begins(all, 1 + |a|, close) && From(all, 1 + |a| + |close|, rest)
  {
    all := [open] + a + close + rest;
  }

  lemma ThreeLayout(open: Token, a: seq<Token>, middle: Token, b: seq<Token>, close: seq<Token>, rest: seq<Token>)
      returns (all: seq<Token>)
    ensures all == [open] + a + [middle] + b + close + rest && all[0] == open && all[1 + |a|] == middle
    ensures Begins(all, 1, a) && Begins(all, 2 + |a|, b) && Begins(all, 2 + |a| + |b|, close)
    ensures From(all, 2 + |a| + |b| + |close|, rest)
  {
    all := [open] + a + [middle] + b + close + rest;
  }

  /** IF without an ELSE. */
  lemma {:induction false} IfComposes(parse: ValueParser, open: Token, a: seq<Token>, close: seq<Token>, rest: seq<Token>)
    requires UpperCase(open.value) == "IF" && Leaves(a) && ClosesIf(close, rest)
    requires Accepted(parse, a) && Accepted(parse, rest)
    ensures BuildAst(parse, [open] + a + close + rest)
         == Built([Conditional(Condition(open), Ast(parse, a), [])] + Ast(parse, rest))
  {
    hide ParseNode, ParseAll, ParseBranches, KeywordOf, Begins, From, Leaves, ClosesIf;
    var all := OneLayout(open, a, close, rest);
    var n := 1 + |a| + |close|;
    IfCloses(parse, all, 1 + |a|, close, rest, false);
    BranchLeaves(parse, all, 1, a, false, n, []);
    IfNode(parse, all, n, rest, Branches(Ast(parse, a), []));
  }

  lemma NothingBehind(nodes: seq<Node>, n: nat)
    ensures PrependBranches(InBranch(true, nodes), Ok(Branches([], []), n)) == Ok(Branches([], nodes), n)
  {
    var none: seq<Node> := [];
    assert nodes + none == nodes && none + none == none;
  }

  /** And with one: each branch parses as it does on its own. What is in the else branch is not validated. */
  lemma {:induction false} IfElseComposes(parse: ValueParser, open: Token, a: seq<Token>, middle: Token, b: seq<Token>,
                                          close: seq<Token>, rest: seq<Token>)
    requires UpperCase(open.value) == "IF" && UpperCase(middle.value) == "ELSE" && Leaves(a) && Leaves(b) && ClosesIf(close, rest)
    requires Accepted(parse, a) && ParseAll(parse, b, 0).Ok? && Accepted(parse, rest)
    ensures BuildAst(parse, [open] + a + [middle] + b + close + rest)
         == Built([Conditional(Condition(open), Ast(parse, a), ParseAll(parse, b, 0).value)] + Ast(parse, rest))
  {
    hide ParseNode, ParseAll, ParseBranches, KeywordOf, Begins, From, Leaves, ClosesIf;
    var all := ThreeLayout(open, a, middle, b, close, rest);
    var m, n, other := 2 + |a| + |b|, 2 + |a| + |b| + |close|, ParseAll(parse, b, 0).value;
    IfCloses(parse, all, m, close, rest, true);
    BranchOfLeaves(parse, all, 2 + |a|, b, 0, true, ParseAll(parse, b, 0), Ok(Branches([], []), n));
    NothingBehind(other, n);
    IfKeywords(middle);
    ElseStep(parse, all, 1 + |a|, false, Ok(Branches([], other), n));
    BranchLeaves(parse, all, 1, a, false, n, other);
    IfNode(parse, all, n, rest, Branches(Ast(parse, a), other));
  }

  // ---- The top level -----------------------------------------------------------------------------------

  /** Any token that opens no block, leftover terminators and WORKFLOW among them, is a node in front of the
      program behind it. */
  lemma {:induction false} CommandComposes(parse: ValueParser, t: Token, rest: seq<Token>)
    requires var word := UpperCase(t.value); word != "PARALLEL" && word != "SEQUENCE" && word != "IF"
    requires Accepted(parse, [t]) && Accepted(parse, rest)
    ensures BuildAst(parse, [t] + rest) == Built(Ast(parse, [t]) + Ast(parse, rest))
  {
    var all := [t] + rest;
    assert From(all, 1, rest) && !OpensBlock(KeywordOf(t));
    hide KeywordOf, From, LeafNode, OpensBlock;
    var leaf := LeafNode(parse, t);
    assert ParseAll(parse, [t], 1) == Ok([], 1);
    assert ParseNode(parse, [t], 0) == if leaf.None? then SyntaxError else Ok(leaf.value, 1);
    assert ParseNode(parse, all, 0) == if leaf.None? then SyntaxError else Ok(leaf.value, 1);
    assert Ast(parse, [t]) == [leaf.value] && AllValid([leaf.value]);
    assert ValidNode(leaf.value);
    FirstAndRest(parse, all, leaf.value, 1, rest);
  }

  /** Leaves in front of a program stand in front of its AST. */
  lemma {:induction false} LeavesCompose(parse: ValueParser, a: seq<Token>, rest: seq<Token>)
    requires Leaves(a) && Accepted(parse, a) && Accepted(parse, rest)
    ensures BuildAst(parse, a + rest) == Built(Ast(parse, a) + Ast(parse, rest))
  {
    var all := a + rest;
    assert From(all, |a|, rest) && Begins(all, 0, a);
    hide ParseNode, ParseAll, Begins, From, Leaves;
    var r := AllMoves(parse, all, |a|, rest, 0);
    TopOfLeaves(parse, all, a, 0, ParseAll(parse, a, 0), Moved(r, |a|));
    AllValidConcat(Ast(parse, a), Ast(parse, rest));
  }

  lemma {:induction false} TopOfLeaves(parse: ValueParser, all: seq<Token>, a: seq<Token>, i: nat, r: Parsed<seq<Node>>, after: Parsed<seq<Node>>)
    requires i <= |a| && Begins(all, 0, a) && Leaves(a) && ParseAll(parse, a, i) == r && r.Ok?
    requires ParseAll(parse, all, |a|) == after && after.Ok?
    ensures ParseAll(parse, all, i) == Prepend(r.value, after)
    decreases |a| - i
  {
    hide ParseNode;
    if i == |a| {
      assert r.value == [] && [] + after.value == after.value;
    } else {
      var node, rest := NextLeaf(parse, all, 0, a, i, r);
      TopOfLeaves(parse, all, a, i + 1, rest, after);
      AllStep(parse, all, i, node, i + 1, Prepend(rest.value, after));
      assert [node] + (rest.value + after.value) == [node] + rest.value + after.value;
    }
  }
}
