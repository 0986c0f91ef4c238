/** Which node a token becomes (src/praxis_sdk/dsl/ast_builder.py:33-135, 330-508): what it becomes as a
    program of its own, word by word and argument by argument, and that it becomes the same anywhere. */
module TokenNodes {
  import opened Wrappers
  import opened DslTypes
  import opened Arguments
  import opened Parsing
  import opened LinearScan
  import opened Acceptance
  import Sequences

  // ---- A token anywhere ------------------------------------------------------------------------------

  /** All nodes of an AST, each before what is inside it. */
  function PreOrder(node: Node): seq<Node>
    decreases node, 1
  {
    [node] +
    match node
    case Parallel(children) => PreOrderAll(children)
    case Sequence(children) => PreOrderAll(children)
    case Conditional(_, children, elseChildren) => PreOrderAll(children) + PreOrderAll(elseChildren)
    case _ => []
  }

  function PreOrderAll(nodes: seq<Node>): seq<Node>
    decreases nodes, 0
  {
    if nodes == [] then [] else PreOrder(nodes[0]) + PreOrderAll(nodes[1..])
  }

  /** The shapes in a profile are those of the nodes in this order. */
  ghost predicate ShapesOf(marks: seq<Mark>, nodes: seq<Node>) {
    |marks| == |nodes| && forall i :: 0 <= i < |nodes| ==> marks[i].shape == Shallow(nodes[i])
  }

  lemma {:induction false} ShapesConcat(a: seq<Mark>, m: seq<Node>, b: seq<Mark>, n: seq<Node>)
    requires ShapesOf(a, m) && ShapesOf(b, n)
    ensures ShapesOf(a + b, m + n)
  {
  }

  lemma {:induction false} ProfileShapes(node: Node, depth: nat, inElse: bool)
    ensures ShapesOf(Profile(node, depth, inElse), PreOrder(node))
    decreases node, 1
  {
    var mark := Mark(depth, inElse, Shallow(node));
    match node {
      case Parallel(children) =>
        ProfileAllShapes(children, depth + 1, false);
        ShapesConcat([mark], [node], ProfileAll(children, depth + 1, false), PreOrderAll(children));
      case Sequence(children) =>
        ProfileAllShapes(children, depth + 1, false);
        ShapesConcat([mark], [node], ProfileAll(children, depth + 1, false), PreOrderAll(children));
      case Conditional(_, children, elseChildren) =>
        ProfileAllShapes(children, depth + 1, false);
        ProfileAllShapes(elseChildren, depth + 1, true);
        ShapesConcat(ProfileAll(children, depth + 1, false), PreOrderAll(children),
                     ProfileAll(elseChildren, depth + 1, true), PreOrderAll(elseChildren));
        ShapesConcat([mark], [node], ProfileAll(children, depth + 1, false) + ProfileAll(elseChildren, depth + 1, true),
                     PreOrderAll(children) + PreOrderAll(elseChildren));
      case _ =>
        assert [mark] + [] == [mark] && [node] + [] == [node];
    }
  }

  lemma {:induction false} ProfileAllShapes(nodes: seq<Node>, depth: nat, inElse: bool)
    ensures ShapesOf(ProfileAll(nodes, depth, inElse), PreOrderAll(nodes))
    decreases nodes, 0
  {
    if nodes != [] {
      ProfileShapes(nodes[0], depth, inElse);
      ProfileAllShapes(nodes[1..], depth, inElse);
      ShapesConcat(Profile(nodes[0], depth, inElse), PreOrder(nodes[0]),
                   ProfileAll(nodes[1..], depth, inElse), PreOrderAll(nodes[1..]));
    }
  }

  /** The mode in which a token is read. */
  function ModeBefore(ks: seq<Keyword>, i: nat): Mode
    requires i <= |ks|
  {
    if i == 0 then Top else After(ModeBefore(ks, i - 1), ks[i - 1])
  }

  predicate BecomesNode(ks: seq<Keyword>, i: nat)
    requires i < |ks|
  {
    !Absorbed(ModeBefore(ks, i), ks[i])
  }

  /** How many tokens before this one become nodes: all but those an open IF absorbs. */
  function Rank(ks: seq<Keyword>, i: nat): nat
    requires i <= |ks|
  {
    if i == 0 then 0 else Rank(ks, i - 1) + if BecomesNode(ks, i - 1) then 1 else 0
  }

  /** What an IF never absorbs. */
  predicate Stays(k: Keyword) {
    k != ELSE && k != ENDIF && k != END_IF
  }

  /** Of two tokens the first becomes the earlier node. */
  lemma {:induction false} RankGrows(ks: seq<Keyword>, i: nat, j: nat)
    requires i < j <= |ks| && Stays(ks[i])
    ensures Rank(ks, i) < Rank(ks, j)
    decreases j
  {
    if i + 1 < j {
      RankGrows(ks, i, j - 1);
    }
  }

  /** The second list is the first without its head, if that is to go. */
  predicate Follows<T(==)>(a: seq<T>, b: seq<T>, drops: bool) {
    if drops then a != [] && a[1..] == b else a == b
  }

  lemma {:induction false} FollowsTail<T>(all: seq<T>, rank: nat, a: seq<T>, b: seq<T>, drops: bool)
    requires rank <= |all| && all[rank..] == a && Follows(a, b, drops)
    ensures var rank' := rank + if drops then 1 else 0; rank' <= |all| && all[rank'..] == b
  {
  }

  lemma {:induction false} ScanFollows(parse: ValueParser, ts: seq<Token>, ks: seq<Keyword>, n: nat)
    requires ks == Keywords(ts) && n < |ts|
    ensures Follows(Scan(parse, ts, n, ModeBefore(ks, n)), Scan(parse, ts, n + 1, ModeBefore(ks, n + 1)), BecomesNode(ks, n))
  {
    var m, k := ModeBefore(ks, n), KeywordOf(ts[n]);
    var rest := Scan(parse, ts, n + 1, After(m, k));
    if BecomesNode(ks, n) {
      var mark := Mark(Depth(ReadIn(m, k)), ReadIn(m, k) == InIf(true), ShapeOf(parse, ts[n]));
      assert Scan(parse, ts, n, m) == [mark] + rest;
      assert ([mark] + rest)[1..] == rest;
    }
  }

  lemma {:induction false} ScanStarts(parse: ValueParser, ts: seq<Token>, i: nat, m: Mode)
    requires i < |ts| && Stays(KeywordOf(ts[i]))
    ensures Scan(parse, ts, i, m) != [] && Scan(parse, ts, i, m)[0].shape == ShapeOf(parse, ts[i])
  {
  }

  function Scans(parse: ValueParser, ts: seq<Token>, ks: seq<Keyword>, n: nat): seq<Mark>
    requires n <= |ts| && |ks| == |ts|
  {
    Scan(parse, ts, n, ModeBefore(ks, n))
  }

  lemma {:induction false} NextScan(parse: ValueParser, ts: seq<Token>, ks: seq<Keyword>, n: nat, a: seq<Mark>) returns (b: seq<Mark>)
    requires ks == Keywords(ts) && n < |ts| && a == Scans(parse, ts, ks, n)
    ensures b == Scans(parse, ts, ks, n + 1) && Follows(a, b, BecomesNode(ks, n))
  {
    b := Scans(parse, ts, ks, n + 1);
    ScanFollows(parse, ts, ks, n);
  }

  lemma {:induction false} TailOfScan(parse: ValueParser, ts: seq<Token>, ks: seq<Keyword>, i: nat, all: seq<Mark>) returns (tail: seq<Mark>)
    requires ks == Keywords(ts) && i <= |ts| && all == Scans(parse, ts, ks, 0)
    ensures tail == Scans(parse, ts, ks, i)
    ensures Rank(ks, i) <= |all| && all[Rank(ks, i)..] == tail
    decreases i
  {
    if i == 0 {
      tail := all;
    } else {
      var before := TailOfScan(parse, ts, ks, i - 1, all);
      tail := NextScan(parse, ts, ks, i - 1, before);
      FollowsTail(all, Rank(ks, i - 1), before, tail, BecomesNode(ks, i - 1));
    }
  }

  lemma {:induction false} MarkOfToken(parse: ValueParser, ts: seq<Token>, i: nat) returns (marks: seq<Mark>)
    requires i < |ts| && Stays(KeywordOf(ts[i]))
    ensures marks == Scan(parse, ts, 0, Top)
    ensures var rank := Rank(Keywords(ts), i); rank < |marks| && marks[rank].shape == ShapeOf(parse, ts[i])
  {
    var ks := Keywords(ts);
    marks := Scans(parse, ts, ks, 0);
    var tail := TailOfScan(parse, ts, ks, i, marks);
    ScanStarts(parse, ts, i, ModeBefore(ks, i));
    assert marks[Rank(ks, i)] == tail[0];
  }

  lemma {:induction false} StaysByWord(t: Token)
    requires var word := UpperCase(t.value); word != "ELSE" && word != "ENDIF" && word != "END_IF"
    ensures Stays(KeywordOf(t))
  {
  }

  /** ELSE, ENDIF and END_IF aside, every token becomes a node, in the order of the tokens; and, its
      children aside, it is the node it becomes as a program of its own. */
  lemma {:induction false} TokenBecomesItsNode(parse: ValueParser, ts: seq<Token>, i: nat)
    requires BuildAst(parse, ts).Built? && i < |ts|
    requires var word := UpperCase(ts[i].value); word != "ELSE" && word != "ENDIF" && word != "END_IF"
    ensures var nodes, alone, rank := PreOrderAll(BuildAst(parse, ts).nodes), ParseAll(parse, [ts[i]], 0), Rank(Keywords(ts), i);
            && rank < |nodes| && alone.Ok? && |alone.value| == 1
            && Shallow(nodes[rank]) == Shallow(alone.value[0])
  {
    StaysByWord(ts[i]);
    var marks := MarkOfToken(parse, ts, i);
    ParseIsScan(parse, ts, 0);
    ProfileAllShapes(BuildAst(parse, ts).nodes, 0, false);
    AllSyntax(parse, ts, 0);
    AloneIsShape(parse, ts[i]);
  }

  lemma {:induction false} AloneIsShape(parse: ValueParser, t: Token)
    requires KeywordOf(t) == CALL ==> t.args != []
    ensures var r := ParseAll(parse, [t], 0);
            r.Ok? && |r.value| == 1 && Shallow(r.value[0]) == ShapeOf(parse, t)
  {
    var ts := [t];
    assert ParseBlock(parse, ts, 1, true) == Ok([], 1) && ParseBlock(parse, ts, 1, false) == Ok([], 1);
    assert ParseBranches(parse, ts, 1, false) == Ok(Branches([], []), 1);
    assert ParseAll(parse, ts, 1) == Ok([], 1);
    assert ParseNode(parse, ts, 0).Ok? && ParseNode(parse, ts, 0).next == 1;
    var node := ParseNode(parse, ts, 0).value;
    assert [node] + [] == [node];
  }

  predicate HasInside(node: Node) {
    node.Parallel? || node.Sequence? || node.Conditional?
  }

  /** A command that opens no block is, wherever it stands, the very node it is as a program of its own. */
  lemma {:induction false} LeafIsTheSame(parse: ValueParser, ts: seq<Token>, i: nat, node: Node)
    requires BuildAst(parse, ts).Built? && i < |ts|
    requires var word := UpperCase(ts[i].value); word != "ELSE" && word != "ENDIF" && word != "END_IF"
    requires BuildAst(parse, [ts[i]]) == Built([node]) && !HasInside(node)
    ensures var nodes, rank := PreOrderAll(BuildAst(parse, ts).nodes), Rank(Keywords(ts), i);
            rank < |nodes| && nodes[rank] == node
  {
    TokenBecomesItsNode(parse, ts, i);
    var alone := ParseAll(parse, [ts[i]], 0);
    assert alone.value == [node];
    assert Shallow(node) == node;
  }
}
