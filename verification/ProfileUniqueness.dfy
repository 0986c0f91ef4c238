/** The linear scan leaves no choice of AST: a pre-order profile with depths determines the tree. */
module ProfileUniqueness {
  import opened DslTypes
  import opened Arguments
  import opened Parsing
  import opened LinearScan
  import Sequences

  /** A profile at this level ends here: what follows belongs to an enclosing node, or to the else
      branch that follows a then branch. */
  predicate Stops(rest: seq<Mark>, depth: nat, inElse: bool) {
    rest == [] || rest[0].depth < depth || (rest[0].depth == depth && rest[0].inElse && !inElse)
  }

  /** The marks strictly below a node. */
  function Inside(node: Node, depth: nat): seq<Mark> {
    match node
    case Parallel(children) => ProfileAll(children, depth + 1, false)
    case Sequence(children) => ProfileAll(children, depth + 1, false)
    case Conditional(_, children, elseChildren) =>
      ProfileAll(children, depth + 1, false) + ProfileAll(elseChildren, depth + 1, true)
    case _ => []
  }

  /** The profile of a non-empty list, taken apart. */
  lemma Unroll(nodes: seq<Node>, x: seq<Mark>, depth: nat, inElse: bool)
    requires nodes != []
    ensures ProfileAll(nodes, depth, inElse) + x
         == [Mark(depth, inElse, Shallow(nodes[0]))]
            + (Inside(nodes[0], depth) + (ProfileAll(nodes[1..], depth, inElse) + x))
  {
    var head, rest := [Mark(depth, inElse, Shallow(nodes[0]))], ProfileAll(nodes[1..], depth, inElse);
    assert Profile(nodes[0], depth, inElse) == head + Inside(nodes[0], depth);
    Sequences.Assoc(head + Inside(nodes[0], depth), rest, x);
    Sequences.Assoc(head, Inside(nodes[0], depth), rest + x);
  }

  lemma TailStops(nodes: seq<Node>, x: seq<Mark>, depth: nat, inElse: bool)
    requires Stops(x, depth, inElse)
    ensures var rest := ProfileAll(nodes, depth, inElse) + x;
            Stops(rest, depth + 1, false) && Stops(rest, depth + 1, true)
  {
    if nodes == [] {
      assert ProfileAll(nodes, depth, inElse) + x == x;
    } else {
      Unroll(nodes, x, depth, inElse);
    }
  }

  lemma ElseStops(elseNodes: seq<Node>, rest: seq<Mark>, depth: nat)
    requires Stops(rest, depth, true)
    ensures Stops(ProfileAll(elseNodes, depth, true) + rest, depth, false)
  {
    if elseNodes == [] {
      assert ProfileAll(elseNodes, depth, true) + rest == rest;
    } else {
      Unroll(elseNodes, rest, depth, true);
    }
  }

  /** Two AST lists with the same profile are the same, up to where the profiles stop. */
  lemma {:induction false} ProfileDecides(a: seq<Node>, x: seq<Mark>, b: seq<Node>, y: seq<Mark>, depth: nat, inElse: bool)
    requires ProfileAll(a, depth, inElse) + x == ProfileAll(b, depth, inElse) + y
    requires Stops(x, depth, inElse) && Stops(y, depth, inElse)
    ensures a == b && x == y
    decreases a, 0
  {
    if a == [] {
      EmptyDecides(x, b, y, depth, inElse);
    } else if b == [] {
      EmptyDecides(y, a, x, depth, inElse);
    } else {
      var ra, rb := HeadsDecide(a, x, b, y, depth, inElse);
      InsideDecides(a[0], ra, b[0], rb, depth);
      ProfileDecides(a[1..], x, b[1..], y, depth, inElse);
      assert a == [a[0]] + a[1..] && b == [b[0]] + b[1..];
    }
  }

  lemma EmptyDecides(x: seq<Mark>, b: seq<Node>, y: seq<Mark>, depth: nat, inElse: bool)
    requires ProfileAll(b, depth, inElse) + y == [] + x && Stops(x, depth, inElse)
    ensures b == [] && x == y
  {
    assert [] + x == x;
    if b != [] {
      Unroll(b, y, depth, inElse);
      assert false;
    } else {
      assert ProfileAll(b, depth, inElse) + y == y;
    }
  }

  /** The first nodes look alike, and what is inside them and behind them has the same profile. */
  lemma HeadsDecide(a: seq<Node>, x: seq<Mark>, b: seq<Node>, y: seq<Mark>, depth: nat, inElse: bool)
    returns (ra: seq<Mark>, rb: seq<Mark>)
    requires a != [] && b != [] && ProfileAll(a, depth, inElse) + x == ProfileAll(b, depth, inElse) + y
    requires Stops(x, depth, inElse) && Stops(y, depth, inElse)
    ensures ra == ProfileAll(a[1..], depth, inElse) + x && rb == ProfileAll(b[1..], depth, inElse) + y
    ensures Shallow(a[0]) == Shallow(b[0]) && Inside(a[0], depth) + ra == Inside(b[0], depth) + rb
    ensures Stops(ra, depth + 1, false) && Stops(ra, depth + 1, true)
    ensures Stops(rb, depth + 1, false) && Stops(rb, depth + 1, true)
  {
    ra, rb := ProfileAll(a[1..], depth, inElse) + x, ProfileAll(b[1..], depth, inElse) + y;
    Unroll(a, x, depth, inElse);
    Unroll(b, y, depth, inElse);
    SameRest(Mark(depth, inElse, Shallow(a[0])), Inside(a[0], depth) + ra, Mark(depth, inElse, Shallow(b[0])), Inside(b[0], depth) + rb);
    TailStops(a[1..], x, depth, inElse);
    TailStops(b[1..], y, depth, inElse);
  }

  lemma SameRest(m: Mark, s: seq<Mark>, m': Mark, s': seq<Mark>)
    requires [m] + s == [m'] + s'
    ensures m == m' && s == s'
  {
    assert ([m] + s)[0] == m && ([m] + s)[1..] == s;
    assert ([m'] + s')[0] == m' && ([m'] + s')[1..] == s';
  }

  lemma {:induction false} InsideDecides(a: Node, ra: seq<Mark>, b: Node, rb: seq<Mark>, depth: nat)
    requires Shallow(a) == Shallow(b) && Inside(a, depth) + ra == Inside(b, depth) + rb
    requires Stops(ra, depth + 1, false) && Stops(ra, depth + 1, true)
    requires Stops(rb, depth + 1, false) && Stops(rb, depth + 1, true)
    ensures a == b && ra == rb
    decreases a, 1
  {
    match a {
      case Conditional(_, _, _) => BranchesDecide(a, ra, b, rb, depth);
      case Parallel(children) => ProfileDecides(children, ra, b.children, rb, depth + 1, false);
      case Sequence(children) => ProfileDecides(children, ra, b.children, rb, depth + 1, false);
      case _ =>
        assert [] + ra == ra && [] + rb == rb;
    }
  }

  lemma {:induction false} BranchesDecide(a: Node, ra: seq<Mark>, b: Node, rb: seq<Mark>, depth: nat)
    requires a.Conditional? && b.Conditional? && Inside(a, depth) + ra == Inside(b, depth) + rb
    requires Stops(ra, depth + 1, false) && Stops(ra, depth + 1, true)
    requires Stops(rb, depth + 1, false) && Stops(rb, depth + 1, true)
    ensures a.children == b.children && a.elseChildren == b.elseChildren && ra == rb
    decreases a, 0
  {
    var ea, eb := ProfileAll(a.elseChildren, depth + 1, true) + ra, ProfileAll(b.elseChildren, depth + 1, true) + rb;
    Sequences.Assoc(ProfileAll(a.children, depth + 1, false), ProfileAll(a.elseChildren, depth + 1, true), ra);
    Sequences.Assoc(ProfileAll(b.children, depth + 1, false), ProfileAll(b.elseChildren, depth + 1, true), rb);
    ElseStops(a.elseChildren, ra, depth + 1);
    ElseStops(b.elseChildren, rb, depth + 1);
    ProfileDecides(a.children, ea, b.children, eb, depth + 1, false);
    ProfileDecides(a.elseChildren, ra, b.elseChildren, rb, depth + 1, true);
  }

  /** The AST that build_ast parses is the only one with the profile of the scan. */
  lemma ScanDecidesTheAst(parse: ValueParser, ts: seq<Token>, nodes: seq<Node>)
    requires ParseAll(parse, ts, 0).Ok?
    ensures ProfileAll(nodes, 0, false) == Scan(parse, ts, 0, Top) <==> nodes == ParseAll(parse, ts, 0).value
  {
    ParseIsScan(parse, ts, 0);
    var built := ParseAll(parse, ts, 0).value;
    if ProfileAll(nodes, 0, false) == Scan(parse, ts, 0, Top) {
      assert ProfileAll(nodes, 0, false) + [] == ProfileAll(built, 0, false) + [];
      ProfileDecides(nodes, [], built, [], 0, false);
    }
  }
}
