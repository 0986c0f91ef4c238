/** When the builder nests the nodes as the validator's stack nests the blocks
    (src/praxis_sdk/dsl/validator.py:328-386, src/praxis_sdk/dsl/ast_builder.py:50-104). */
module Nesting {
  import opened Wrappers
  import opened DslTypes
  import opened Arguments
  import opened Parsing
  import opened Validation
  import opened LinearScan

  /** Terminators and ELSE only end blocks and branches; no node should come of them. */
  predicate Silent(k: Keyword) {
    Closes(k) || k == ELSE
  }

  /** A node the builder makes of a terminator or an ELSE that nothing took in. */
  predicate Leftover(shape: Node) {
    shape.Command? && Silent(Classify(UpperCase(shape.word)))
  }

  /** How deep the nodes of a profile stand, in source order. */
  function NodeDepths(marks: seq<Mark>): seq<nat> {
    if marks == [] then []
    else (if Leftover(marks[0].shape) then [] else [marks[0].depth]) + NodeDepths(marks[1..])
  }

  /** How many blocks the validator has open at each token that should become a node. */
  function BlockDepths(ts: seq<Token>, i: nat, open: seq<Open>): seq<nat>
    requires i <= |ts|
    decreases |ts| - i
  {
    if i == |ts| then []
    else
      var k := KeywordOf(ts[i]);
      (if Silent(k) then [] else [|open|]) + BlockDepths(ts, i + 1, BlockStack(k, i, open))
  }

  /** The AST nests its nodes as the validator's stack nests the tokens. */
  predicate NestsAlike(nodes: seq<Node>, ts: seq<Token>) {
    NodeDepths(ProfileAll(nodes, 0, false)) == BlockDepths(ts, 0, [])
  }

  /** The blocks the validator has open before a token. */
  function OpenBefore(ts: seq<Token>, i: nat): seq<Open>
    requires i <= |ts|
  {
    if i == 0 then [] else BlockStack(KeywordOf(ts[i - 1]), i - 1, OpenBefore(ts, i - 1))
  }

  predicate Closed(ts: seq<Token>, i: nat)
    requires i <= |ts|
  {
    i > 0 && Closes(KeywordOf(ts[i - 1]))
  }

  /** What may stand inside an open block: no WORKFLOW, no opener but one of the same kind, and that not
      an IF, and behind a terminator nothing but the next terminator. */
  predicate Nestable(k: Keyword, open: seq<Open>, closed: bool) {
    open == []
    || (k != WORKFLOW
        && (Opens(k) ==> k != IF && k == open[|open| - 1].kind)
        && (closed ==> Closes(k)))
  }

  predicate NestableAt(ts: seq<Token>, i: nat)
    requires i < |ts|
  {
    Nestable(KeywordOf(ts[i]), OpenBefore(ts, i), Closed(ts, i))
  }

  // ---- The builder's mode and the validator's stack, in step ----------------------------------------

  predicate AllOf(kind: Keyword, open: seq<Open>) {
    forall x :: x in open ==> x.kind == kind
  }

  /** As long as no token breaks the rules, the open blocks are of one kind and the builder has as many open, until
      a terminator makes it forget them all. */
  predicate InStep(m: Mode, open: seq<Open>, closed: bool) {
    if open == [] then m == Top
    else if closed then m == Top && open[0].kind != IF && AllOf(open[0].kind, open)
    else
      match m
      case Top => false
      case InParallel(d) => d == |open| && AllOf(PARALLEL, open)
      case InSequence(d) => d == |open| && AllOf(SEQUENCE, open)
      case InIf(_) => |open| == 1 && AllOf(IF, open)
  }

  lemma StepTogether(m: Mode, k: Keyword, i: nat, open: seq<Open>, closed: bool)
    requires InStep(m, open, closed) && BlockIssue(k, i, open) == []
    ensures Absorbed(m, k) ==> Silent(k)
    ensures !Silent(k) ==> (Depth(ReadIn(m, k)) == |open| <==> Nestable(k, open, closed))
    ensures Silent(k) ==> Nestable(k, open, closed)
    ensures Nestable(k, open, closed) ==> InStep(After(m, k), BlockStack(k, i, open), Closes(k))
  {
    if open != [] {
      assert open[|open| - 1] in open && open[0] in open;
    }
  }

  lemma ShapeIsLeftover(parse: ValueParser, t: Token)
    ensures Leftover(ShapeOf(parse, t)) <==> Silent(KeywordOf(t))
  {
  }

  /** The depths listed for one token and for the later ones. */
  lemma ScanDepths(parse: ValueParser, ts: seq<Token>, i: nat, m: Mode)
    requires i < |ts| && (Absorbed(m, KeywordOf(ts[i])) ==> Silent(KeywordOf(ts[i])))
    ensures var k := KeywordOf(ts[i]);
            NodeDepths(Scan(parse, ts, i, m))
            == (if Silent(k) then [] else [Depth(ReadIn(m, k))]) + NodeDepths(Scan(parse, ts, i + 1, After(m, k)))
  {
    ShapeIsLeftover(parse, ts[i]);
    var rest := Scan(parse, ts, i + 1, After(m, KeywordOf(ts[i])));
    var mark := Mark(Depth(ReadIn(m, KeywordOf(ts[i]))), ReadIn(m, KeywordOf(ts[i])) == InIf(true), ShapeOf(parse, ts[i]));
    assert ([mark] + rest)[1..] == rest;
  }

  lemma SameHeads(silent: bool, a: nat, s: seq<nat>, b: nat, t: seq<nat>)
    ensures (if silent then [] else [a]) + s == (if silent then [] else [b]) + t <==> (silent || a == b) && s == t
  {
    if silent {
      assert [] + s == s && [] + t == t;
    } else {
      assert ([a] + s)[0] == a && ([a] + s)[1..] == s;
      assert ([b] + t)[0] == b && ([b] + t)[1..] == t;
    }
  }

  /** No token from the one at i on breaks these rules. */
  predicate NestableFrom(ts: seq<Token>, i: nat)
    requires i <= |ts|
  {
    forall j :: i <= j < |ts| ==> NestableAt(ts, j)
  }

  lemma NestableOnward(ts: seq<Token>, i: nat)
    requires i < |ts|
    ensures NestableFrom(ts, i) <==> NestableAt(ts, i) && NestableFrom(ts, i + 1)
  {
  }

  lemma OpenOnward(ts: seq<Token>, i: nat)
    requires i < |ts|
    ensures OpenBefore(ts, i + 1) == BlockStack(KeywordOf(ts[i]), i, OpenBefore(ts, i))
  {
  }

  lemma NoIssueOnward(ts: seq<Token>, i: nat, open: seq<Open>)
    requires i < |ts| && BlockIssues(ts, i, open) == []
    ensures BlockIssue(KeywordOf(ts[i]), i, open) == []
    ensures BlockIssues(ts, i + 1, BlockStack(KeywordOf(ts[i]), i, open)) == []
  {
    var first, later := BlockIssue(KeywordOf(ts[i]), i, open), BlockIssues(ts, i + 1, BlockStack(KeywordOf(ts[i]), i, open));
    assert first + later == [];
    assert |first + later| == |first| + |later|;
  }

  /** The builder and the validator, both at the token at i, list the same depths from here on. */
  ghost predicate AgreeFrom(parse: ValueParser, ts: seq<Token>, i: nat, m: Mode, open: seq<Open>)
    requires i <= |ts|
  {
    NodeDepths(Scan(parse, ts, i, m)) == BlockDepths(ts, i, open)
  }

  /** The blocks open at the token at i, with the builder in step and no error to come. */
  predicate Along(ts: seq<Token>, i: nat, m: Mode, open: seq<Open>)
    requires i <= |ts|
  {
    open == OpenBefore(ts, i) && BlockIssues(ts, i, open) == [] && InStep(m, open, Closed(ts, i))
  }

  lemma AlongOnward(ts: seq<Token>, i: nat, m: Mode, open: seq<Open>)
    requires i < |ts| && Along(ts, i, m, open)
    ensures NestableAt(ts, i) ==> Along(ts, i + 1, After(m, KeywordOf(ts[i])), BlockStack(KeywordOf(ts[i]), i, open))
  {
    NoIssueOnward(ts, i, open);
    StepTogether(m, KeywordOf(ts[i]), i, open, Closed(ts, i));
  }

  /** One token: the depths agree from here on if and only if they do here and behind it. */
  lemma AgreeOnward(parse: ValueParser, ts: seq<Token>, i: nat, m: Mode, open: seq<Open>)
    requires i < |ts| && Along(ts, i, m, open)
    ensures AgreeFrom(parse, ts, i, m, open)
        <==> NestableAt(ts, i) && AgreeFrom(parse, ts, i + 1, After(m, KeywordOf(ts[i])), BlockStack(KeywordOf(ts[i]), i, open))
  {
    var k := KeywordOf(ts[i]);
    NoIssueOnward(ts, i, open);
    StepTogether(m, k, i, open, Closed(ts, i));
    ScanDepths(parse, ts, i, m);
    SameHeads(Silent(k), Depth(ReadIn(m, k)), NodeDepths(Scan(parse, ts, i + 1, After(m, k))),
              |open|, BlockDepths(ts, i + 1, BlockStack(k, i, open)));
  }

  lemma {:induction false} AgreeExactly(parse: ValueParser, ts: seq<Token>, i: nat, m: Mode, open: seq<Open>)
    requires i <= |ts| && Along(ts, i, m, open)
    ensures AgreeFrom(parse, ts, i, m, open) <==> NestableFrom(ts, i)
    decreases |ts| - i
  {
    if i < |ts| {
      NestableOnward(ts, i);
      AgreeOnward(parse, ts, i, m, open);
      AlongOnward(ts, i, m, open);
      if NestableAt(ts, i) {
        AgreeExactly(parse, ts, i + 1, After(m, KeywordOf(ts[i])), BlockStack(KeywordOf(ts[i]), i, open));
      }
    }
  }

  /** Of balanced tokens the builder makes an AST that nests as the blocks do if and only if no
      token breaks these rules: a WORKFLOW inside a block, a block inside one of another kind or an IF inside
      an IF, or a terminator that leaves a block open and is followed by anything but a terminator. */
  lemma NestsAlikeExactly(parse: ValueParser, ts: seq<Token>)
    requires ParseAll(parse, ts, 0).Ok? && Balanced(Keywords(ts))
    ensures NestsAlike(ParseAll(parse, ts, 0).value, ts) <==> NestableFrom(ts, 0)
  {
    assert BlockIssues(ts, 0, []) == [] by { NoIssuesMeansBalanced(ts); }
    AgreeExactly(parse, ts, 0, Top, []);
    ParseIsScan(parse, ts, 0);
  }

  // ---- A balanced program that is nested otherwise --------------------------------------------------

  /** PARALLEL / PARALLEL / CALL a / END_PARALLEL / CALL b / END_PARALLEL */
  const TWO_LEVELS: seq<Token> := [
    Word("PARALLEL", []), Word("PARALLEL", []), Word("CALL", ["a"]), Word("END_PARALLEL", []),
    Word("CALL", ["b"]), Word("END_PARALLEL", [])
  ]

  lemma TwoLevelsKeywords()
    ensures Keywords(TWO_LEVELS) == [PARALLEL, PARALLEL, CALL, END_PARALLEL, CALL, END_PARALLEL]
  {
    assert UpperCase("PARALLEL") == "PARALLEL";
    assert UpperCase("CALL") == "CALL";
    assert UpperCase("END_PARALLEL") == "END_PARALLEL";
  }

  lemma TwoLevelsBalanced()
    ensures Balanced(Keywords(TWO_LEVELS))
  {
    TwoLevelsKeywords();
    var inner := Enclosed(PARALLEL, [Plain(CALL)], END_PARALLEL);
    var outer := Enclosed(PARALLEL, [inner, Plain(CALL)], END_PARALLEL);
    assert YieldAll([Plain(CALL)]) == [CALL];
    assert Yield(inner) == [PARALLEL, CALL, END_PARALLEL];
    assert YieldAll([inner, Plain(CALL)]) == [PARALLEL, CALL, END_PARALLEL, CALL];
    assert YieldAll([outer]) == Keywords(TWO_LEVELS);
    assert DerivesAll([Plain(CALL)], false);
    assert Derives(inner, false) && [inner, Plain(CALL)][1..] == [Plain(CALL)];
    assert DerivesAll([inner, Plain(CALL)], false);
    assert Derives(outer, false) && [outer][1..] == [];
  }

  lemma {:induction false} TwoLevelsParse(parse: ValueParser)
    ensures var end := Command("END_PARALLEL", map[]);
            ParseAll(parse, TWO_LEVELS, 0)
            == Ok([Parallel([Parallel([Call("a", map[])])]), end, Call("b", map[]), end], 6)
  {
    var ts, end, a, b := TWO_LEVELS, Command("END_PARALLEL", map[]), Call("a", map[]), Call("b", map[]);
    TwoLevelsKeywords();
    assert forall i :: 0 <= i < 6 ==> KeywordOf(ts[i]) == Keywords(ts)[i];
    assert LeafNode(parse, ts[2]) == Some(a) && LeafNode(parse, ts[4]) == Some(b);
    assert LeafNode(parse, ts[3]) == Some(end) && LeafNode(parse, ts[5]) == Some(end);
    assert ParseBlock(parse, ts, 3, true) == Ok([], 3);
    assert ParseBlock(parse, ts, 2, true) == Ok([a], 3) by { assert [a] + [] == [a]; }
    assert ParseBlock(parse, ts, 1, true) == Ok([Parallel([a])], 3) by { assert [Parallel([a])] + [] == [Parallel([a])]; }
    assert ParseAll(parse, ts, 6) == Ok([], 6);
    assert ParseAll(parse, ts, 5) == Ok([end], 6) by { assert [end] + [] == [end]; }
    assert ParseAll(parse, ts, 4) == Ok([b, end], 6) by { assert [b] + [end] == [b, end]; }
    assert ParseAll(parse, ts, 3) == Ok([end, b, end], 6) by { assert [end] + [b, end] == [end, b, end]; }
    var p := Parallel([Parallel([a])]);
    assert [p] + [end, b, end] == [p, end, b, end];
  }

  lemma ValidCons(node: Node, rest: seq<Node>)
    ensures AllValid([node] + rest) <==> ValidNode(node) && AllValid(rest)
  {
    assert ([node] + rest)[1..] == rest;
  }

  lemma TwoLevelsValid()
    ensures var end := Command("END_PARALLEL", map[]);
            AllValid([Parallel([Parallel([Call("a", map[])])]), end, Call("b", map[]), end])
  {
    var end, a, b := Command("END_PARALLEL", map[]), Call("a", map[]), Call("b", map[]);
    ValidCons(a, []);
    ValidCons(Parallel([a]), []);
    ValidCons(end, []);
    ValidCons(b, [end]);
    ValidCons(end, [b, end]);
    ValidCons(Parallel([Parallel([a])]), [end, b, end]);
  }

  lemma TwoLevelsOpen(ts: seq<Token>)
    requires |ts| == 6 && KeywordOf(ts[0]) == PARALLEL && KeywordOf(ts[1]) == PARALLEL
    requires KeywordOf(ts[2]) == CALL && KeywordOf(ts[3]) == END_PARALLEL
    ensures OpenBefore(ts, 4) == [Open(PARALLEL, 0)]
  {
    var one, two := [Open(PARALLEL, 0)], [Open(PARALLEL, 0), Open(PARALLEL, 1)];
    assert OpenBefore(ts, 1) == one by { OpenOnward(ts, 0); PushOne(); }
    assert OpenBefore(ts, 2) == two by { OpenOnward(ts, 1); PushOne(); }
    assert OpenBefore(ts, 3) == two by { OpenOnward(ts, 2); }
    assert OpenBefore(ts, 4) == one by { OpenOnward(ts, 3); PushOne(); }
  }

  lemma PushOne()
    ensures BlockStack(PARALLEL, 0, []) == [Open(PARALLEL, 0)]
    ensures BlockStack(PARALLEL, 1, [Open(PARALLEL, 0)]) == [Open(PARALLEL, 0), Open(PARALLEL, 1)]
    ensures BlockStack(END_PARALLEL, 3, [Open(PARALLEL, 0), Open(PARALLEL, 1)]) == [Open(PARALLEL, 0)]
  {
    assert [Open(PARALLEL, 0), Open(PARALLEL, 1)][..1] == [Open(PARALLEL, 0)];
  }

  lemma TwoLevelsAreNotNestable()
    ensures !NestableFrom(TWO_LEVELS, 0)
  {
    TwoLevelsKeywords();
    assert forall i :: 0 <= i < 6 ==> KeywordOf(TWO_LEVELS[i]) == Keywords(TWO_LEVELS)[i];
    TwoLevelsOpen(TWO_LEVELS);
    assert !NestableAt(TWO_LEVELS, 4);
  }

  /** The validator puts CALL b into the outer PARALLEL; the builder makes it a node of its own, behind a
      leftover END_PARALLEL. */
  lemma TwoLevelsNestOtherwise(parse: ValueParser)
    ensures Balanced(Keywords(TWO_LEVELS)) && BuildAst(parse, TWO_LEVELS).Built?
    ensures var end := Command("END_PARALLEL", map[]);
            BuildAst(parse, TWO_LEVELS).nodes == [Parallel([Parallel([Call("a", map[])])]), end, Call("b", map[]), end]
    ensures !NestsAlike(BuildAst(parse, TWO_LEVELS).nodes, TWO_LEVELS)
  {
    TwoLevelsBalanced();
    TwoLevelsParse(parse);
    TwoLevelsValid();
    assert !NestsAlike(ParseAll(parse, TWO_LEVELS, 0).value, TWO_LEVELS) by {
      NestsAlikeExactly(parse, TWO_LEVELS);
      TwoLevelsAreNotNestable();
    }
  }
}
