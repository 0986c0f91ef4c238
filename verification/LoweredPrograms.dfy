/** Programs, as tokens, that the builder accepts and whose plans validate_plan refuses
    (src/praxis_sdk/dsl/ast_builder.py:33-69, src/praxis_sdk/dsl/planner.py:334-512). */
module LoweredPrograms {
  import opened Wrappers
  import opened DslTypes
  import opened Arguments
  import opened Parsing
  import opened CycleCheck
  import opened Lowering
  import opened Planner

  ghost predicate Circular(plan: Plan) {
    Cyclic(IdSet(Ids(plan.nodes)), plan.edges)
  }

  predicate Dangling(plan: Plan) {
    DanglingEdges(IdSet(Ids(plan.nodes)), plan.edges) != []
  }

  lemma BlockWords()
    ensures Classify(UpperCase("SEQUENCE")) == SEQUENCE && Classify(UpperCase("PARALLEL")) == PARALLEL
    ensures Classify(UpperCase("TASK")) == TASK && Classify(UpperCase("CALL")) == CALL
  {
    assert UpperCase("SEQUENCE") == "SEQUENCE";
    assert UpperCase("PARALLEL") == "PARALLEL";
    assert UpperCase("TASK") == "TASK";
    assert UpperCase("CALL") == "CALL";
  }

  lemma {:induction false} BlockOfTwo(parse: ValueParser, ts: seq<Token>)
    requires |ts| == 3 && KeywordOf(ts[0]) in {PARALLEL, SEQUENCE}
    requires forall i :: 1 <= i < 3 ==> KeywordOf(ts[i]) in {CALL, TASK} && LeafNode(parse, ts[i]).Some?
    ensures var children := [LeafNode(parse, ts[1]).value, LeafNode(parse, ts[2]).value];
            ParseAll(parse, ts, 0) == Ok([if KeywordOf(ts[0]) == PARALLEL then Parallel(children) else Sequence(children)], 3)
  {
    var a, b := LeafNode(parse, ts[1]).value, LeafNode(parse, ts[2]).value;
    var parallel := KeywordOf(ts[0]) == PARALLEL;
    assert ParseBlock(parse, ts, 3, parallel) == Ok([], 3);
    assert [b] + [] == [b];
    assert ParseBlock(parse, ts, 2, parallel) == Ok([b], 3);
    assert [a] + [b] == [a, b];
    assert ParseBlock(parse, ts, 1, parallel) == Ok([a, b], 3);
    assert ParseAll(parse, ts, 3) == Ok([], 3);
    var node := if parallel then Parallel([a, b]) else Sequence([a, b]);
    assert ParseNode(parse, ts, 0) == Ok(node, 3);
    assert [node] + [] == [node];
  }

  /** Any program SEQUENCE / TASK ... / CALL ... is accepted and lowered to a circular plan. */
  lemma TaskThenCallProgram(parse: ValueParser, net: Network, ts: seq<Token>)
    requires |ts| == 3 && KeywordOf(ts[0]) == SEQUENCE && KeywordOf(ts[1]) == TASK && KeywordOf(ts[2]) == CALL
    requires ts[2].args != [] && ts[2].args[0] != ""
    ensures BuildAst(parse, ts).Built?
    ensures Circular(LowerAll(net, BuildAst(parse, ts).nodes, 0, 0))
  {
    BlockOfTwo(parse, ts);
    var task, call := LeafNode(parse, ts[1]).value, LeafNode(parse, ts[2]).value;
    TwoAreValid(task, call, false);
    TaskThenCallIsCircular(net, task.args, call.tool, call.args);
  }

  /** Any program PARALLEL / CALL ... / TASK ... is accepted and lowered to a plan with a dangling edge. */
  lemma CallThenTaskProgram(parse: ValueParser, net: Network, ts: seq<Token>)
    requires |ts| == 3 && KeywordOf(ts[0]) == PARALLEL && KeywordOf(ts[1]) == CALL && KeywordOf(ts[2]) == TASK
    requires ts[1].args != [] && ts[1].args[0] != ""
    ensures BuildAst(parse, ts).Built?
    ensures Dangling(LowerAll(net, BuildAst(parse, ts).nodes, 0, 0))
  {
    BlockOfTwo(parse, ts);
    var call, task := LeafNode(parse, ts[1]).value, LeafNode(parse, ts[2]).value;
    TwoAreValid(call, task, true);
    CallThenTaskDangles(net, call.tool, call.args, task.args);
  }

  lemma TwoAreValid(a: Node, b: Node, parallel: bool)
    requires (a.Task? || (a.Call? && a.tool != "")) && (b.Task? || (b.Call? && b.tool != ""))
    ensures AllValid([if parallel then Parallel([a, b]) else Sequence([a, b])])
  {
    assert [a, b][1..] == [b] && [b][1..] == [];
    assert ValidNode(a) && ValidNode(b);
    assert AllValid([b][1..]);
    assert AllValid([b]);
    assert AllValid([a, b]);
    var node := if parallel then Parallel([a, b]) else Sequence([a, b]);
    assert [node][1..] == [];
  }

  /** For example SEQUENCE / TASK x / CALL t. */
  lemma SequenceProgramIsCircular(parse: ValueParser, net: Network)
    ensures var built := BuildAst(parse, [Word("SEQUENCE", []), Word("TASK", ["x"]), Word("CALL", ["t"])]);
            built.Built? && Circular(LowerAll(net, built.nodes, 0, 0))
  {
    BlockWords();
    TaskThenCallProgram(parse, net, [Word("SEQUENCE", []), Word("TASK", ["x"]), Word("CALL", ["t"])]);
  }

  /** For example PARALLEL / CALL t / TASK x. */
  lemma ParallelProgramDangles(parse: ValueParser, net: Network)
    ensures var built := BuildAst(parse, [Word("PARALLEL", []), Word("CALL", ["t"]), Word("TASK", ["x"])]);
            built.Built? && Dangling(LowerAll(net, built.nodes, 0, 0))
  {
    BlockWords();
    CallThenTaskProgram(parse, net, [Word("PARALLEL", []), Word("CALL", ["t"]), Word("TASK", ["x"])]);
  }
}
