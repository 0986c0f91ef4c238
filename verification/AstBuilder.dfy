/** The AST builder as the source writes it: methods that advance a shared token stream and append to
    lists in loops (src/praxis_sdk/dsl/ast_builder.py, TokenStream in tokenizer.py). Each method is
    proved against Parsing and Arguments. */
module AstBuilders {
  import opened Wrappers
  import opened DslTypes
  import opened Arguments
  import opened Parsing
  import Sequences

  class TokenStream {
    const tokens: seq<Token>
    var position: nat

    ghost predicate Valid()
      reads this
    {
      position <= |tokens|
    }

    constructor (tokens: seq<Token>)
      ensures Valid() && this.tokens == tokens && position == 0
    {
      this.tokens := tokens;
      position := 0;
    }

    predicate HasMore()
      reads this
    {
      position < |tokens|
    }

    /** The current token, without advancing. */
    method Current() returns (t: Option<Token>)
      requires Valid()
      ensures t == if HasMore() then Some(tokens[position]) else None
    {
      if position < |tokens| {
        t := Some(tokens[position]);
      } else {
        t := None;
      }
    }

    /** The current token, moving past it if there is one. */
    method Advance() returns (t: Option<Token>)
      requires Valid()
      modifies this
      ensures Valid()
      ensures t == if old(position) < |tokens| then Some(tokens[old(position)]) else None
      ensures position == old(position) + if t.Some? then 1 else 0
    {
      t := Current();
      if t.Some? {
        position := position + 1;
      }
    }
  }

  class AstBuilder {
    /** Type detection of argument values. */
    const parse: ValueParser

    constructor (parse: ValueParser)
      ensures this.parse == parse
    {
      this.parse := parse;
    }

    method BuildAst(tokens: seq<Token>) returns (r: BuildResult)
      ensures r == Parsing.BuildAst(parse, tokens)
    {
      if tokens == [] {
        return Built([]);
      }
      var stream := new TokenStream(tokens);
      var nodes := [];
      PrependNothing(ParseAll(parse, tokens, 0), SyntaxError);
      while stream.HasMore()
        invariant stream.Valid() && stream.tokens == tokens
        invariant ParseAll(parse, tokens, 0) == Prepend(nodes, ParseAll(parse, tokens, stream.position))
        decreases |tokens| - stream.position
      {
        ghost var rest := ParseAll(parse, tokens, stream.position);
        var ok, node := ParseNode(stream);
        if !ok {
          return DSLSyntaxError;
        }
        PrependTwice(nodes, [node.value], ParseAll(parse, tokens, stream.position));
        nodes := nodes + [node.value];
      }
      assert nodes + [] == nodes;
      if AllValid(nodes) {
        r := Built(nodes);
      } else {
        r := DSLValidationError;
      }
    }

    /** ok is false when a DSLSyntaxError is raised; there is no node only at the end of the stream. */
    method ParseNode(stream: TokenStream) returns (ok: bool, node: Option<Node>)
      requires stream.Valid()
      modifies stream
      ensures stream.Valid()
      ensures old(stream.HasMore()) ==> Outcome(Parsing.ParseNode(parse, stream.tokens, old(stream.position)), ok, node, stream.position)
      ensures !old(stream.HasMore()) ==> ok && node == None && stream.position == old(stream.position)
      decreases |stream.tokens| - stream.position, 2
    {
      var token := stream.Current();
      if token.None? {
        return true, None;
      }
      var result;
      match KeywordOf(token.value) {
        case CALL => ok, result := ParseCallNode(stream);
        case PARALLEL => ok, result := ParseBlockNode(stream, true);
        case SEQUENCE => ok, result := ParseBlockNode(stream, false);
        case WORKFLOW => result := ParseWorkflowNode(stream); ok := true;
        case TASK => result := ParseTaskNode(stream); ok := true;
        case AGENT => result := ParseAgentNode(stream); ok := true;
        case IF => ok, result := ParseConditionalNode(stream);
        case _ => result := ParseSimpleCommand(stream); ok := true;
      }
      node := Some(result);
    }

    method ParseCallNode(stream: TokenStream) returns (ok: bool, node: Node)
      requires stream.Valid() && stream.HasMore() && KeywordOf(stream.tokens[stream.position]) == CALL
      modifies stream
      ensures stream.Valid()
      ensures Outcome(Parsing.ParseNode(parse, stream.tokens, old(stream.position)), ok, Some(node), stream.position)
    {
      var token := stream.Advance();
      var args := token.value.args;
      if args == [] {
        return false, Call("", map[]);
      }
      var argsMap := ParseToolArguments(args[0], args[1..]);
      return true, Call(args[0], argsMap);
    }

    method ParseToolArguments(tool: string, args: seq<string>) returns (argsMap: Args)
      ensures argsMap == ToolArguments(parse, tool, args, 0, map[])
    {
      argsMap := map[];
      var i, positionalCount := 0, 0;
      while i < |args|
        invariant 0 <= i <= |args| && 0 <= positionalCount
        invariant ToolArguments(parse, tool, args, 0, map[]) == ToolArguments(parse, tool, args[i..], positionalCount, argsMap)
      {
        var arg, rest := args[i], args[i..];
        Tails(args, i);
        if StartsWith(arg, "--") {
          var key := arg[2..];
          if i + 1 < |args| && !StartsWith(args[i + 1], "--") {
            argsMap := argsMap[key := ParseValue(parse, args[i + 1])];
            i := i + 2;
          } else {
            argsMap := argsMap[key := Bool(true)];
            i := i + 1;
          }
        } else {
          if TakesRest(tool, positionalCount) {
            return argsMap["content" := Text(StripQuotes(Join(" ", rest)))];
          }
          argsMap := argsMap[PositionalKey(tool, positionalCount) := ParseValue(parse, arg)];
          positionalCount := positionalCount + 1;
          i := i + 1;
        }
      }
    }

    /** _parse_parallel_node and _parse_sequence_node, which differ in their stop tokens only. */
    method ParseBlockNode(stream: TokenStream, parallel: bool) returns (ok: bool, node: Node)
      requires stream.Valid() && stream.HasMore()
      requires KeywordOf(stream.tokens[stream.position]) == if parallel then PARALLEL else SEQUENCE
      modifies stream
      ensures stream.Valid()
      ensures Outcome(Parsing.ParseNode(parse, stream.tokens, old(stream.position)), ok, Some(node), stream.position)
      decreases |stream.tokens| - stream.position, 1
    {
      ghost var ts, whole := stream.tokens, ParseBlock(parse, stream.tokens, stream.position + 1, parallel);
      var opening := stream.Advance();
      var children := [];
      PrependNothing(whole, SyntaxError);
      node := if parallel then Parallel([]) else Sequence([]);
      while stream.HasMore()
        invariant stream.Valid() && stream.position > old(stream.position)
        invariant whole == Prepend(children, ParseBlock(parse, ts, stream.position, parallel))
        decreases |ts| - stream.position
      {
        var token := stream.Current();
        if EndsBlock(parallel, KeywordOf(token.value)) {
          break;
        }
        var childOk, child := ParseNode(stream);
        if !childOk {
          return false, node;
        }
        PrependTwice(children, [child.value], ParseBlock(parse, ts, stream.position, parallel));
        children := children + [child.value];
      }
      assert children + [] == children;
      ok, node := true, if parallel then Parallel(children) else Sequence(children);
    }

    method ParseConditionalNode(stream: TokenStream) returns (ok: bool, node: Node)
      requires stream.Valid() && stream.HasMore() && KeywordOf(stream.tokens[stream.position]) == IF
      modifies stream
      ensures stream.Valid()
      ensures Outcome(Parsing.ParseNode(parse, stream.tokens, old(stream.position)), ok, Some(node), stream.position)
      decreases |stream.tokens| - stream.position, 1
    {
      var token := stream.Advance();
      var branchesOk, branches := ParseBranchLoop(stream);
      ok, node := branchesOk, Conditional(ConditionOf(token.value), branches.thenPart, branches.elsePart);
    }

    /** The loop of an IF: current_block is the then part until an ELSE has been read. */
    method ParseBranchLoop(stream: TokenStream) returns (ok: bool, branches: Branches)
      requires stream.Valid()
      modifies stream
      ensures stream.Valid()
      ensures BranchOutcome(ParseBranches(parse, stream.tokens, old(stream.position), false), ok, branches, stream.position)
      decreases |stream.tokens| - stream.position, 5
    {
      ghost var whole := ParseBranches(parse, stream.tokens, stream.position, false);
      var inElse, going := false, true;
      branches := Branches([], []);
      PrependNothing(SyntaxError, whole);
      while going
        invariant stream.Valid() && stream.position >= old(stream.position)
        invariant whole == if going then BranchesFrom(parse, branches, stream.tokens, stream.position, inElse) else Ok(branches, stream.position)
        decreases |stream.tokens| - stream.position, going
      {
        ok, going, inElse, branches := ParseBranchStep(stream, inElse, branches);
        if !ok {
          return;
        }
      }
      ok := true;
    }

    /** One turn of that loop; going is false where the source breaks. */
    method ParseBranchStep(stream: TokenStream, inElse: bool, branches: Branches)
      returns (ok: bool, going: bool, nowElse: bool, grown: Branches)
      requires stream.Valid()
      modifies stream
      ensures stream.Valid() && (ok ==> stream.position >= old(stream.position) + if going then 1 else 0)
      ensures BranchesFrom(parse, branches, stream.tokens, old(stream.position), inElse)
           == if !ok then SyntaxError
              else if going then BranchesFrom(parse, grown, stream.tokens, stream.position, nowElse)
              else Ok(grown, stream.position)
      decreases |stream.tokens| - stream.position, 4
    {
      var token := stream.Current();
      if token.Some? && BranchChild(KeywordOf(token.value)) {
        ok, grown := ParseBranchChild(stream, inElse, branches);
        going, nowElse := true, inElse;
      } else {
        BranchEnds(parse, branches, stream.tokens, stream.position, inElse);
        going, nowElse := EndBranch(stream, inElse);
        ok, grown := true, branches;
      }
    }

    /** The tokens of that loop that are no children: ELSE, the terminator, and what ends the IF. */
    method EndBranch(stream: TokenStream, inElse: bool) returns (going: bool, nowElse: bool)
      requires stream.Valid() && (stream.HasMore() ==> !BranchChild(KeywordOf(stream.tokens[stream.position])))
      modifies stream
      ensures stream.Valid()
      ensures (going, nowElse, stream.position) == BranchEnd(stream.tokens, old(stream.position), inElse)
    {
      going, nowElse := false, inElse;
      var token := stream.Current();
      if token.Some? {
        var command := KeywordOf(token.value);
        if !LeavesIf(command) {
          token := stream.Advance();
          if command == ELSE {
            going, nowElse := true, true;
          }
        }
      }
    }

    /** One child, appended to the branch being filled. */
    method ParseBranchChild(stream: TokenStream, inElse: bool, branches: Branches) returns (ok: bool, grown: Branches)
      requires stream.Valid() && stream.HasMore()
      requires BranchChild(KeywordOf(stream.tokens[stream.position]))
      modifies stream
      ensures stream.Valid() && (ok ==> stream.position > old(stream.position))
      ensures BranchesFrom(parse, branches, stream.tokens, old(stream.position), inElse)
           == if ok then BranchesFrom(parse, grown, stream.tokens, stream.position, inElse) else SyntaxError
      decreases |stream.tokens| - stream.position, 3
    {
      var childOk, child := ParseNode(stream);
      if !childOk {
        return false, branches;
      }
      var more := if inElse then Branches([], [child.value]) else Branches([child.value], []);
      PrependBranchesTwice(branches, more, ParseBranches(parse, stream.tokens, stream.position, inElse));
      return true, Branches(branches.thenPart + more.thenPart, branches.elsePart + more.elsePart);
    }

    /** The key-value loop over args[1:], two at a time. */
    method ParseNamedArgs(args: seq<string>, name: string) returns (found: Args)
      ensures found == NamedArgs(parse, if args == [] then [] else args[1..], map["name" := Text(name)])
    {
      found := map["name" := Text(name)];
      ghost var whole := NamedArgs(parse, if args == [] then [] else args[1..], found);
      var i := 1;
      while i < |args|
        invariant 1 <= i
        invariant whole == NamedArgs(parse, if i <= |args| then args[i..] else [], found)
      {
        if i + 1 < |args| {
          Tails(args, i);
          found := found[DropDashes(args[i]) := ParseValue(parse, args[i + 1])];
        }
        i := i + 2;
      }
    }

    method ParseWorkflowNode(stream: TokenStream) returns (node: Node)
      requires stream.Valid() && stream.HasMore() && KeywordOf(stream.tokens[stream.position]) == WORKFLOW
      modifies stream
      ensures stream.Valid()
      ensures Outcome(Parsing.ParseNode(parse, stream.tokens, old(stream.position)), true, Some(node), stream.position)
    {
      var token := stream.Advance();
      var args := ParseNamedArgs(token.value.args, FirstOr(token.value.args, ""));
      node := Workflow(args);
    }

    method ParseTaskNode(stream: TokenStream) returns (node: Node)
      requires stream.Valid() && stream.HasMore() && KeywordOf(stream.tokens[stream.position]) == TASK
      modifies stream
      ensures stream.Valid()
      ensures Outcome(Parsing.ParseNode(parse, stream.tokens, old(stream.position)), true, Some(node), stream.position)
    {
      var token := stream.Advance();
      var args := ParseNamedArgs(token.value.args, FirstOr(token.value.args, ""));
      node := Task(args);
    }

    method ParseAgentNode(stream: TokenStream) returns (node: Node)
      requires stream.Valid() && stream.HasMore() && KeywordOf(stream.tokens[stream.position]) == AGENT
      modifies stream
      ensures stream.Valid()
      ensures Outcome(Parsing.ParseNode(parse, stream.tokens, old(stream.position)), true, Some(node), stream.position)
    {
      var token := stream.Advance();
      node := Agent(FirstOr(token.value.args, ""));
    }

    method ParseSimpleCommand(stream: TokenStream) returns (node: Node)
      requires stream.Valid() && stream.HasMore()
      requires KeywordOf(stream.tokens[stream.position]) !in {CALL, PARALLEL, SEQUENCE, WORKFLOW, TASK, AGENT, IF}
      modifies stream
      ensures stream.Valid()
      ensures Outcome(Parsing.ParseNode(parse, stream.tokens, old(stream.position)), true, Some(node), stream.position)
    {
      var token := stream.Advance();
      var args := EnumerateArgs(token.value.args);
      node := Command(token.value.value, args);
    }

    method EnumerateArgs(args: seq<string>) returns (found: Args)
      ensures found == NumberedArgs(parse, args, 0, map[])
    {
      found := map[];
      for i := 0 to |args|
        invariant NumberedArgs(parse, args, 0, map[]) == NumberedArgs(parse, args[i..], i, found)
      {
        Sequences.Unfold(args, i);
        found := found["arg" + Digits(i) := ParseValue(parse, args[i])];
      }
    }
  }

  /** A method's outcome agrees with the parse it is meant to compute. */
  ghost predicate Outcome(r: Parsed<Node>, ok: bool, node: Option<Node>, position: nat) {
    match r
    case SyntaxError => !ok
    case Ok(n, j) => ok && node == Some(n) && position == j
  }

  ghost predicate BranchOutcome(r: Parsed<Branches>, ok: bool, b: Branches, position: nat) {
    if ok then r == Ok(b, position) else r == SyntaxError
  }

  lemma Tails(args: seq<string>, i: nat)
    requires i < |args|
    ensures args[i..] != [] && args[i..][0] == args[i] && args[i..][1..] == args[i + 1..]
    ensures i + 1 < |args| ==> args[i..][1] == args[i + 1] && args[i..][2..] == args[i + 2..]
  {
  }

  lemma PrependNothing(r: Parsed<seq<Node>>, b: Parsed<Branches>)
    ensures Prepend([], r) == r && PrependBranches(Branches([], []), b) == b
  {
    if r.Ok? {
      assert [] + r.value == r.value;
    }
    if b.Ok? {
      assert [] + b.value.thenPart == b.value.thenPart && [] + b.value.elsePart == b.value.elsePart;
    }
  }

  /** What parsing will make of the rest of an IF, given the branches so far. */
  ghost function BranchesFrom(parse: ValueParser, b: Branches, ts: seq<Token>, i: nat, inElse: bool): Parsed<Branches>
    requires i <= |ts|
  {
    PrependBranches(b, ParseBranches(parse, ts, i, inElse))
  }

  /** Whether the loop goes on, in which branch, and where. */
  function BranchEnd(ts: seq<Token>, i: nat, inElse: bool): (r: (bool, bool, nat))
    requires i <= |ts|
    ensures i <= r.2 <= |ts| && (r.0 ==> i < r.2)
  {
    if i == |ts| || LeavesIf(KeywordOf(ts[i])) then (false, inElse, i)
    else if KeywordOf(ts[i]) == ELSE then (true, true, i + 1)
    else (false, inElse, i + 1)
  }

  lemma BranchEnds(parse: ValueParser, b: Branches, ts: seq<Token>, i: nat, inElse: bool)
    requires i <= |ts| && (i < |ts| ==> !BranchChild(KeywordOf(ts[i])))
    ensures var (going, nowElse, j) := BranchEnd(ts, i, inElse);
            BranchesFrom(parse, b, ts, i, inElse) == if going then BranchesFrom(parse, b, ts, j, nowElse) else Ok(b, j)
  {
    assert b.thenPart + [] == b.thenPart && b.elsePart + [] == b.elsePart;
  }

  lemma PrependTwice(a: seq<Node>, b: seq<Node>, r: Parsed<seq<Node>>)
    ensures Prepend(a, Prepend(b, r)) == Prepend(a + b, r)
  {
    if r.Ok? {
      Sequences.Assoc(a, b, r.value);
    }
  }

  lemma PrependBranchesTwice(a: Branches, b: Branches, r: Parsed<Branches>)
    ensures PrependBranches(a, PrependBranches(b, r))
         == PrependBranches(Branches(a.thenPart + b.thenPart, a.elsePart + b.elsePart), r)
  {
    if r.Ok? {
      Sequences.Assoc(a.thenPart, b.thenPart, r.value.thenPart);
      Sequences.Assoc(a.elsePart, b.elsePart, r.value.elsePart);
    }
  }
}
