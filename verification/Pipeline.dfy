/** From program text to execution (src/praxis_sdk/dsl/parser.py:158-261): what the stages guarantee
    one another. */
module Pipeline {
  import opened Wrappers
  import opened DslTypes
  import opened Arguments
  import opened Lexing
  import opened Parsing
  import opened Acceptance
  import opened Validation
  import opened CacheKeys
  import opened Execution
  import opened CacheTransparency
  import opened CacheModel
  import opened Json
  import opened JsonKeys
  import opened Schedules
  import opened ProgramSchedules

  // ---- Text to AST ---------------------------------------------------------------------------------

  lemma TokenizedFieldsNotEmpty(content: string)
    requires Tokenize(content).Tokens?
    ensures FieldsNotEmpty(Tokenize(content).tokens)
  {
    TokenizedPrintable(SplitLines(content), 1);
    forall t | t in Tokenize(content).tokens ensures NoEmptyField(t) {
      assert Lexing.Printable(t);
      assert forall a :: a in t.args ==> a in [t.value] + t.args;
    }
  }

  /** For every text the tokenizer accepts, build_ast succeeds exactly when each token is fine by itself
      and with its right neighbour. */
  lemma TextAcceptanceIsLocal(parse: ValueParser, content: string)
    requires Tokenize(content).Tokens?
    ensures var ts := Tokenize(content).tokens;
            BuildAst(parse, ts).Built? <==> forall k :: 0 <= k < |ts| ==> LocallyFine(ts, k)
  {
    TokenizedFieldsNotEmpty(content);
    AcceptanceIsLocal(parse, Tokenize(content).tokens);
  }

  // ---- AST to execution ----------------------------------------------------------------------------

  /** The tool name of every CALL has no colon. */
  ghost predicate ToolsKeyable(ts: seq<Token>) {
    forall t :: t in ts && KeywordOf(t) == CALL && t.args != [] ==> ':' !in t.args[0]
  }

  /** The dictionaries the builder makes serialise. */
  ghost predicate Serialises(parse: ValueParser, dump: Dump) {
    forall tool, args :: dump(ToolArguments(parse, tool, args, 0, map[])).Some?
  }

  lemma {:induction false} AppendCalls(a: seq<Node>, b: seq<Node>, S: iset<CallSite>)
    requires AllCallsWithin(a, S) && AllCallsWithin(b, S)
    ensures AllCallsWithin(a + b, S)
    decreases |a|
  {
    if a == [] {
      assert a + b == b;
    } else {
      AppendCalls(a[1..], b, S);
      assert (a + b)[0] == a[0] && (a + b)[1..] == a[1..] + b;
    }
  }

  lemma {:induction false} NodeCalls(parse: ValueParser, ts: seq<Token>, i: nat, dump: Dump)
    requires i < |ts| && ToolsKeyable(ts) && Serialises(parse, dump) && ParseNode(parse, ts, i).Ok?
    ensures CallsWithin(ParseNode(parse, ts, i).value, Keyed(dump))
    decreases |ts| - i, 0
  {
    match KeywordOf(ts[i]) {
      case PARALLEL => BlockCalls(parse, ts, i + 1, true, dump);
      case SEQUENCE => BlockCalls(parse, ts, i + 1, false, dump);
      case IF => BranchCalls(parse, ts, i + 1, false, dump);
      case _ =>
        assert ts[i] in ts;
    }
  }

  lemma {:induction false} BlockCalls(parse: ValueParser, ts: seq<Token>, i: nat, parallel: bool, dump: Dump)
    requires i <= |ts| && ToolsKeyable(ts) && Serialises(parse, dump) && ParseBlock(parse, ts, i, parallel).Ok?
    ensures AllCallsWithin(ParseBlock(parse, ts, i, parallel).value, Keyed(dump))
    decreases |ts| - i, 1
  {
    if i < |ts| && !EndsBlock(parallel, KeywordOf(ts[i])) {
      NodeCalls(parse, ts, i, dump);
      var Ok(node, j) := ParseNode(parse, ts, i);
      BlockCalls(parse, ts, j, parallel, dump);
      AppendCalls([node], ParseBlock(parse, ts, j, parallel).value, Keyed(dump));
    }
  }

  lemma {:induction false} BranchCalls(parse: ValueParser, ts: seq<Token>, i: nat, inElse: bool, dump: Dump)
    requires i <= |ts| && ToolsKeyable(ts) && Serialises(parse, dump) && ParseBranches(parse, ts, i, inElse).Ok?
    ensures var b := ParseBranches(parse, ts, i, inElse).value;
            AllCallsWithin(b.thenPart, Keyed(dump)) && AllCallsWithin(b.elsePart, Keyed(dump))
    decreases |ts| - i, 1
  {
    if i < |ts| {
      var k := KeywordOf(ts[i]);
      if k == ELSE {
        BranchCalls(parse, ts, i + 1, true, dump);
      } else if !LeavesIf(k) && k != ENDIF && k != END_IF {
        NodeCalls(parse, ts, i, dump);
        var Ok(node, j) := ParseNode(parse, ts, i);
        BranchCalls(parse, ts, j, inElse, dump);
        var rest := ParseBranches(parse, ts, j, inElse).value;
        AppendCalls(if inElse then [] else [node], rest.thenPart, Keyed(dump));
        AppendCalls(if inElse then [node] else [], rest.elsePart, Keyed(dump));
      }
    }
  }

  lemma {:induction false} ProgramCalls(parse: ValueParser, ts: seq<Token>, i: nat, dump: Dump)
    requires i <= |ts| && ToolsKeyable(ts) && Serialises(parse, dump) && ParseAll(parse, ts, i).Ok?
    ensures AllCallsWithin(ParseAll(parse, ts, i).value, Keyed(dump))
    decreases |ts| - i
  {
    if i < |ts| {
      NodeCalls(parse, ts, i, dump);
      var Ok(node, j) := ParseNode(parse, ts, i);
      ProgramCalls(parse, ts, j, dump);
      AppendCalls([node], ParseAll(parse, ts, j).value, Keyed(dump));
    }
  }

  /** Programs that pass token validation run the same with and without the cache: for every tool oracle,
      clock and eviction history, over any cache that is true of well-keyed calls; and they leave it true. */
  lemma ValidatedProgramsAreTransparent(parse: ValueParser, ts: seq<Token>, env: Runtime, w: World, plain: World, reserved: set<string>)
    requires CacheKeys.Injective(env.dump) && Serialises(parse, env.dump)
    requires Ready(w) && TrueFor(env, Keyed(env.dump), w.cache) && Ready(plain)
    ensures NoErrors(TokenSequenceIssues(reserved, ts)) && BuildAst(parse, ts).Built? ==>
            var nodes := BuildAst(parse, ts).nodes;
            && EraseAll(ExecTop(env, nodes, w).0) == EraseAll(ExecTop(env.(useCache := false), nodes, plain).0)
            && (env.useCache ==> TrueFor(env, Keyed(env.dump), ExecTop(env, nodes, w).1.cache))
  {
    if NoErrors(TokenSequenceIssues(reserved, ts)) && BuildAst(parse, ts).Built? {
      TokensValid(reserved, ts);
      forall t | t in ts && KeywordOf(t) == CALL && t.args != [] ensures ':' !in t.args[0] {
        assert TokenFine(t);
        WalksAgree(t.args, 0);
      }
      ProgramCalls(parse, ts, 0, env.dump);
      KeyedSeparate(env.dump);
      var nodes := BuildAst(parse, ts).nodes;
      CachedEqualsUncached(env, Keyed(env.dump), nodes, w, plain);
      TransparentTop(env, Keyed(env.dump), nodes, w);
    }
  }

  /** The JSON printer is a dump as these programs need it. */
  lemma JsonSerialises(parse: ValueParser)
    ensures CacheKeys.Injective(JsonDump()) && Serialises(parse, JsonDump())
  {
    JsonDumpLosesNothing();
  }

  /** All calls there are: every dictionary has a JSON text. */
  ghost function AnyCall(): iset<CallSite> {
    iset c: CallSite | JsonDump()(c.args).Some?
  }

  lemma {:induction false} AnyCallWithin(node: Node)
    ensures CallsWithin(node, AnyCall())
    decreases node, 1
  {
    match node {
      case Parallel(children) => AnyCallsWithin(children);
      case Sequence(children) => AnyCallsWithin(children);
      case Conditional(_, children, elseChildren) =>
        AnyCallsWithin(children);
        AnyCallsWithin(elseChildren);
      case _ =>
    }
  }

  lemma {:induction false} AnyCallsWithin(nodes: seq<Node>)
    ensures AllCallsWithin(nodes, AnyCall())
    decreases nodes, 0
  {
    if nodes != [] {
      AnyCallWithin(nodes[0]);
      AnyCallsWithin(nodes[1..]);
    }
  }

  lemma AnyCallsSeparate()
    ensures KeysSeparate(JsonDump(), AnyCall())
  {
    forall c, d | CacheTransparency.KeyOf(JsonDump(), c) == CacheTransparency.KeyOf(JsonDump(), d) ensures c == d {
      JsonKeysSeparate(c.tool, c.args, d.tool, d.args);
    }
  }

  /** With keys made by the JSON printer every program, validated or not, runs the same with and without
      the cache, for every tool oracle, clock and eviction history, over any cache that is true; and it
      leaves the cache true. */
  lemma ProgramsAreTransparent(agent: Option<AgentInterface>, clock: Clock, useCache: bool, nodes: seq<Node>, w: World, plain: World)
    requires var env := Runtime(agent, clock, JsonDump(), useCache);
             Ready(w) && TrueFor(env, AnyCall(), w.cache) && Ready(plain)
    ensures var env := Runtime(agent, clock, JsonDump(), useCache);
            && EraseAll(ExecTop(env, nodes, w).0) == EraseAll(ExecTop(env.(useCache := false), nodes, plain).0)
            && (useCache ==> TrueFor(env, AnyCall(), ExecTop(env, nodes, w).1.cache))
  {
    var env := Runtime(agent, clock, JsonDump(), useCache);
    AnyCallsSeparate();
    AnyCallsWithin(nodes);
    CachedEqualsUncached(env, AnyCall(), nodes, w, plain);
    TransparentTop(env, AnyCall(), nodes, w);
  }

  /** And so it does under every interleaving of its PARALLEL children and whatever others do to the cache,
      as long as they keep it true: a program that has ended gives what its AST means. */
  lemma ProgramsAreScheduleIndependent(agent: Option<AgentInterface>, clock: Clock, useCache: bool, nodes: seq<Node>, w: World, events: seq<Event>)
    requires var env := Runtime(agent, clock, JsonDump(), useCache);
             Ready(w) && TrueFor(env, AnyCall(), w.cache) && Allowed(env, AnyCall(), events)
    ensures var env := Runtime(agent, clock, JsonDump(), useCache);
            var (q, w') := RunProgram(env, Launch([], nodes), w, events);
            && (q.Ended? ==> EraseAll(q.results) == MeaningTop(agent, nodes))
            && (useCache ==> TrueFor(env, AnyCall(), w'.cache))
  {
    var env := Runtime(agent, clock, JsonDump(), useCache);
    AnyCallsSeparate();
    AnyCallsWithin(nodes);
    ProgramIndependence(env, AnyCall(), nodes, w, events, w);
  }
}
