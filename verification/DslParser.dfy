/** The interpreter as the source writes it (src/praxis_sdk/dsl/parser.py): methods that loop over
    children, stop early, and update the shared cache and counters. Each is proved against
    Execution; there a PARALLEL starts each child when the previous one is done. ExecuteConcurrently
    runs a node as gathered coroutines, in whatever order the scheduler picks. */
module DslParser {
  import opened Wrappers
  import opened DslTypes
  import opened CacheModel
  import opened CacheKeys
  import opened Execution
  import opened ExecutionLoops
  import opened ToolCache
  import opened CacheTransparency
  import opened Schedules
  import opened Stopping

  datatype ExecutionResult =
    | EmptyAst
    | Completed(results: seq<NodeResult>, nodeCount: nat)

  class AdvancedDslParser {
    const cache: ToolExecutionCache
    const agent: Option<AgentInterface>
    const dump: Dump
    var cacheHits: nat
    var cacheMisses: nat

    ghost predicate Valid()
      reads this, cache
    {
      cache.Valid()
    }

    ghost function Env(useCache: bool): Runtime {
      Runtime(agent, cache.clock, dump, useCache)
    }

    ghost function State(): World
      reads this, cache
    {
      World(cache.View(), cacheHits, cacheMisses)
    }

    constructor (agent: Option<AgentInterface>, dump: Dump, clock: Clock)
      ensures Valid() && fresh(cache)
      ensures State() == World(Empty(1000, 300), 0, 0) && cache.clock == clock
      ensures this.agent == agent && this.dump == dump
    {
      this.agent, this.dump := agent, dump;
      cache := new ToolExecutionCache(1000, 300, clock);
      cacheHits, cacheMisses := 0, 0;
    }

    method ExecuteAst(nodes: seq<Node>, useCache: bool) returns (r: ExecutionResult)
      requires Valid()
      modifies this, cache
      ensures Valid()
      ensures nodes == [] ==> r == EmptyAst && State() == old(State())
      ensures nodes != [] ==>
        var (rs, w) := ExecTop(Env(useCache), nodes, old(State()));
        r == Completed(rs, |nodes|) && State() == w && EndsAtTopFailure(rs, nodes)
    {
      if nodes == [] {
        return EmptyAst;
      }
      ProgramEnds(Env(useCache), nodes, State());
      var results := [];
      ghost var env, whole := Env(useCache), ExecTop(Env(useCache), nodes, State());
      ExecTopEnds(env, nodes, [], State());
      for i := 0 to |nodes|
        invariant Valid()
        invariant whole == ExecTopFrom(env, nodes, i, results, State())
      {
        ExecTopAdvances(env, nodes, i, results, State());
        var result := ExecuteNode(nodes[i], useCache);
        results := results + [result];
        if !Success(result) {
          if !nodes[i].Parallel? {
            return Completed(results, |nodes|);
          }
        }
      }
      ExecTopEnds(env, nodes, results, State());
      r := Completed(results, |nodes|);
    }

    method ExecuteNode(node: Node, useCache: bool) returns (r: NodeResult)
      requires Valid()
      modifies this, cache
      ensures Valid()
      ensures (r, State()) == Exec(Env(useCache), node, old(State()))
      decreases node, 2
    {
      match node {
        case Call(tool, args) => r := ExecuteCallNode(tool, args, useCache);
        case Parallel(_) => r := ExecuteParallelNode(node, useCache);
        case Sequence(_) => r := ExecuteSequenceNode(node, useCache);
        case Conditional(_, _, _) => r := ExecuteConditionalNode(node, useCache);
        case _ => r := LeafResult(node);
      }
    }

    method ExecuteCallNode(tool: string, args: Args, useCache: bool) returns (r: NodeResult)
      requires Valid()
      modifies this, cache
      ensures Valid()
      ensures (r, State()) == ExecCall(Env(useCache), tool, args, old(State()))
    {
      var found := LookUp(tool, args, useCache);
      if found.Some? {
        return found.value;
      }
      r := RunAndRecord(tool, args, useCache);
    }

    /** The part of a CALL before its first await: the cache lookup. */
    method LookUp(tool: string, args: Args, useCache: bool) returns (found: Option<NodeResult>)
      requires Valid()
      modifies this, cache
      ensures Valid()
      ensures (found, State()) == Lookup(Env(useCache), tool, args, old(State()))
    {
      if useCache {
        var cached := cache.GetByKey(Key(dump, tool, args));
        if cached != Null {
          cacheHits := cacheHits + 1;
          return Some(Hit(tool, args, cached));
        }
      }
      found := None;
    }

    /** The part behind it: the tool's result, stored if it was executed. */
    method RunAndRecord(tool: string, args: Args, useCache: bool) returns (r: NodeResult)
      requires Valid()
      modifies this, cache
      ensures Valid()
      ensures r == RunTool(agent, tool, args) && State() == Record(Env(useCache), r, old(State()))
    {
      if agent.None? {
        r := CallResult(tool, args, Simulated, None, false);
      } else {
        r := ExecuteToolWithAgent(agent.value, tool, args);
      }
      if useCache && r.outcome.Executed? {
        cache.SetByKey(Key(dump, tool, args), r.outcome.value, None);
        cacheMisses := cacheMisses + 1;
      }
    }

    /** Local execution first, then a peer that has the tool. It succeeds exactly when somebody was asked
        and returned; then the result is theirs. Whatever raised becomes a failure with that error. */
    method ExecuteToolWithAgent(agent: AgentInterface, tool: string, args: Args) returns (r: NodeResult)
      ensures r == RunTool(Some(agent), tool, args)
      ensures r.CallResult? && r.tool == tool && r.args == args && !r.cacheHit
      ensures var asked := Asked(agent, tool, args);
              && (Success(r) <==> asked.Some? && asked.value.Returned?)
              && (Success(r) ==> r.outcome == Executed(asked.value.value) && r.executedBy == Executor(agent, tool))
              && (asked.Some? && asked.value.Raised? ==> r.outcome == Failed(asked.value.error))
      ensures agent.hasLocalTool(tool).Raised? ==> r.outcome == Failed(agent.hasLocalTool(tool).error)
    {
      var isLocal := agent.hasLocalTool(tool);
      if isLocal.Raised? {
        return CallResult(tool, args, Failed(isLocal.error), None, false);
      }
      if isLocal.value {
        return Ran(tool, args, agent.executeLocalTool(tool, args), "local");
      }
      var peer := agent.findAgentWithTool(tool);
      if peer.Raised? {
        return CallResult(tool, args, Failed(peer.error), None, false);
      }
      if peer.value.Some? && peer.value.value != "" {
        return Ran(tool, args, agent.executeRemoteTool(peer.value.value, tool, args), peer.value.value);
      }
      r := CallResult(tool, args, Failed("Tool " + tool + " not found locally or remotely"), None, false);
    }

    method ExecuteAll(children: seq<Node>, useCache: bool) returns (results: seq<NodeResult>)
      requires Valid()
      modifies this, cache
      ensures Valid()
      ensures (results, State()) == ExecAll(Env(useCache), children, old(State()))
      decreases children, 3
    {
      results := [];
      ghost var env, whole := Env(useCache), ExecAll(Env(useCache), children, State());
      ExecAllEnds(env, children, [], State());
      for i := 0 to |children|
        invariant Valid()
        invariant whole == ExecAllFrom(env, children, i, results, State())
      {
        ExecAllAdvances(env, children, i, results, State());
        var result := ExecuteNode(children[i], useCache);
        results := results + [result];
      }
      ExecAllEnds(env, children, results, State());
    }

    method ExecuteParallelNode(node: Node, useCache: bool) returns (r: NodeResult)
      requires Valid() && node.Parallel?
      modifies this, cache
      ensures Valid()
      ensures (r, State()) == Exec(Env(useCache), node, old(State()))
      ensures r.ParallelResult? && |r.results| == |node.children|
      ensures r.successCount == 0 <==> HasFailed(r)
      decreases node, 1
    {
      ExecReports(Env(useCache), node, State());
      var results := ExecuteAll(node.children, useCache);
      var successCount := 0;
      for i := 0 to |results|
        invariant successCount == CountSuccess(results[..i])
      {
        assert results[..i + 1][..i] == results[..i];
        if Success(results[i]) {
          successCount := successCount + 1;
        }
      }
      assert results[..|results|] == results;
      r := ParallelResult(results, successCount, |node.children|);
    }

    method ExecuteSequenceNode(node: Node, useCache: bool) returns (r: NodeResult)
      requires Valid() && node.Sequence?
      modifies this, cache
      ensures Valid()
      ensures (r, State()) == Exec(Env(useCache), node, old(State()))
      ensures r.SequenceResult? && EndsAtFailure(r.results, |node.children|)
      ensures r.failedAtStep.Some? <==> r.results != [] && HasFailed(r.results[|r.results| - 1])
      decreases node, 1
    {
      SequenceEnds(Env(useCache), node.children, State());
      var results, failedAtStep := ExecuteUntilFailure(node.children, useCache);
      r := SequenceResult(results, failedAtStep);
    }

    /** The loop of a SEQUENCE; failedAtStep is where the source returns from inside the loop. */
    method ExecuteUntilFailure(children: seq<Node>, useCache: bool) returns (results: seq<NodeResult>, failedAtStep: Option<nat>)
      requires Valid()
      modifies this, cache
      ensures Valid()
      ensures (results, State()) == ExecUntilFailure(Env(useCache), children, old(State()))
      ensures failedAtStep == FailedStep(results)
      ensures EndsAtFailure(results, |children|)
      decreases children, 3
    {
      results, failedAtStep := [], None;
      ghost var env, whole := Env(useCache), ExecUntilFailure(Env(useCache), children, State());
      ExecUntilFailureEnds(env, children, [], State());
      UntilFailureReports(env, children, State());
      for i := 0 to |children|
        invariant Valid() && |results| == i
        invariant FailedStep(results) == None
        invariant whole == ExecUntilFailureFrom(env, children, i, results, State())
      {
        ExecUntilFailureAdvances(env, children, i, results, State());
        var result := ExecuteNode(children[i], useCache);
        OneMoreStep(results, result);
        results := results + [result];
        if !Success(result) {
          failedAtStep := Some(i);
          return;
        }
      }
      ExecUntilFailureEnds(env, children, results, State());
    }

    method ExecuteConditionalNode(node: Node, useCache: bool) returns (r: NodeResult)
      requires Valid() && node.Conditional?
      modifies this, cache
      ensures Valid()
      ensures (r, State()) == Exec(Env(useCache), node, old(State()))
      decreases node, 1
    {
      var holds := EvaluateCondition(node.condition);
      var results;
      if holds {
        results := ExecuteAll(node.children, useCache);
      } else {
        results := ExecuteAll(node.elseChildren, useCache);
      }
      r := ConditionalResult(node.condition, holds, results);
    }

    // ---- Gathered coroutines -----------------------------------------------------------------------

    /** One atomic step of a tree of coroutines. */
    method Advance(p: Process, choice: seq<nat>, useCache: bool) returns (q: Process)
      requires Valid()
      modifies this, cache
      ensures Valid()
      ensures (q, State()) == Step(Env(useCache), p, old(State()), choice)
      decreases p
    {
      match p {
        case Start(node) => q := Begin(node, useCache);
        case Awaiting(tool, args) =>
          var r := RunAndRecord(tool, args, useCache);
          q := Finished(r);
        case Finished(_) => q := p;
        case Gather(ps) =>
          if AllFinished(ps) {
            q := Finished(ParallelOf(Results(ps)));
          } else if choice != [] && choice[0] < |ps| {
            var moved := Advance(ps[choice[0]], choice[1..], useCache);
            q := Gather(ps[choice[0] := moved]);
          } else {
            q := p;
          }
        case InSequence(done, current, rest) =>
          if current.Finished? {
            q := ContinueSequence(done + [current.result], rest);
          } else {
            var moved := Advance(current, choice, useCache);
            q := InSequence(done, moved, rest);
          }
        case InBranch(condition, holds, done, current, rest) =>
          if current.Finished? {
            q := ContinueBranch(condition, holds, done + [current.result], rest);
          } else {
            var moved := Advance(current, choice, useCache);
            q := InBranch(condition, holds, done, moved, rest);
          }
      }
    }

    /** Entering a node. */
    method Begin(node: Node, useCache: bool) returns (q: Process)
      requires Valid()
      modifies this, cache
      ensures Valid()
      ensures (q, State()) == Step(Env(useCache), Start(node), old(State()), [])
    {
      match node {
        case Call(tool, args) =>
          var found := LookUp(tool, args, useCache);
          q := if found.Some? then Finished(found.value) else Awaiting(tool, args);
        case Parallel(children) => q := Gather(StartAll(children));
        case Sequence(children) => q := ContinueSequence([], children);
        case Conditional(c, children, elseChildren) =>
          var holds := EvaluateCondition(c);
          q := ContinueBranch(c, holds, [], if holds then children else elseChildren);
        case _ => q := Finished(LeafResult(node));
      }
    }

    /** The scheduler: at every gather some unfinished child, whichever it likes. */
    method Choose(p: Process) returns (choice: seq<nat>)
      ensures !p.Finished? ==> Moves(p, choice)
      decreases p
    {
      choice := [];
      match p {
        case Gather(ps) =>
          if !AllFinished(ps) {
            var i :| 0 <= i < |ps| && !ps[i].Finished?;
            var inner := Choose(ps[i]);
            choice := [i] + inner;
            assert choice[1..] == inner;
          }
        case InSequence(_, current, _) => choice := Choose(current);
        case InBranch(_, _, _, current, _) => choice := Choose(current);
        case _ =>
      }
    }

    /** A node with its PARALLELs gathered: it ends, whatever the scheduler picks; and over a cache that is
        true of its calls, with the result of running all children left to right, leaving the cache true. */
    method ExecuteConcurrently(node: Node, useCache: bool, ghost S: iset<CallSite>) returns (r: NodeResult)
      requires Valid()
      modifies this, cache
      ensures Valid()
      ensures Sound(Env(useCache), S, old(State())) && CallsWithin(node, S) ==>
        && Sound(Env(useCache), S, State())
        && Erase(r) == Meaning(agent, node) == Erase(Exec(Env(useCache), node, old(State())).0)
    {
      ghost var env, start := Env(useCache), State();
      ghost var sound := Sound(env, S, start) && CallsWithin(node, S);
      if sound {
        Transparent(env, S, node, start);
      }
      var p := Start(node);
      while !p.Finished?
        invariant Valid()
        invariant sound ==> Sound(env, S, State()) && Coherent(p, S) && Promise(agent, p) == Meaning(agent, node)
        decreases Remaining(p)
      {
        var choice := Choose(p);
        if sound {
          StepKeepsPromise(env, S, p, State(), choice);
        }
        MovesOn(env, p, State(), choice);
        p := Advance(p, choice, useCache);
      }
      r := p.result;
    }
  }
}
