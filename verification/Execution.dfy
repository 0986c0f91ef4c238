/** What executing an AST computes (src/praxis_sdk/dsl/parser.py): the result dictionaries, the
    meaning of a node without any cache, and the left-to-right execution over a shared cache. */
module Execution {
  import opened Wrappers
  import opened DslTypes
  import opened CacheModel
  import opened CacheKeys

  datatype Attempt<T> = Returned(value: T) | Raised(error: string)

  /** The agent's tools as a pure oracle of tool name and arguments. */
  datatype AgentInterface = AgentInterface(
    hasLocalTool: string -> Attempt<bool>,
    executeLocalTool: (string, Args) -> Attempt<Value>,
    findAgentWithTool: string -> Attempt<Option<string>>,
    executeRemoteTool: (string, string, Args) -> Attempt<Value>)

  datatype Outcome = Executed(value: Value) | Simulated | Failed(error: string)

  /** The result dictionary of a node, one constructor per "type". */
  datatype NodeResult =
    | CallResult(tool: string, args: Args, outcome: Outcome, executedBy: Option<string>, cacheHit: bool)
    | ParallelResult(results: seq<NodeResult>, successCount: nat, totalCount: nat)
    | SequenceResult(results: seq<NodeResult>, failedAtStep: Option<nat>)
    | ConditionalResult(condition: string, conditionResult: bool, results: seq<NodeResult>)
    | WorkflowResult(args: Args)
    | TaskResult(args: Args)
    | AgentResult(agentId: string)
    | CommandResult(word: string, args: Args)

  /** result.get("success", True) */
  predicate Success(r: NodeResult) {
    match r
    case CallResult(_, _, outcome, _, _) => !outcome.Failed?
    case ParallelResult(_, successCount, _) => successCount > 0
    case SequenceResult(_, failedAtStep) => failedAtStep.None?
    case _ => true
  }

  function CountSuccess(rs: seq<NodeResult>): (n: nat)
    ensures n <= |rs|
  {
    if rs == [] then 0
    else CountSuccess(rs[..|rs| - 1]) + if Success(rs[|rs| - 1]) then 1 else 0
  }

  /** _execute_tool_with_agent, and the simulation that replaces it when there is no agent. */
  function RunTool(agent: Option<AgentInterface>, tool: string, args: Args): (r: NodeResult)
    ensures r.CallResult? && r.tool == tool && r.args == args && !r.cacheHit
  {
    if agent.None? then CallResult(tool, args, Simulated, None, false)
    else
      match agent.value.hasLocalTool(tool)
      case Raised(e) => CallResult(tool, args, Failed(e), None, false)
      case Returned(true) => Ran(tool, args, agent.value.executeLocalTool(tool, args), "local")
      case Returned(false) =>
        match agent.value.findAgentWithTool(tool)
        case Raised(e) => CallResult(tool, args, Failed(e), None, false)
        case Returned(peer) =>
          if peer.Some? && peer.value != "" then
            Ran(tool, args, agent.value.executeRemoteTool(peer.value, tool, args), peer.value)
          else
            CallResult(tool, args, Failed("Tool " + tool + " not found locally or remotely"), None, false)
  }

  function Ran(tool: string, args: Args, attempt: Attempt<Value>, executor: string): (r: NodeResult)
    ensures r.CallResult? && r.tool == tool && r.args == args && !r.cacheHit
  {
    match attempt
    case Returned(v) => CallResult(tool, args, Executed(v), Some(executor), false)
    case Raised(e) => CallResult(tool, args, Failed(e), None, false)
  }

  /** Who is asked to run a tool: the agent itself exactly when it has the tool, and else the peer it finds. */
  function Executor(a: AgentInterface, tool: string): Option<string> {
    var local := a.hasLocalTool(tool);
    var peer := a.findAgentWithTool(tool);
    if local == Returned(true) then Some("local")
    else if local == Returned(false) && peer.Returned? && peer.value != Some("") then peer.value
    else None
  }

  /** What came of asking. */
  function Asked(a: AgentInterface, tool: string, args: Args): Option<Attempt<Value>> {
    match Executor(a, tool)
    case None => None
    case Some(who) =>
      Some(if a.hasLocalTool(tool) == Returned(true) then a.executeLocalTool(tool, args) else a.executeRemoteTool(who, tool, args))
  }

  /** The dictionary returned on a cache hit. */
  function Hit(tool: string, args: Args, value: Value): NodeResult {
    CallResult(tool, args, Executed(value), None, true)
  }

  /** _evaluate_condition. Substituting context variables changes nothing: whatever is not one of
      the three false words is true. */
  function EvaluateCondition(condition: string): bool {
    LowerCase(Strip(condition)) !in ["false", "0", "no"]
  }

  /** The nodes with no children report on themselves. */
  function LeafResult(node: Node): NodeResult
    requires node.Workflow? || node.Task? || node.Agent? || node.Command?
  {
    match node
    case Workflow(args) => WorkflowResult(args)
    case Task(args) => TaskResult(args)
    case Agent(id) => AgentResult(id)
    case Command(word, args) => CommandResult(word, args)
  }

  /** The end of a sequence run: it failed at its last result, or completed. */
  function SequenceOf(rs: seq<NodeResult>): NodeResult {
    SequenceResult(rs, FailedStep(rs))
  }

  /** The index of the step at which a SEQUENCE gave up, if it did. */
  function FailedStep(rs: seq<NodeResult>): Option<nat> {
    if rs != [] && !Success(rs[|rs| - 1]) then Some(|rs| - 1) else None
  }

  function ParallelOf(rs: seq<NodeResult>): NodeResult {
    ParallelResult(rs, CountSuccess(rs), |rs|)
  }

  // ---- Results up to who executed them ------------------------------------------------------

  /** Forget executed_by and cache_hit everywhere in a result. */
  function Erase(r: NodeResult): NodeResult {
    match r
    case CallResult(tool, args, outcome, _, _) => CallResult(tool, args, outcome, None, false)
    case ParallelResult(rs, n, total) => ParallelResult(EraseAll(rs), n, total)
    case SequenceResult(rs, failed) => SequenceResult(EraseAll(rs), failed)
    case ConditionalResult(c, holds, rs) => ConditionalResult(c, holds, EraseAll(rs))
    case _ => r
  }

  function EraseAll(rs: seq<NodeResult>): (es: seq<NodeResult>)
    ensures |es| == |rs|
  {
    if rs == [] then [] else [Erase(rs[0])] + EraseAll(rs[1..])
  }

  // ---- Meaning: no cache, no clock, no schedule ---------------------------------------------

  function Meaning(agent: Option<AgentInterface>, node: Node): NodeResult
    decreases node, 1
  {
    match node
    case Call(tool, args) => Erase(RunTool(agent, tool, args))
    case Parallel(children) => ParallelOf(MeaningAll(agent, children))
    case Sequence(children) => SequenceOf(MeaningUntilFailure(agent, children))
    case Conditional(c, children, elseChildren) =>
      ConditionalResult(c, EvaluateCondition(c), MeaningAll(agent, if EvaluateCondition(c) then children else elseChildren))
    case _ => LeafResult(node)
  }

  function MeaningAll(agent: Option<AgentInterface>, nodes: seq<Node>): (rs: seq<NodeResult>)
    ensures |rs| == |nodes|
    decreases nodes, 0
  {
    if nodes == [] then [] else [Meaning(agent, nodes[0])] + MeaningAll(agent, nodes[1..])
  }

  function MeaningUntilFailure(agent: Option<AgentInterface>, nodes: seq<Node>): seq<NodeResult>
    decreases nodes, 0
  {
    if nodes == [] then []
    else
      var r := Meaning(agent, nodes[0]);
      if Success(r) then [r] + MeaningUntilFailure(agent, nodes[1..]) else [r]
  }

  // ---- Execution over a shared cache, children left to right ---------------------------------

  /** What execution runs on: the tools, the clock, the dump used for cache keys, the use_cache flag. */
  datatype Runtime = Runtime(agent: Option<AgentInterface>, clock: Clock, dump: Dump, useCache: bool)

  /** What execution changes: the tool cache and the parser's own two counters. */
  datatype World = World(cache: Cache, cacheHits: nat, cacheMisses: nat)

  ghost predicate Ready(w: World) {
    w.cache.WellFormed()
  }

  /** Look a call up. None: the tool has to be run, because nothing usable was cached. A cached
      None is a hit for the cache and still runs the tool. */
  ghost function Lookup(env: Runtime, tool: string, args: Args, w: World): (r: (Option<NodeResult>, World))
    requires Ready(w)
    ensures Ready(r.1)
  {
    if !env.useCache then (None, w)
    else
      var key := Key(env.dump, tool, args);
      GetWellFormed(env.clock, w.cache, key);
      var (value, cache) := Get(env.clock, w.cache, key);
      if value != Null then (Some(Hit(tool, args, value)), w.(cache := cache, cacheHits := w.cacheHits + 1))
      else (None, w.(cache := cache))
  }

  /** Store the result of a tool that has run, unless it failed or was only simulated. */
  ghost function Record(env: Runtime, r: NodeResult, w: World): (w': World)
    requires Ready(w) && r.CallResult?
    ensures Ready(w')
  {
    if env.useCache && r.outcome.Executed? then
      var key := Key(env.dump, r.tool, r.args);
      SetWellFormed(env.clock, w.cache, key, r.outcome.value, None);
      w.(cache := Set(env.clock, w.cache, key, r.outcome.value, None), cacheMisses := w.cacheMisses + 1)
    else w
  }

  /** _execute_call_node */
  ghost function ExecCall(env: Runtime, tool: string, args: Args, w: World): (r: (NodeResult, World))
    requires Ready(w)
    ensures Ready(r.1)
  {
    var (found, w1) := Lookup(env, tool, args, w);
    if found.Some? then (found.value, w1)
    else
      var r := RunTool(env.agent, tool, args);
      (r, Record(env, r, w1))
  }

  /** _execute_node */
  ghost function Exec(env: Runtime, node: Node, w: World): (r: (NodeResult, World))
    requires Ready(w)
    ensures Ready(r.1)
    decreases node, 1
  {
    match node
    case Call(tool, args) => ExecCall(env, tool, args, w)
    case Parallel(children) =>
      var (rs, w1) := ExecAll(env, children, w);
      (ParallelOf(rs), w1)
    case Sequence(children) =>
      var (rs, w1) := ExecUntilFailure(env, children, w);
      (SequenceOf(rs), w1)
    case Conditional(c, children, elseChildren) =>
      var holds := EvaluateCondition(c);
      var (rs, w1) := ExecAll(env, if holds then children else elseChildren, w);
      (ConditionalResult(c, holds, rs), w1)
    case _ => (LeafResult(node), w)
  }

  ghost function ExecAll(env: Runtime, nodes: seq<Node>, w: World): (r: (seq<NodeResult>, World))
    requires Ready(w)
    ensures Ready(r.1) && |r.0| == |nodes|
    decreases nodes, 0
  {
    if nodes == [] then ([], w)
    else
      var (r, w1) := Exec(env, nodes[0], w);
      var (rs, w2) := ExecAll(env, nodes[1..], w1);
      ([r] + rs, w2)
  }

  ghost function ExecUntilFailure(env: Runtime, nodes: seq<Node>, w: World): (r: (seq<NodeResult>, World))
    requires Ready(w)
    ensures Ready(r.1)
    decreases nodes, 0
  {
    if nodes == [] then ([], w)
    else
      var (r, w1) := Exec(env, nodes[0], w);
      if !Success(r) then ([r], w1)
      else
        var (rs, w2) := ExecUntilFailure(env, nodes[1..], w1);
        ([r] + rs, w2)
  }

  /** The loop of execute_ast: it stops after a failing node that is not a PARALLEL. */
  ghost function ExecTop(env: Runtime, nodes: seq<Node>, w: World): (r: (seq<NodeResult>, World))
    requires Ready(w)
    ensures Ready(r.1)
  {
    if nodes == [] then ([], w)
    else
      var (r, w1) := Exec(env, nodes[0], w);
      if !Success(r) && !nodes[0].Parallel? then ([r], w1)
      else
        var (rs, w2) := ExecTop(env, nodes[1..], w1);
        ([r] + rs, w2)
  }

  function MeaningTop(agent: Option<AgentInterface>, nodes: seq<Node>): seq<NodeResult> {
    if nodes == [] then []
    else
      var r := Meaning(agent, nodes[0]);
      if !Success(r) && !nodes[0].Parallel? then [r] else [r] + MeaningTop(agent, nodes[1..])
  }
}
