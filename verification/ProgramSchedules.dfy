/** Whole programs under every schedule (src/praxis_sdk/dsl/parser.py:231-255): the top-level loop awaits
    one node after the other, and each node runs as a tree of coroutines. */
module ProgramSchedules {
  import opened Wrappers
  import opened DslTypes
  import opened CacheModel
  import opened Execution
  import opened CacheTransparency
  import opened Schedules
  import Sequences

  datatype Program =
    | Running(done: seq<NodeResult>, node: Node, current: Process, rest: seq<Node>)
    | Ended(results: seq<NodeResult>)

  function Launch(done: seq<NodeResult>, rest: seq<Node>): Program {
    if rest == [] then Ended(done) else Running(done, rest[0], Start(rest[0]), rest[1..])
  }

  /** After a node: a failure ends the program unless the node is a PARALLEL. */
  function Proceed(done: seq<NodeResult>, node: Node, r: NodeResult, rest: seq<Node>): Program {
    if !Success(r) && !node.Parallel? then Ended(done + [r]) else Launch(done + [r], rest)
  }

  ghost function StepProgram(env: Runtime, p: Program, w: World, choice: seq<nat>): (r: (Program, World))
    requires Ready(w)
    ensures Ready(r.1)
  {
    match p
    case Ended(_) => (p, w)
    case Running(done, node, current, rest) =>
      if current.Finished? then (Proceed(done, node, current.result, rest), w)
      else
        var (q, w1) := Step(env, current, w, choice);
        (Running(done, node, q, rest), w1)
  }

  ghost function RunProgram(env: Runtime, p: Program, w: World, events: seq<Event>): (r: (Program, World))
    requires Ready(w) && WellFormed(events)
    ensures Ready(r.1)
    decreases |events|
  {
    if events == [] then (p, w)
    else
      match events[0]
      case Turn(choice) =>
        var (q, w1) := StepProgram(env, p, w, choice);
        RunProgram(env, q, w1, events[1..])
      case Outside(cache) => RunProgram(env, p, w.(cache := cache), events[1..])
  }

  // ---- What a program will yield -----------------------------------------------------------------

  function PromiseProgram(agent: Option<AgentInterface>, p: Program): seq<NodeResult> {
    match p
    case Ended(results) => EraseAll(results)
    case Running(done, node, current, rest) => EraseAll(done) + TopFrom(agent, node, Promise(agent, current), rest)
  }

  function TopFrom(agent: Option<AgentInterface>, node: Node, r: NodeResult, rest: seq<Node>): seq<NodeResult> {
    if !Success(r) && !node.Parallel? then [r] else [r] + MeaningTop(agent, rest)
  }

  ghost predicate CoherentProgram(p: Program, S: iset<CallSite>) {
    p.Running? ==> Coherent(p.current, S) && AllCallsWithin(p.rest, S)
  }

  lemma LaunchKeeps(agent: Option<AgentInterface>, S: iset<CallSite>, done: seq<NodeResult>, rest: seq<Node>)
    requires AllCallsWithin(rest, S)
    ensures PromiseProgram(agent, Launch(done, rest)) == EraseAll(done) + MeaningTop(agent, rest)
    ensures CoherentProgram(Launch(done, rest), S)
  {
    if rest == [] {
      assert EraseAll(done) + [] == EraseAll(done);
    } else {
      assert MeaningTop(agent, rest) == TopFrom(agent, rest[0], Meaning(agent, rest[0]), rest[1..]);
    }
  }

  lemma ProceedKeeps(agent: Option<AgentInterface>, S: iset<CallSite>, done: seq<NodeResult>, node: Node, r: NodeResult, rest: seq<Node>)
    requires AllCallsWithin(rest, S)
    ensures PromiseProgram(agent, Proceed(done, node, r, rest)) == PromiseProgram(agent, Running(done, node, Finished(r), rest))
    ensures CoherentProgram(Proceed(done, node, r, rest), S)
  {
    EraseAllAppend(done, r);
    EraseKeepsSuccess(r);
    LaunchKeeps(agent, S, done + [r], rest);
    Sequences.Assoc(EraseAll(done), [Erase(r)], MeaningTop(agent, rest));
  }

  lemma {:induction false} RunProgramKeepsPromise(env: Runtime, S: iset<CallSite>, p: Program, w: World, events: seq<Event>)
    requires Sound(env, S, w) && CoherentProgram(p, S) && Allowed(env, S, events)
    ensures var (q, w') := RunProgram(env, p, w, events);
            PromiseProgram(env.agent, q) == PromiseProgram(env.agent, p) && Sound(env, S, w')
    decreases |events|
  {
    if events != [] {
      match events[0] {
        case Turn(choice) =>
          if p.Running? {
            if p.current.Finished? {
              ProceedKeeps(env.agent, S, p.done, p.node, p.current.result, p.rest);
            } else {
              StepKeepsPromise(env, S, p.current, w, choice);
            }
          }
          var (q, w1) := StepProgram(env, p, w, choice);
          RunProgramKeepsPromise(env, S, q, w1, events[1..]);
        case Outside(cache) =>
          RunProgramKeepsPromise(env, S, p, w.(cache := cache), events[1..]);
      }
    }
  }

  /** Schedule independence of whole programs: whatever the interleaving inside each top-level node, and
      whatever others do to the cache, a program that has ended gives the results of the left-to-right
      execution, and so has stopped at the same node. */
  lemma ProgramIndependence(env: Runtime, S: iset<CallSite>, nodes: seq<Node>, w: World, events: seq<Event>, w0: World)
    requires Sound(env, S, w) && Sound(env, S, w0) && AllCallsWithin(nodes, S) && Allowed(env, S, events)
    ensures var (q, w') := RunProgram(env, Launch([], nodes), w, events);
            && (q.Ended? ==> EraseAll(q.results) == EraseAll(ExecTop(env, nodes, w0).0) == MeaningTop(env.agent, nodes))
            && Sound(env, S, w')
  {
    LaunchKeeps(env.agent, S, [], nodes);
    assert EraseAll([]) + MeaningTop(env.agent, nodes) == MeaningTop(env.agent, nodes);
    RunProgramKeepsPromise(env, S, Launch([], nodes), w, events);
    TransparentTop(env, S, nodes, w0);
  }

  // ---- Every program can be finished -------------------------------------------------------------

  function RemainingProgram(p: Program): nat {
    match p
    case Ended(_) => 0
    case Running(_, _, current, rest) => 1 + Remaining(current) + WorkAll(rest)
  }

  /** Any unfinished program, however it got there, can be driven to its end in so many steps. */
  lemma {:induction false} ProgramCanFinish(env: Runtime, p: Program, w: World) returns (events: seq<Event>)
    requires Ready(w)
    ensures |events| <= RemainingProgram(p)
    ensures WellFormed(events) && forall i :: 0 <= i < |events| ==> events[i].Turn?
    ensures RunProgram(env, p, w, events).0.Ended?
    decreases RemainingProgram(p)
  {
    if p.Ended? {
      events := [];
    } else {
      var choice: seq<nat> := [];
      if !p.current.Finished? {
        choice := SomeChoiceMoves(p.current);
        MovesOn(env, p.current, w, choice);
      }
      var (q, w1) := StepProgram(env, p, w, choice);
      var later := ProgramCanFinish(env, q, w1);
      events := [Turn(choice)] + later;
      assert events[1..] == later;
    }
  }
}
