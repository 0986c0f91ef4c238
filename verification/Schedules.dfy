/** PARALLEL under every schedule (src/praxis_sdk/dsl/parser.py:424-467). A running program is a tree
    of coroutines. Each CALL is two atomic steps with its tool in flight between them: look the call
    up in the shared cache, and record the result. Any unfinished child may take the next step, and
    between steps anyone else may change the cache. */
module Schedules {
  import opened Wrappers
  import opened DslTypes
  import opened CacheModel
  import opened Execution
  import opened CacheTransparency
  import Sequences

  datatype Process =
    | Start(node: Node)
    | Awaiting(tool: string, args: Args)
    | Finished(result: NodeResult)
    | Gather(children: seq<Process>)
    | InSequence(done: seq<NodeResult>, current: Process, rest: seq<Node>)
    | InBranch(condition: string, holds: bool, done: seq<NodeResult>, current: Process, rest: seq<Node>)

  function StartAll(nodes: seq<Node>): (ps: seq<Process>)
    ensures |ps| == |nodes|
  {
    if nodes == [] then [] else [Start(nodes[0])] + StartAll(nodes[1..])
  }

  predicate AllFinished(ps: seq<Process>) {
    forall i :: 0 <= i < |ps| ==> ps[i].Finished?
  }

  function Results(ps: seq<Process>): (rs: seq<NodeResult>)
    requires AllFinished(ps)
    ensures |rs| == |ps|
  {
    seq(|ps|, i requires 0 <= i < |ps| => ps[i].result)
  }

  /** A sequence that has just finished a step, or has just been entered. */
  function ContinueSequence(done: seq<NodeResult>, rest: seq<Node>): Process {
    if (done != [] && !Success(done[|done| - 1])) || rest == [] then Finished(SequenceOf(done))
    else InSequence(done, Start(rest[0]), rest[1..])
  }

  function ContinueBranch(condition: string, holds: bool, done: seq<NodeResult>, rest: seq<Node>): Process {
    if rest == [] then Finished(ConditionalResult(condition, holds, done))
    else InBranch(condition, holds, done, Start(rest[0]), rest[1..])
  }

  /** One atomic step. The scheduler's choice says which child moves at each PARALLEL on the way down;
      a choice that names no unfinished child leaves everything as it is. */
  ghost function Step(env: Runtime, p: Process, w: World, choice: seq<nat>): (r: (Process, World))
    requires Ready(w)
    ensures Ready(r.1)
    decreases p
  {
    match p
    case Start(Call(tool, args)) =>
      var (found, w1) := Lookup(env, tool, args, w);
      (if found.Some? then Finished(found.value) else Awaiting(tool, args), w1)
    case Start(Parallel(children)) => (Gather(StartAll(children)), w)
    case Start(Sequence(children)) => (ContinueSequence([], children), w)
    case Start(Conditional(c, children, elseChildren)) =>
      var holds := EvaluateCondition(c);
      (ContinueBranch(c, holds, [], if holds then children else elseChildren), w)
    case Start(leaf) => (Finished(LeafResult(leaf)), w)
    case Awaiting(tool, args) =>
      var r := RunTool(env.agent, tool, args);
      (Finished(r), Record(env, r, w))
    case Finished(_) => (p, w)
    case Gather(ps) =>
      if AllFinished(ps) then (Finished(ParallelOf(Results(ps))), w)
      else if choice != [] && choice[0] < |ps| then
        var (q, w1) := Step(env, ps[choice[0]], w, choice[1..]);
        (Gather(ps[choice[0] := q]), w1)
      else (p, w)
    case InSequence(done, current, rest) =>
      if current.Finished? then (ContinueSequence(done + [current.result], rest), w)
      else
        var (q, w1) := Step(env, current, w, choice);
        (InSequence(done, q, rest), w1)
    case InBranch(c, holds, done, current, rest) =>
      if current.Finished? then (ContinueBranch(c, holds, done + [current.result], rest), w)
      else
        var (q, w1) := Step(env, current, w, choice);
        (InBranch(c, holds, done, q, rest), w1)
  }

  /** What happens next in a run: a scheduler's choice, or somebody else leaving the cache changed. */
  datatype Event = Turn(choice: seq<nat>) | Outside(cache: Cache)

  ghost predicate WellFormed(events: seq<Event>) {
    forall i :: 0 <= i < |events| && events[i].Outside? ==> events[i].cache.WellFormed()
  }

  /** The others keep the cache true; they may drop, expire, refresh or add entries at will. */
  ghost predicate Allowed(env: Runtime, S: iset<CallSite>, events: seq<Event>) {
    && WellFormed(events)
    && (env.useCache ==> forall i :: 0 <= i < |events| && events[i].Outside? ==> TrueFor(env, S, events[i].cache))
  }

  ghost function Next(env: Runtime, p: Process, w: World, e: Event): (r: (Process, World))
    requires Ready(w) && (e.Outside? ==> e.cache.WellFormed())
    ensures Ready(r.1)
  {
    match e
    case Turn(choice) => Step(env, p, w, choice)
    case Outside(cache) => (p, w.(cache := cache))
  }

  ghost function Run(env: Runtime, p: Process, w: World, events: seq<Event>): (r: (Process, World))
    requires Ready(w) && WellFormed(events)
    ensures Ready(r.1)
    decreases |events|
  {
    if events == [] then (p, w)
    else
      var (q, w1) := Next(env, p, w, events[0]);
      Run(env, q, w1, events[1..])
  }

  // ---- What a running process will yield -------------------------------------------------------

  /** The result an unfinished process is bound to give, whoever runs when. */
  function Promise(agent: Option<AgentInterface>, p: Process): NodeResult
    decreases p, 1
  {
    match p
    case Start(node) => Meaning(agent, node)
    case Awaiting(tool, args) => Erase(RunTool(agent, tool, args))
    case Finished(r) => Erase(r)
    case Gather(ps) => ParallelOf(PromiseAll(agent, ps))
    case InSequence(done, current, rest) =>
      SequenceOf(EraseAll(done) + SequenceFrom(agent, Promise(agent, current), rest))
    case InBranch(c, holds, done, current, rest) =>
      ConditionalResult(c, holds, EraseAll(done) + [Promise(agent, current)] + MeaningAll(agent, rest))
  }

  function PromiseAll(agent: Option<AgentInterface>, ps: seq<Process>): (rs: seq<NodeResult>)
    ensures |rs| == |ps|
    decreases ps, 0
  {
    if ps == [] then [] else [Promise(agent, ps[0])] + PromiseAll(agent, ps[1..])
  }

  function SequenceFrom(agent: Option<AgentInterface>, r: NodeResult, rest: seq<Node>): seq<NodeResult> {
    if Success(r) then [r] + MeaningUntilFailure(agent, rest) else [r]
  }

  /** The calls still to come are in S, and a sequence goes on only after successes. */
  ghost predicate Coherent(p: Process, S: iset<CallSite>)
    decreases p, 1
  {
    match p
    case Start(node) => CallsWithin(node, S)
    case Awaiting(tool, args) => CallSite(tool, args) in S
    case Finished(_) => true
    case Gather(ps) => AllCoherent(ps, S)
    case InSequence(done, current, rest) => Coherent(current, S) && AllCallsWithin(rest, S)
    case InBranch(_, _, _, current, rest) => Coherent(current, S) && AllCallsWithin(rest, S)
  }

  ghost predicate AllCoherent(ps: seq<Process>, S: iset<CallSite>)
    decreases ps, 0
  {
    ps == [] || (Coherent(ps[0], S) && AllCoherent(ps[1..], S))
  }

  lemma {:induction false} PromiseAllAt(agent: Option<AgentInterface>, ps: seq<Process>, i: nat)
    requires i < |ps|
    ensures PromiseAll(agent, ps)[i] == Promise(agent, ps[i])
  {
    if i > 0 {
      PromiseAllAt(agent, ps[1..], i - 1);
    }
  }

  lemma {:induction false} CoherentAt(ps: seq<Process>, S: iset<CallSite>, i: nat)
    requires i < |ps| && AllCoherent(ps, S)
    ensures Coherent(ps[i], S)
  {
    if i > 0 {
      CoherentAt(ps[1..], S, i - 1);
    }
  }

  lemma {:induction false} CoherentUpdate(ps: seq<Process>, S: iset<CallSite>, i: nat, q: Process)
    requires i < |ps| && AllCoherent(ps, S) && Coherent(q, S)
    ensures AllCoherent(ps[i := q], S)
  {
    if i > 0 {
      CoherentUpdate(ps[1..], S, i - 1, q);
      assert ps[i := q][1..] == ps[1..][i - 1 := q];
    } else {
      assert ps[0 := q][1..] == ps[1..];
    }
  }

  lemma {:induction false} StartAllMeans(agent: Option<AgentInterface>, nodes: seq<Node>, S: iset<CallSite>)
    requires AllCallsWithin(nodes, S)
    ensures PromiseAll(agent, StartAll(nodes)) == MeaningAll(agent, nodes)
    ensures AllCoherent(StartAll(nodes), S)
  {
    if nodes != [] {
      StartAllMeans(agent, nodes[1..], S);
      assert StartAll(nodes)[1..] == StartAll(nodes[1..]);
    }
  }

  lemma {:induction false} EraseAllAppend(rs: seq<NodeResult>, r: NodeResult)
    ensures EraseAll(rs + [r]) == EraseAll(rs) + [Erase(r)]
  {
    EraseAllInit(rs + [r]);
    assert (rs + [r])[..|rs|] == rs;
    assert EraseAll(rs + [r]) == EraseAll(rs + [r])[..|rs|] + [EraseAll(rs + [r])[|rs|]];
  }

  lemma PromiseOfFinished(agent: Option<AgentInterface>, ps: seq<Process>)
    requires AllFinished(ps)
    ensures PromiseAll(agent, ps) == EraseAll(Results(ps))
  {
    var rs := Results(ps);
    forall i | 0 <= i < |ps| ensures PromiseAll(agent, ps)[i] == EraseAll(rs)[i] {
      PromiseAllAt(agent, ps, i);
      EraseAllAt(rs, i);
    }
  }

  lemma PromiseAfterUpdate(agent: Option<AgentInterface>, ps: seq<Process>, i: nat, q: Process)
    requires i < |ps| && Promise(agent, q) == Promise(agent, ps[i])
    ensures PromiseAll(agent, ps[i := q]) == PromiseAll(agent, ps)
  {
    forall j | 0 <= j < |ps| ensures PromiseAll(agent, ps[i := q])[j] == PromiseAll(agent, ps)[j] {
      PromiseAllAt(agent, ps, j);
      PromiseAllAt(agent, ps[i := q], j);
    }
  }

  lemma ContinueSequenceKeeps(agent: Option<AgentInterface>, S: iset<CallSite>, done: seq<NodeResult>, r: NodeResult, rest: seq<Node>)
    requires AllCallsWithin(rest, S)
    ensures Promise(agent, ContinueSequence(done + [r], rest))
         == Promise(agent, InSequence(done, Finished(r), rest))
    ensures Coherent(ContinueSequence(done + [r], rest), S)
  {
    EraseAllAppend(done, r);
    EraseCombined(done + [r]);
    EraseKeepsSuccess(r);
    var before := EraseAll(done);
    if !Success(r) || rest == [] {
      assert before + [Erase(r)] + [] == before + [Erase(r)];
      assert ContinueSequence(done + [r], rest) == Finished(SequenceOf(done + [r]));
    } else {
      var next := Meaning(agent, rest[0]);
      assert MeaningUntilFailure(agent, rest) == SequenceFrom(agent, next, rest[1..]);
      Sequences.Assoc(before, [Erase(r)], MeaningUntilFailure(agent, rest));
      assert ContinueSequence(done + [r], rest) == InSequence(done + [r], Start(rest[0]), rest[1..]);
    }
  }

  lemma ContinueBranchKeeps(agent: Option<AgentInterface>, S: iset<CallSite>, c: string, holds: bool, done: seq<NodeResult>, r: NodeResult, rest: seq<Node>)
    requires AllCallsWithin(rest, S)
    ensures Promise(agent, ContinueBranch(c, holds, done + [r], rest))
         == Promise(agent, InBranch(c, holds, done, Finished(r), rest))
    ensures Coherent(ContinueBranch(c, holds, done + [r], rest), S)
  {
    EraseAllAppend(done, r);
    if rest == [] {
      assert EraseAll(done) + [Erase(r)] + [] == EraseAll(done) + [Erase(r)];
    } else {
      assert EraseAll(done) + [Erase(r)] + MeaningAll(agent, rest)
          == EraseAll(done + [r]) + [Meaning(agent, rest[0])] + MeaningAll(agent, rest[1..]);
    }
  }

  lemma EnterSequence(agent: Option<AgentInterface>, S: iset<CallSite>, children: seq<Node>)
    requires AllCallsWithin(children, S)
    ensures Promise(agent, ContinueSequence([], children)) == Meaning(agent, Sequence(children))
    ensures Coherent(ContinueSequence([], children), S)
  {
    if children != [] {
      var first := Meaning(agent, children[0]);
      assert EraseAll([]) + SequenceFrom(agent, first, children[1..]) == MeaningUntilFailure(agent, children);
    }
  }

  lemma EnterBranch(agent: Option<AgentInterface>, S: iset<CallSite>, c: string, holds: bool, children: seq<Node>)
    requires AllCallsWithin(children, S)
    ensures Promise(agent, ContinueBranch(c, holds, [], children)) == ConditionalResult(c, holds, MeaningAll(agent, children))
    ensures Coherent(ContinueBranch(c, holds, [], children), S)
  {
    if children != [] {
      assert EraseAll([]) + [Meaning(agent, children[0])] + MeaningAll(agent, children[1..]) == MeaningAll(agent, children);
    }
  }

  /** No step changes what the program will yield, and every step leaves the cache true. */
  lemma {:induction false} StepKeepsPromise(env: Runtime, S: iset<CallSite>, p: Process, w: World, choice: seq<nat>)
    requires Sound(env, S, w) && Coherent(p, S)
    ensures var (q, w') := Step(env, p, w, choice);
            Promise(env.agent, q) == Promise(env.agent, p) && Coherent(q, S) && Sound(env, S, w')
    decreases p
  {
    match p {
      case Start(node) =>
        match node {
          case Call(tool, args) => LookupSound(env, S, tool, args, w);
          case Parallel(children) => StartAllMeans(env.agent, children, S);
          case Sequence(children) => EnterSequence(env.agent, S, children);
          case Conditional(c, children, elseChildren) =>
            EnterBranch(env.agent, S, c, EvaluateCondition(c), if EvaluateCondition(c) then children else elseChildren);
          case _ =>
        }
      case Awaiting(tool, args) => RecordSound(env, S, tool, args, w);
      case Finished(_) =>
      case Gather(ps) =>
        if AllFinished(ps) {
          PromiseOfFinished(env.agent, ps);
          EraseCombined(Results(ps));
        } else if choice != [] && choice[0] < |ps| {
          var i := choice[0];
          CoherentAt(ps, S, i);
          StepKeepsPromise(env, S, ps[i], w, choice[1..]);
          var q := Step(env, ps[i], w, choice[1..]).0;
          CoherentUpdate(ps, S, i, q);
          PromiseAfterUpdate(env.agent, ps, i, q);
        }
      case InSequence(done, current, rest) =>
        if current.Finished? {
          ContinueSequenceKeeps(env.agent, S, done, current.result, rest);
        } else {
          StepKeepsPromise(env, S, current, w, choice);
        }
      case InBranch(c, holds, done, current, rest) =>
        if current.Finished? {
          ContinueBranchKeeps(env.agent, S, c, holds, done, current.result, rest);
        } else {
          StepKeepsPromise(env, S, current, w, choice);
        }
    }
  }

  lemma {:induction false} RunKeepsPromise(env: Runtime, S: iset<CallSite>, p: Process, w: World, events: seq<Event>)
    requires Sound(env, S, w) && Coherent(p, S)
    requires Allowed(env, S, events)
    ensures var (q, w') := Run(env, p, w, events);
            Promise(env.agent, q) == Promise(env.agent, p) && Coherent(q, S) && Sound(env, S, w')
    decreases |events|
  {
    if events != [] {
      if events[0].Turn? {
        StepKeepsPromise(env, S, p, w, events[0].choice);
      }
      var (q, w1) := Next(env, p, w, events[0]);
      RunKeepsPromise(env, S, q, w1, events[1..]);
    }
  }

  /** Schedule independence: whatever the interleaving, and whatever others do to the cache in the
      meantime, a finished run gives the result of running the children left to right. */
  lemma ScheduleIndependence(env: Runtime, S: iset<CallSite>, node: Node, w: World, events: seq<Event>, w0: World)
    requires Sound(env, S, w) && Sound(env, S, w0) && CallsWithin(node, S)
    requires Allowed(env, S, events)
    ensures var (q, w') := Run(env, Start(node), w, events);
            && (q.Finished? ==> Erase(q.result) == Erase(Exec(env, node, w0).0) == Meaning(env.agent, node))
            && Sound(env, S, w')
  {
    RunKeepsPromise(env, S, Start(node), w, events);
    Transparent(env, S, node, w0);
  }

  // ---- Every schedule can be finished, in boundedly many steps ---------------------------------

  function Work(node: Node): nat
    decreases node, 1
  {
    match node
    case Call(_, _) => 2
    case Parallel(children) => 2 + WorkAll(children)
    case Sequence(children) => 1 + WorkAll(children)
    case Conditional(_, children, elseChildren) => 1 + WorkAll(children) + WorkAll(elseChildren)
    case _ => 1
  }

  function WorkAll(nodes: seq<Node>): nat
    decreases nodes, 0
  {
    if nodes == [] then 0 else 1 + Work(nodes[0]) + WorkAll(nodes[1..])
  }

  /** An upper bound on the steps a process can still take. */
  function Remaining(p: Process): nat
    decreases p, 1
  {
    match p
    case Start(node) => Work(node)
    case Awaiting(_, _) => 1
    case Finished(_) => 0
    case Gather(ps) => 1 + RemainingAll(ps)
    case InSequence(_, current, rest) => 1 + Remaining(current) + WorkAll(rest)
    case InBranch(_, _, _, current, rest) => 1 + Remaining(current) + WorkAll(rest)
  }

  function RemainingAll(ps: seq<Process>): nat
    decreases ps, 0
  {
    if ps == [] then 0 else Remaining(ps[0]) + RemainingAll(ps[1..])
  }

  lemma {:induction false} RemainingOfStart(nodes: seq<Node>)
    ensures RemainingAll(StartAll(nodes)) <= WorkAll(nodes)
  {
    if nodes != [] {
      RemainingOfStart(nodes[1..]);
      assert StartAll(nodes)[1..] == StartAll(nodes[1..]);
    }
  }

  lemma {:induction false} RemainingUpdate(ps: seq<Process>, i: nat, q: Process)
    requires i < |ps|
    ensures RemainingAll(ps[i := q]) == RemainingAll(ps) - Remaining(ps[i]) + Remaining(q)
  {
    if i > 0 {
      RemainingUpdate(ps[1..], i - 1, q);
      assert ps[i := q][1..] == ps[1..][i - 1 := q];
    } else {
      assert ps[0 := q][1..] == ps[1..];
    }
  }

  /** A step either leaves the process as it is or uses up some of its remaining steps. */
  lemma {:induction false} StepsAreBounded(env: Runtime, p: Process, w: World, choice: seq<nat>)
    requires Ready(w)
    ensures var q := Step(env, p, w, choice).0; q == p || Remaining(q) < Remaining(p)
    decreases p
  {
    match p {
      case Start(Call(_, _)) =>
      case Start(Parallel(children)) => RemainingOfStart(children);
      case Start(Sequence(children)) => ContinuationsAreShorter([], "", false, children);
      case Start(Conditional(c, children, elseChildren)) =>
        var holds := EvaluateCondition(c);
        ContinuationsAreShorter([], c, holds, if holds then children else elseChildren);
      case Start(_) =>
      case Awaiting(_, _) =>
      case Finished(_) =>
      case Gather(ps) =>
        if !AllFinished(ps) && choice != [] && choice[0] < |ps| {
          var i := choice[0];
          StepsAreBounded(env, ps[i], w, choice[1..]);
          RemainingUpdate(ps, i, Step(env, ps[i], w, choice[1..]).0);
        }
      case InSequence(done, current, rest) =>
        if current.Finished? {
          ContinuationsAreShorter(done + [current.result], "", false, rest);
        } else {
          StepsAreBounded(env, current, w, choice);
        }
      case InBranch(c, holds, done, current, rest) =>
        if current.Finished? {
          ContinuationsAreShorter(done + [current.result], c, holds, rest);
        } else {
          StepsAreBounded(env, current, w, choice);
        }
    }
  }

  lemma ContinuationsAreShorter(done: seq<NodeResult>, c: string, holds: bool, rest: seq<Node>)
    ensures Remaining(ContinueSequence(done, rest)) <= WorkAll(rest)
    ensures Remaining(ContinueBranch(c, holds, done, rest)) <= WorkAll(rest)
  {
  }

  /** The choice leads to something that is not finished. */
  predicate Moves(p: Process, choice: seq<nat>)
    decreases p
  {
    match p
    case Finished(_) => false
    case Gather(ps) => AllFinished(ps) || (choice != [] && choice[0] < |ps| && Moves(ps[choice[0]], choice[1..]))
    case InSequence(_, current, _) => current.Finished? || Moves(current, choice)
    case InBranch(_, _, _, current, _) => current.Finished? || Moves(current, choice)
    case _ => true
  }

  lemma {:induction false} MovesOn(env: Runtime, p: Process, w: World, choice: seq<nat>)
    requires Ready(w) && Moves(p, choice)
    ensures Remaining(Step(env, p, w, choice).0) < Remaining(p)
    decreases p
  {
    StepsAreBounded(env, p, w, choice);
    match p {
      case Gather(ps) =>
        if !AllFinished(ps) {
          var i := choice[0];
          MovesOn(env, ps[i], w, choice[1..]);
          var q := Step(env, ps[i], w, choice[1..]).0;
          assert ps[i := q][i] == q;
        }
      case InSequence(_, current, _) =>
        if !current.Finished? {
          MovesOn(env, current, w, choice);
        }
      case InBranch(_, _, _, current, _) =>
        if !current.Finished? {
          MovesOn(env, current, w, choice);
        }
      case _ =>
    }
  }

  /** There is no deadlock: an unfinished process always has a choice that moves it, in every world. */
  lemma {:induction false} SomeChoiceMoves(p: Process) returns (choice: seq<nat>)
    requires !p.Finished?
    ensures Moves(p, choice)
    ensures forall env: Runtime, w: World :: Ready(w) ==> Step(env, p, w, choice).0 != p
    decreases p
  {
    choice := [];
    match p {
      case Gather(ps) =>
        if !AllFinished(ps) {
          var i: nat :| i < |ps| && !ps[i].Finished?;
          var inner := SomeChoiceMoves(ps[i]);
          choice := [i] + inner;
          assert choice[1..] == inner;
        }
      case InSequence(_, current, _) =>
        if !current.Finished? {
          choice := SomeChoiceMoves(current);
        }
      case InBranch(_, _, _, current, _) =>
        if !current.Finished? {
          choice := SomeChoiceMoves(current);
        }
      case _ =>
    }
    forall env: Runtime, w: World | Ready(w) ensures Step(env, p, w, choice).0 != p {
      MovesOn(env, p, w, choice);
    }
  }

  /** Any unfinished run, however it got there, can be driven to its end in Remaining(p) steps. */
  lemma {:induction false} CanFinish(env: Runtime, p: Process, w: World) returns (events: seq<Event>)
    requires Ready(w)
    ensures |events| <= Remaining(p)
    ensures WellFormed(events) && forall i :: 0 <= i < |events| ==> events[i].Turn?
    ensures Run(env, p, w, events).0.Finished?
    decreases Remaining(p)
  {
    if p.Finished? {
      events := [];
    } else {
      var choice := SomeChoiceMoves(p);
      MovesOn(env, p, w, choice);
      var (q, w1) := Step(env, p, w, choice);
      var later := CanFinish(env, q, w1);
      events := [Turn(choice)] + later;
      assert events[1..] == later;
    }
  }
}
