/** Where runs stop (src/praxis_sdk/dsl/parser.py:231-255, 477-526), said of the result dictionaries alone:
    what the "success" a node reports means, and for how long a SEQUENCE and a program go on. */
module Stopping {
  import opened Wrappers
  import opened DslTypes
  import opened Execution

  /** The result of a failure: a CALL whose tool failed, a PARALLEL all of whose children did, a SEQUENCE
      one of whose children did. Nothing else fails. */
  ghost predicate HasFailed(r: NodeResult) {
    match r
    case CallResult(_, _, outcome, _, _) => outcome.Failed?
    case ParallelResult(rs, _, _) => forall i :: 0 <= i < |rs| ==> HasFailed(rs[i])
    case SequenceResult(rs, _) => exists i :: 0 <= i < |rs| && HasFailed(rs[i])
    case _ => false
  }

  /** The results of a run over so many nodes: it ends at its first failure or with the last node. */
  ghost predicate EndsAtFailure(rs: seq<NodeResult>, count: nat) {
    && |rs| <= count
    && (forall i :: 0 <= i < |rs| - 1 ==> !HasFailed(rs[i]))
    && (|rs| < count ==> rs != [] && HasFailed(rs[|rs| - 1]))
  }

  /** The same for the top level, where a failing PARALLEL does not end the run. */
  ghost predicate EndsAtTopFailure(rs: seq<NodeResult>, nodes: seq<Node>) {
    && |rs| <= |nodes|
    && (forall i :: 0 <= i < |rs| - 1 ==> nodes[i].Parallel? || !HasFailed(rs[i]))
    && (|rs| < |nodes| ==> rs != [] && !nodes[|rs| - 1].Parallel? && HasFailed(rs[|rs| - 1]))
  }

  /** The reported success of each of these results is the absence of a failure. */
  ghost predicate ReportWell(rs: seq<NodeResult>) {
    forall i :: 0 <= i < |rs| ==> (Success(rs[i]) <==> !HasFailed(rs[i]))
  }

  lemma {:induction false} NoneSucceeds(rs: seq<NodeResult>)
    ensures CountSuccess(rs) == 0 <==> forall i :: 0 <= i < |rs| ==> !Success(rs[i])
    decreases |rs|
  {
    if rs != [] {
      NoneSucceeds(rs[..|rs| - 1]);
      assert forall i :: 0 <= i < |rs| - 1 ==> rs[..|rs| - 1][i] == rs[i];
    }
  }

  lemma ParallelReports(rs: seq<NodeResult>)
    requires ReportWell(rs)
    ensures Success(ParallelOf(rs)) <==> !HasFailed(ParallelOf(rs))
  {
    NoneSucceeds(rs);
  }

  lemma SequenceReports(rs: seq<NodeResult>, count: nat)
    requires ReportWell(rs) && EndsAtFailure(rs, count)
    ensures Success(SequenceOf(rs)) <==> !HasFailed(SequenceOf(rs))
  {
    if rs != [] {
      assert Success(rs[|rs| - 1]) <==> !HasFailed(rs[|rs| - 1]);
    }
  }

  lemma OneMoreReports(r: NodeResult, rs: seq<NodeResult>)
    requires (Success(r) <==> !HasFailed(r)) && ReportWell(rs)
    ensures ReportWell([r] + rs)
  {
  }

  lemma OneMoreEnds(r: NodeResult, rs: seq<NodeResult>, count: nat)
    requires !HasFailed(r) && EndsAtFailure(rs, count)
    ensures EndsAtFailure([r] + rs, count + 1)
  {
  }

  // ---- Over the cache ------------------------------------------------------------------------------

  /** Whatever the cache holds, a node reports success exactly when it has not failed. */
  lemma {:induction false} ExecReports(env: Runtime, node: Node, w: World)
    requires Ready(w)
    ensures var r := Exec(env, node, w).0; Success(r) <==> !HasFailed(r)
    decreases node, 1
  {
    match node {
      case Parallel(children) =>
        ExecAllReports(env, children, w);
        ParallelReports(ExecAll(env, children, w).0);
      case Sequence(children) =>
        UntilFailureReports(env, children, w);
        SequenceReports(ExecUntilFailure(env, children, w).0, |children|);
      case _ =>
    }
  }

  lemma {:induction false} ExecAllReports(env: Runtime, nodes: seq<Node>, w: World)
    requires Ready(w)
    ensures ReportWell(ExecAll(env, nodes, w).0)
    decreases nodes, 0
  {
    if nodes != [] {
      var (r, w1) := Exec(env, nodes[0], w);
      ExecReports(env, nodes[0], w);
      ExecAllReports(env, nodes[1..], w1);
      OneMoreReports(r, ExecAll(env, nodes[1..], w1).0);
    }
  }

  /** A run over the children of a SEQUENCE ends at its first failure. */
  lemma {:induction false} UntilFailureReports(env: Runtime, nodes: seq<Node>, w: World)
    requires Ready(w)
    ensures ReportWell(ExecUntilFailure(env, nodes, w).0)
    ensures EndsAtFailure(ExecUntilFailure(env, nodes, w).0, |nodes|)
    decreases nodes, 0
  {
    if nodes != [] {
      var (r, w1) := Exec(env, nodes[0], w);
      ExecReports(env, nodes[0], w);
      if !HasFailed(r) {
        UntilFailureReports(env, nodes[1..], w1);
        OneMoreReports(r, ExecUntilFailure(env, nodes[1..], w1).0);
        OneMoreEnds(r, ExecUntilFailure(env, nodes[1..], w1).0, |nodes| - 1);
      }
    }
  }

  /** A program ends at its first failing node that is not a PARALLEL, whatever the cache holds. */
  lemma {:induction false} ProgramEnds(env: Runtime, nodes: seq<Node>, w: World)
    requires Ready(w)
    ensures EndsAtTopFailure(ExecTop(env, nodes, w).0, nodes)
    decreases |nodes|
  {
    if nodes != [] {
      var (r, w1) := Exec(env, nodes[0], w);
      ExecReports(env, nodes[0], w);
      if nodes[0].Parallel? || !HasFailed(r) {
        ProgramEnds(env, nodes[1..], w1);
        OneMoreAtTop(r, ExecTop(env, nodes[1..], w1).0, nodes);
      }
    }
  }

  lemma OneMoreAtTop(r: NodeResult, rs: seq<NodeResult>, nodes: seq<Node>)
    requires nodes != [] && (nodes[0].Parallel? || !HasFailed(r)) && EndsAtTopFailure(rs, nodes[1..])
    ensures EndsAtTopFailure([r] + rs, nodes)
  {
    assert forall i :: 0 < i < |nodes| ==> nodes[i] == nodes[1..][i - 1];
  }

  /** What a SEQUENCE says about its end is where its first failure stands. */
  lemma SequenceEnds(env: Runtime, children: seq<Node>, w: World)
    requires Ready(w)
    ensures var r := Exec(env, Sequence(children), w).0;
            && r.SequenceResult? && EndsAtFailure(r.results, |children|)
            && (r.failedAtStep.Some? <==> r.results != [] && HasFailed(r.results[|r.results| - 1]))
            && (r.failedAtStep.Some? ==> r.failedAtStep.value == |r.results| - 1)
  {
    UntilFailureReports(env, children, w);
  }

  // ---- Without a cache -------------------------------------------------------------------------------

  lemma {:induction false} MeaningReports(agent: Option<AgentInterface>, node: Node)
    ensures var r := Meaning(agent, node); Success(r) <==> !HasFailed(r)
    decreases node, 1
  {
    match node {
      case Parallel(children) =>
        MeaningAllReports(agent, children);
        ParallelReports(MeaningAll(agent, children));
      case Sequence(children) =>
        MeaningUntilReports(agent, children);
        SequenceReports(MeaningUntilFailure(agent, children), |children|);
      case _ =>
    }
  }

  lemma {:induction false} MeaningAllReports(agent: Option<AgentInterface>, nodes: seq<Node>)
    ensures ReportWell(MeaningAll(agent, nodes))
    decreases nodes, 0
  {
    if nodes != [] {
      MeaningReports(agent, nodes[0]);
      MeaningAllReports(agent, nodes[1..]);
      OneMoreReports(Meaning(agent, nodes[0]), MeaningAll(agent, nodes[1..]));
    }
  }

  lemma {:induction false} MeaningUntilReports(agent: Option<AgentInterface>, nodes: seq<Node>)
    ensures ReportWell(MeaningUntilFailure(agent, nodes)) && EndsAtFailure(MeaningUntilFailure(agent, nodes), |nodes|)
    decreases nodes, 0
  {
    if nodes != [] {
      var r := Meaning(agent, nodes[0]);
      MeaningReports(agent, nodes[0]);
      if !HasFailed(r) {
        MeaningUntilReports(agent, nodes[1..]);
        OneMoreReports(r, MeaningUntilFailure(agent, nodes[1..]));
        OneMoreEnds(r, MeaningUntilFailure(agent, nodes[1..]), |nodes| - 1);
      }
    }
  }

  // ---- Nodes that never fail -------------------------------------------------------------------------

  predicate IsLeaf(node: Node) {
    node.Workflow? || node.Task? || node.Agent? || node.Command?
  }

  /** Such a node reports what it is. */
  ghost predicate Echoes(r: NodeResult, node: Node) {
    match node
    case Workflow(args) => r == WorkflowResult(args)
    case Task(args) => r == TaskResult(args)
    case Agent(id) => r == AgentResult(id)
    case Command(word, args) => r == CommandResult(word, args)
    case _ => false
  }

  lemma {:induction false} LeavesRun(env: Runtime, nodes: seq<Node>, w: World)
    requires Ready(w) && forall i :: 0 <= i < |nodes| ==> IsLeaf(nodes[i])
    ensures ExecUntilFailure(env, nodes, w).1 == w && ExecTop(env, nodes, w).1 == w
    ensures var rs := ExecUntilFailure(env, nodes, w).0;
            |rs| == |nodes| && ExecTop(env, nodes, w).0 == rs && forall i :: 0 <= i < |nodes| ==> Echoes(rs[i], nodes[i])
    decreases |nodes|
  {
    if nodes != [] {
      assert forall i :: 0 < i < |nodes| ==> nodes[i] == nodes[1..][i - 1];
      assert IsLeaf(nodes[0]);
      ExecReports(env, nodes[0], w);
      LeavesRun(env, nodes[1..], w);
    }
  }

  /** TASK, WORKFLOW, AGENT and plain commands, leftover terminators among them, never end a SEQUENCE or
      a program, and change nothing. */
  lemma LeavesNeverStop(env: Runtime, nodes: seq<Node>, w: World)
    requires Ready(w)
    requires forall i :: 0 <= i < |nodes| ==> nodes[i].Task? || nodes[i].Workflow? || nodes[i].Agent? || nodes[i].Command?
    ensures var (r, w') := Exec(env, Sequence(nodes), w);
            && w' == w && r.SequenceResult? && r.failedAtStep == None && |r.results| == |nodes|
            && (forall i :: 0 <= i < |nodes| ==> Echoes(r.results[i], nodes[i]))
            && ExecTop(env, nodes, w) == (r.results, w)
  {
    LeavesRun(env, nodes, w);
    SequenceEnds(env, nodes, w);
    var rs := ExecUntilFailure(env, nodes, w).0;
    assert forall i :: 0 <= i < |nodes| ==> !HasFailed(rs[i]);
  }
}
