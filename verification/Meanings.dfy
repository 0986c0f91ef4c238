/** What the meaning of each node says, without reference to how it is computed. */
module Meanings {
  import opened Wrappers
  import opened DslTypes
  import opened Execution
  import opened Stopping
  import Sequences

  lemma {:induction false} MeaningAllAt(agent: Option<AgentInterface>, nodes: seq<Node>, i: nat)
    requires i < |nodes|
    ensures MeaningAll(agent, nodes)[i] == Meaning(agent, nodes[i])
  {
    if i > 0 {
      MeaningAllAt(agent, nodes[1..], i - 1);
    }
  }

  /** n is how far a run that stops at its first failure gets: to that failure, or to the end. */
  ghost predicate StopsAfter(agent: Option<AgentInterface>, nodes: seq<Node>, n: nat) {
    && n <= |nodes|
    && (forall i :: 0 <= i < n - 1 ==> !HasFailed(Meaning(agent, nodes[i])))
    && (n < |nodes| ==> n > 0 && HasFailed(Meaning(agent, nodes[n - 1])))
  }

  lemma {:induction false} UntilFailure(agent: Option<AgentInterface>, nodes: seq<Node>) returns (n: nat)
    ensures StopsAfter(agent, nodes, n)
    ensures MeaningUntilFailure(agent, nodes) == MeaningAll(agent, nodes[..n])
    decreases |nodes|
  {
    if nodes == [] {
      n := 0;
    } else {
      MeaningReports(agent, nodes[0]);
      if HasFailed(Meaning(agent, nodes[0])) {
        n := 1;
        assert nodes[..1] == [nodes[0]];
      } else {
        var m := UntilFailure(agent, nodes[1..]);
        n := m + 1;
        Sequences.TakeOneMore(nodes, m);
        StopsOneLater(agent, nodes, m);
      }
    }
  }

  lemma StopsOneLater(agent: Option<AgentInterface>, nodes: seq<Node>, m: nat)
    requires nodes != [] && !HasFailed(Meaning(agent, nodes[0])) && StopsAfter(agent, nodes[1..], m)
    ensures StopsAfter(agent, nodes, m + 1)
  {
    assert forall i :: 0 < i < |nodes| ==> nodes[i] == nodes[1..][i - 1];
  }

  /** A SEQUENCE runs exactly the shortest prefix of its children that ends in a failure, or all of
      them, and reports that step. */
  lemma SequenceMeaning(agent: Option<AgentInterface>, children: seq<Node>) returns (n: nat)
    ensures StopsAfter(agent, children, n)
    ensures var r := Meaning(agent, Sequence(children));
            && r.SequenceResult?
            && |r.results| == n
            && (forall i :: 0 <= i < n ==> r.results[i] == Meaning(agent, children[i]))
            && (r.failedAtStep == Some(n - 1) <==> n > 0 && HasFailed(Meaning(agent, children[n - 1])))
            && (r.failedAtStep == None <==> forall i :: 0 <= i < |children| ==> !HasFailed(Meaning(agent, children[i])))
  {
    n := UntilFailure(agent, children);
    if n > 0 {
      MeaningReports(agent, children[n - 1]);
    }
    forall i | 0 <= i < n
      ensures Meaning(agent, Sequence(children)).results[i] == Meaning(agent, children[i])
    {
      MeaningAllAt(agent, children[..n], i);
    }
  }

  /** The children that do not fail when run. */
  ghost function Successes(agent: Option<AgentInterface>, children: seq<Node>): set<int> {
    set i | 0 <= i < |children| && !HasFailed(Meaning(agent, children[i]))
  }

  lemma {:induction false} CountIsCardinality(rs: seq<NodeResult>)
    requires ReportWell(rs)
    ensures CountSuccess(rs) == |Unfailed(rs)|
    decreases |rs|
  {
    if rs != [] {
      var n := |rs| - 1;
      var init := rs[..n];
      assert forall i :: 0 <= i < n ==> init[i] == rs[i];
      CountIsCardinality(init);
      OneMoreCounts(rs);
    }
  }

  ghost function Unfailed(rs: seq<NodeResult>): set<int> {
    set i | 0 <= i < |rs| && !HasFailed(rs[i])
  }

  lemma OneMoreCounts(rs: seq<NodeResult>)
    requires rs != []
    ensures |Unfailed(rs)| == |Unfailed(rs[..|rs| - 1])| + if HasFailed(rs[|rs| - 1]) then 0 else 1
  {
    var n := |rs| - 1;
    assert forall i :: 0 <= i < n ==> rs[..n][i] == rs[i];
    assert Unfailed(rs) == Unfailed(rs[..n]) + if HasFailed(rs[n]) then {} else {n};
  }

  /** A PARALLEL runs all its children, counts those that do not fail, and fails if there is none. */
  lemma ParallelMeaning(agent: Option<AgentInterface>, children: seq<Node>)
    ensures var r := Meaning(agent, Parallel(children));
            && r.ParallelResult? && |r.results| == r.totalCount == |children|
            && (forall i :: 0 <= i < |children| ==> r.results[i] == Meaning(agent, children[i]))
            && r.successCount == |Successes(agent, children)|
            && (HasFailed(r) <==> forall i :: 0 <= i < |children| ==> HasFailed(Meaning(agent, children[i])))
  {
    var rs := MeaningAll(agent, children);
    MeaningAllReports(agent, children);
    forall i | 0 <= i < |children| ensures rs[i] == Meaning(agent, children[i]) {
      MeaningAllAt(agent, children, i);
    }
    CountIsCardinality(rs);
    assert Unfailed(rs) == Successes(agent, children);
  }

  /** A CONDITIONAL runs every child of exactly one branch and never fails. */
  lemma ConditionalMeaning(agent: Option<AgentInterface>, c: string, children: seq<Node>, elseChildren: seq<Node>)
    ensures var r := Meaning(agent, Conditional(c, children, elseChildren));
            var branch := if r.conditionResult then children else elseChildren;
            && !HasFailed(r) && |r.results| == |branch|
            && (forall i :: 0 <= i < |branch| ==> r.results[i] == Meaning(agent, branch[i]))
            && (!r.conditionResult <==> LowerCase(Strip(c)) == "false" || LowerCase(Strip(c)) == "0" || LowerCase(Strip(c)) == "no")
  {
    var branch := if EvaluateCondition(c) then children else elseChildren;
    forall i | 0 <= i < |branch| ensures MeaningAll(agent, branch)[i] == Meaning(agent, branch[i]) {
      MeaningAllAt(agent, branch, i);
    }
  }

  ghost predicate Halts(agent: Option<AgentInterface>, node: Node) {
    !node.Parallel? && HasFailed(Meaning(agent, node))
  }

  /** Results of the first so many nodes, none of which but the last ends the run. */
  ghost predicate RunsFirst(agent: Option<AgentInterface>, nodes: seq<Node>, rs: seq<NodeResult>) {
    && |rs| <= |nodes|
    && (forall i :: 0 <= i < |rs| ==> rs[i] == Meaning(agent, nodes[i]))
    && (forall i :: 0 <= i < |rs| - 1 ==> !Halts(agent, nodes[i]))
  }

  lemma OneMoreRuns(agent: Option<AgentInterface>, nodes: seq<Node>, rs: seq<NodeResult>)
    requires nodes != [] && !Halts(agent, nodes[0]) && RunsFirst(agent, nodes[1..], rs)
    ensures RunsFirst(agent, nodes, [Meaning(agent, nodes[0])] + rs)
  {
    assert forall i :: 0 < i < |nodes| ==> nodes[i] == nodes[1..][i - 1];
  }

  /** The top level runs the shortest prefix that ends in a failing node other than a PARALLEL. */
  lemma {:induction false} TopLevelMeaning(agent: Option<AgentInterface>, nodes: seq<Node>) returns (n: nat)
    ensures |MeaningTop(agent, nodes)| == n && RunsFirst(agent, nodes, MeaningTop(agent, nodes))
    ensures n < |nodes| ==> n > 0 && Halts(agent, nodes[n - 1])
    decreases |nodes|
  {
    if nodes == [] {
      n := 0;
    } else {
      MeaningReports(agent, nodes[0]);
      if Halts(agent, nodes[0]) {
        n := 1;
      } else {
        var m := TopLevelMeaning(agent, nodes[1..]);
        n := m + 1;
        OneMoreRuns(agent, nodes, MeaningTop(agent, nodes[1..]));
      }
    }
  }

  /** Exactly which nodes fail: a CALL whose tool fails, a PARALLEL if all its children do, a SEQUENCE if
      one of its children does. */
  lemma FailureExactly(agent: Option<AgentInterface>, node: Node)
    ensures HasFailed(Meaning(agent, node)) <==>
      match node
      case Call(_, _) => Meaning(agent, node).outcome.Failed?
      case Parallel(children) => forall i :: 0 <= i < |children| ==> HasFailed(Meaning(agent, children[i]))
      case Sequence(children) => exists i :: 0 <= i < |children| && HasFailed(Meaning(agent, children[i]))
      case _ => false
  {
    match node {
      case Parallel(children) => ParallelMeaning(agent, children);
      case Sequence(children) =>
        MeaningReports(agent, node);
        var n := SequenceMeaning(agent, children);
      case _ =>
    }
  }

  /** Without an agent a CALL is simulated, and does not fail. */
  lemma NoAgentSimulates(tool: string, args: Args)
    ensures Meaning(None, Call(tool, args)) == CallResult(tool, args, Simulated, None, false)
    ensures !HasFailed(Meaning(None, Call(tool, args)))
  {
  }
}
