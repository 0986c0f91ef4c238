/** Execution with part of a loop already done, for the loops of the interpreter
    (src/praxis_sdk/dsl/parser.py:231-255, 438-448, 490-526). */
module ExecutionLoops {
  import opened Wrappers
  import opened DslTypes
  import opened Execution
  import Sequences

  /** ExecAll with the results of the first i nodes already in hand. */
  ghost function ExecAllFrom(env: Runtime, nodes: seq<Node>, i: nat, done: seq<NodeResult>, w: World): (seq<NodeResult>, World)
    requires Ready(w) && i <= |nodes|
  {
    var (rs, w') := ExecAll(env, nodes[i..], w);
    (done + rs, w')
  }

  lemma ExecAllEnds(env: Runtime, nodes: seq<Node>, done: seq<NodeResult>, w: World)
    requires Ready(w)
    ensures ExecAllFrom(env, nodes, 0, [], w) == ExecAll(env, nodes, w)
    ensures ExecAllFrom(env, nodes, |nodes|, done, w) == (done, w)
  {
    var all := ExecAll(env, nodes, w).0;
    assert nodes[0..] == nodes && [] + all == all && nodes[|nodes|..] == [] && done + [] == done;
  }

  lemma ExecAllAdvances(env: Runtime, nodes: seq<Node>, i: nat, done: seq<NodeResult>, w: World)
    requires Ready(w) && i < |nodes|
    ensures var (r, w1) := Exec(env, nodes[i], w);
            ExecAllFrom(env, nodes, i, done, w) == ExecAllFrom(env, nodes, i + 1, done + [r], w1)
  {
    var (r, w1) := Exec(env, nodes[i], w);
    Sequences.Unfold(nodes, i);
    Sequences.Assoc(done, [r], ExecAll(env, nodes[i + 1..], w1).0);
  }

  /** ExecUntilFailure with the results of the first i nodes already in hand. */
  ghost function ExecUntilFailureFrom(env: Runtime, nodes: seq<Node>, i: nat, done: seq<NodeResult>, w: World): (seq<NodeResult>, World)
    requires Ready(w) && i <= |nodes|
  {
    var (rs, w') := ExecUntilFailure(env, nodes[i..], w);
    (done + rs, w')
  }

  lemma ExecUntilFailureEnds(env: Runtime, nodes: seq<Node>, done: seq<NodeResult>, w: World)
    requires Ready(w)
    ensures ExecUntilFailureFrom(env, nodes, 0, [], w) == ExecUntilFailure(env, nodes, w)
    ensures ExecUntilFailureFrom(env, nodes, |nodes|, done, w) == (done, w)
  {
    var all := ExecUntilFailure(env, nodes, w).0;
    assert nodes[0..] == nodes && [] + all == all && nodes[|nodes|..] == [] && done + [] == done;
  }

  lemma ExecUntilFailureAdvances(env: Runtime, nodes: seq<Node>, i: nat, done: seq<NodeResult>, w: World)
    requires Ready(w) && i < |nodes|
    ensures var (r, w1) := Exec(env, nodes[i], w);
            ExecUntilFailureFrom(env, nodes, i, done, w) == if Success(r) then ExecUntilFailureFrom(env, nodes, i + 1, done + [r], w1) else (done + [r], w1)
  {
    var (r, w1) := Exec(env, nodes[i], w);
    Sequences.Unfold(nodes, i);
    Sequences.Assoc(done, [r], ExecUntilFailure(env, nodes[i + 1..], w1).0);
  }

  lemma OneMoreStep(done: seq<NodeResult>, r: NodeResult)
    ensures FailedStep(done + [r]) == if Success(r) then None else Some(|done|)
  {
  }

  /** ExecTop with the results of the first i nodes already in hand. */
  ghost function ExecTopFrom(env: Runtime, nodes: seq<Node>, i: nat, done: seq<NodeResult>, w: World): (seq<NodeResult>, World)
    requires Ready(w) && i <= |nodes|
  {
    var (rs, w') := ExecTop(env, nodes[i..], w);
    (done + rs, w')
  }

  lemma ExecTopEnds(env: Runtime, nodes: seq<Node>, done: seq<NodeResult>, w: World)
    requires Ready(w)
    ensures ExecTopFrom(env, nodes, 0, [], w) == ExecTop(env, nodes, w)
    ensures ExecTopFrom(env, nodes, |nodes|, done, w) == (done, w)
  {
    var all := ExecTop(env, nodes, w).0;
    assert nodes[0..] == nodes && [] + all == all && nodes[|nodes|..] == [] && done + [] == done;
  }

  lemma ExecTopAdvances(env: Runtime, nodes: seq<Node>, i: nat, done: seq<NodeResult>, w: World)
    requires Ready(w) && i < |nodes|
    ensures var (r, w1) := Exec(env, nodes[i], w);
            ExecTopFrom(env, nodes, i, done, w) == if Success(r) || nodes[i].Parallel? then ExecTopFrom(env, nodes, i + 1, done + [r], w1) else (done + [r], w1)
  {
    var (r, w1) := Exec(env, nodes[i], w);
    Sequences.Unfold(nodes, i);
    Sequences.Assoc(done, [r], ExecTop(env, nodes[i + 1..], w1).0);
  }
}
