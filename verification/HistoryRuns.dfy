/** The history limit over runs (src/praxis_sdk/a2a/task_manager.py:210-301, 391-418, 485-499).
    add_message_to_history trims; a status message sent by update_task_status does not. */
module HistoryRuns {
  import opened Wrappers
  import opened Tasks
  import opened TaskRuns

  /** The tasks that get a status message in a step. */
  function Addressees(s: System, a: Action): set<string> {
    match a
    case UpdateStatus(id, state, message, _) => if message.Some? && CanUpdate(s.table, id, state) then {id} else {}
    case CheckTimeouts(now, _) => Overdue(s.table, now)
    case ContinueCancel(call, _) =>
      if call in s.cancels && s.cancels[call].Checking? && s.cancels[call].message.Some? && CanUpdate(s.table, s.cancels[call].id, CANCELED)
      then {s.cancels[call].id} else {}
    case _ => {}
  }

  /** No update, cancel or sweep of the run sends a status message. */
  ghost predicate Quiet(s: System, actions: seq<Action>)
    requires IsRun(s, actions)
    decreases |actions|
  {
    actions == [] || (Addressees(s, actions[0]) == {} && Quiet(Step(s, actions[0]), actions[1..]))
  }

  /** The step starts the history of id, or trims it. */
  predicate Trims(a: Action, id: string) {
    (a.CreateTask? && a.newId == id) || (a.AppendMessage? && a.id == id)
  }

  function Count(s: System, a: Action, id: string, n: nat): nat {
    if Trims(a, id) then 0 else if id in Addressees(s, a) then n + 1 else n
  }

  /** The status messages sent to id since its history was last trimmed, n of them before the run. */
  ghost function Untrimmed(s: System, actions: seq<Action>, id: string, n: nat): nat
    requires IsRun(s, actions)
    decreases |actions|
  {
    if actions == [] then n else Untrimmed(Step(s, actions[0]), actions[1..], id, Count(s, actions[0], id, n))
  }

  predicate Within(s: System, id: string, bound: int) {
    id in s.table.tasks ==> |s.table.tasks[id].history| <= bound
  }

  lemma StepBound(s: System, a: Action, id: string, n: nat)
    requires Enabled(s, a) && s.maxHistory >= 1 && Within(s, id, s.maxHistory + n)
    ensures Within(Step(s, a), id, s.maxHistory + Count(s, a, id, n)) && Step(s, a).maxHistory == s.maxHistory
  {
    match a {
      case AppendMessage(id', message) =>
        if id' == id && id in s.table.tasks {
          var task := s.table.tasks[id];
          HistoryLimit(task.history, Addressed(message, id, task.contextId), s.maxHistory);
        }
      case ContinueCancel(call, _) =>
        match s.cancels[call] {
          case Checking(id', message) =>
          case _ =>
        }
      case _ =>
    }
  }

  lemma {:induction false} RunBound(s: System, actions: seq<Action>, id: string, n: nat)
    requires IsRun(s, actions) && s.maxHistory >= 1 && Within(s, id, s.maxHistory + n)
    ensures Within(After(s, actions), id, s.maxHistory + Untrimmed(s, actions, id, n))
    decreases |actions|
  {
    if actions != [] {
      StepBound(s, actions[0], id, n);
      RunBound(Step(s, actions[0]), actions[1..], id, Count(s, actions[0], id, n));
    }
  }

  /** In every run of a manager whose limit is at least 1, a history exceeds the limit by no more than the
      status messages sent since it was last trimmed. */
  lemma HistoryBound(maxHistory: int, actions: seq<Action>, id: string)
    requires maxHistory >= 1 && IsRun(Initial(maxHistory), actions)
    ensures Within(After(Initial(maxHistory), actions), id, maxHistory + Untrimmed(Initial(maxHistory), actions, id, 0))
  {
    RunBound(Initial(maxHistory), actions, id, 0);
  }

  lemma {:induction false} QuietSendsNothing(s: System, actions: seq<Action>, id: string)
    requires IsRun(s, actions) && Quiet(s, actions)
    ensures Untrimmed(s, actions, id, 0) == 0
    decreases |actions|
  {
    if actions != [] {
      QuietSendsNothing(Step(s, actions[0]), actions[1..], id);
    }
  }

  /** Every history of every quiet run stays within the limit. */
  ghost predicate QuietRunsStayWithin(maxHistory: int) {
    forall actions: seq<Action>, id: string ::
      IsRun(Initial(maxHistory), actions) && Quiet(Initial(maxHistory), actions) ==>
      Within(After(Initial(maxHistory), actions), id, maxHistory)
  }

  const HELLO := Message("hello", None, None)

  const FIRST := CreateTask("t", "c", HELLO, 0, 0)

  /** Exactly when the limit is kept by the runs that send no status message. */
  lemma QuietRunsStayWithinExactly(maxHistory: int)
    ensures QuietRunsStayWithin(maxHistory) <==> maxHistory >= 1
  {
    if maxHistory >= 1 {
      forall actions: seq<Action>, id: string | IsRun(Initial(maxHistory), actions) && Quiet(Initial(maxHistory), actions)
        ensures Within(After(Initial(maxHistory), actions), id, maxHistory)
      {
        HistoryBound(maxHistory, actions, id);
        QuietSendsNothing(Initial(maxHistory), actions, id);
      }
    } else {
      Created(maxHistory);
      assert !Within(After(Initial(maxHistory), [FIRST]), "t", maxHistory);
    }
  }

  lemma Created(maxHistory: int)
    ensures IsRun(Initial(maxHistory), [FIRST]) && Quiet(Initial(maxHistory), [FIRST])
    ensures var t := After(Initial(maxHistory), [FIRST]).table;
            "t" in t.tasks && |t.tasks["t"].history| == 1 && t.tasks["t"].state == SUBMITTED
  {
    var s := Step(Initial(maxHistory), FIRST);
    assert [FIRST][1..] == [] && After(s, []) == s;
  }

  lemma {:induction false} RunThenStep(s: System, actions: seq<Action>, a: Action)
    requires IsRun(s, actions) && Enabled(After(s, actions), a)
    ensures IsRun(s, actions + [a]) && After(s, actions + [a]) == Step(After(s, actions), a)
    decreases |actions|
  {
    if actions == [] {
      assert [] + [a] == [a] && [a][1..] == [];
      assert After(Step(s, a), []) == Step(s, a);
    } else {
      RunThenStep(Step(s, actions[0]), actions[1..], a);
      assert (actions + [a])[1..] == actions[1..] + [a];
    }
  }

  /** With status messages there is no limit: whatever max_history_size, a task that works and asks for
      input n times in turn, with a message each time, has n + 1 messages. */
  lemma {:induction false} HistoryGrows(maxHistory: int, n: nat) returns (actions: seq<Action>)
    ensures IsRun(Initial(maxHistory), actions) && "t" in After(Initial(maxHistory), actions).table.tasks
    ensures var task := After(Initial(maxHistory), actions).table.tasks["t"];
            && |task.history| == n + 1
            && task.state == if n == 0 then SUBMITTED else if n % 2 == 1 then WORKING else INPUT_REQUIRED
  {
    if n == 0 {
      Created(maxHistory);
      actions := [FIRST];
    } else {
      var before := HistoryGrows(maxHistory, n - 1);
      var a := UpdateStatus("t", if n % 2 == 1 then WORKING else INPUT_REQUIRED, Some(HELLO), n);
      RunThenStep(Initial(maxHistory), before, a);
      actions := before + [a];
    }
  }

  /** The shortest run that breaks a limit of 1: create a task, then update it with a message. */
  lemma OneUpdateBreaksTheLimit()
    ensures var actions := [FIRST, UpdateStatus("t", WORKING, Some(HELLO), 1)];
            && IsRun(Initial(1), actions)
            && "t" in After(Initial(1), actions).table.tasks
            && |After(Initial(1), actions).table.tasks["t"].history| == 2
  {
    var a := UpdateStatus("t", WORKING, Some(HELLO), 1);
    Created(1);
    RunThenStep(Initial(1), [FIRST], a);
    assert [FIRST] + [a] == [FIRST, a];
  }
}
