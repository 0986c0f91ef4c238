/** What a task manager's runs do to one task, said of states, deadlines and counts alone
    (src/praxis_sdk/a2a/task_manager.py:139-301, 465-556). */
module TaskLaws {
  import opened Wrappers
  import opened Tasks
  import opened TaskRuns

  // ---- Transitions -----------------------------------------------------------------------------------

  /** From which states a task can get into a state. */
  predicate MayBecome(from: TaskState, to: TaskState) {
    match to
    case SUBMITTED => false
    case WORKING => from == SUBMITTED || from == INPUT_REQUIRED || from == AUTH_REQUIRED || from == UNKNOWN
    case INPUT_REQUIRED => from == SUBMITTED || from == WORKING
    case AUTH_REQUIRED => from == SUBMITTED || from == WORKING
    case COMPLETED => from == WORKING
    case REJECTED => from == SUBMITTED
    case FAILED => from != COMPLETED && from != FAILED && from != CANCELED && from != REJECTED
    case CANCELED => from != COMPLETED && from != FAILED && from != CANCELED && from != REJECTED
    case UNKNOWN => false
  }

  /** An update is accepted exactly when the task is there and may get into the state, and then it does. */
  lemma UpdateExactly(t: Table, id: string, state: TaskState, message: Option<Message>, stamp: int)
    ensures var (ok, t') := Update(t, id, state, message, stamp);
            && (ok <==> id in t.tasks && MayBecome(t.tasks[id].state, state))
            && (!ok ==> t' == t)
            && (ok ==> t'.tasks == t.tasks[id := Updated(t.tasks[id], id, state, message, stamp)] && t'.timeouts == t.timeouts)
  {
  }

  /** The task with its new state, and with the message, addressed to it, as its status and in its history. */
  function Updated(task: Task, id: string, state: TaskState, message: Option<Message>, stamp: int): Task {
    match message
    case None => Task(task.contextId, state, stamp, task.statusMessage, task.history, task.artifacts)
    case Some(m) =>
      var sent := Message(m.text, Some(id), Some(task.contextId));
      Task(task.contextId, state, stamp, Some(sent), task.history + [sent], task.artifacts)
  }

  /** In every interleaving a step leaves the state of a task alone or takes it along one of these
      transitions. */
  lemma StepMoves(s: System, a: Action, id: string)
    requires Enabled(s, a) && id in s.table.tasks && id in Step(s, a).table.tasks
    requires s.table.tasks.Keys <= s.table.used
    ensures var from, to := s.table.tasks[id].state, Step(s, a).table.tasks[id].state;
            from == to || MayBecome(from, to)
  {
    match a {
      case UpdateStatus(id', state, message, stamp) => UpdateExactly(s.table, id', state, message, stamp);
      case ContinueCancel(call, stamp) =>
        match s.cancels[call] {
          case Checking(id', message) => UpdateExactly(s.table, id', CANCELED, message, stamp);
          case _ =>
        }
      case _ =>
    }
  }

  /** A message added to a task is its newest one, addressed to it, and nothing else of any task changes. */
  lemma MessageAdded(t: Table, id: string, m: Message, maxHistory: int)
    requires id in t.tasks && maxHistory >= 1
    ensures var (ok, t') := AddMessage(t, id, m, maxHistory);
            && ok && id in t'.tasks && t'.tasks[id].history != []
            && t'.tasks[id].history[|t'.tasks[id].history| - 1] == Message(m.text, Some(id), Some(t.tasks[id].contextId))
            && t' == t.(tasks := t.tasks[id := t.tasks[id].(history := t'.tasks[id].history)])
  {
    HistoryLimit(t.tasks[id].history, Addressed(m, id, t.tasks[id].contextId), maxHistory);
  }

  /** Cleanup forgets just the completed and failed tasks with a time stamp before the cutoff, with their
      deadlines, tells how many, and counts as a run if there were any. */
  lemma CleanupExactly(t: Table, cutoff: int)
    ensures var n, t' := Cleanup(t, cutoff).0, Cleanup(t, cutoff).1;
            && n == |t.tasks| - |t'.tasks|
            && (forall id :: id in t'.tasks <==> id in t.tasks && !OldEnough(t, id, cutoff))
            && (forall id :: id in t'.tasks ==> t'.tasks[id] == t.tasks[id])
            && (forall id :: id in t'.timeouts <==> id in t.timeouts && !OldEnough(t, id, cutoff))
            && (forall id :: id in t'.timeouts ==> t'.timeouts[id] == t.timeouts[id])
            && t'.stats == (if n == 0 then t.stats else t.stats.(cleanupRuns := t.stats.cleanupRuns + 1))
  {
    var t' := Cleanup(t, cutoff).1;
    assert t'.tasks.Keys == t.tasks.Keys - Stale(t, cutoff) && Stale(t, cutoff) <= t.tasks.Keys;
  }

  // ---- Counts ----------------------------------------------------------------------------------------

  /** The tasks that one step has got into a state. */
  function Moved(t: Table, t': Table, to: TaskState): set<string> {
    set id | id in t.tasks && id in t'.tasks && t.tasks[id].state != to && t'.tasks[id].state == to
  }

  /** How often a run got a task into a state. */
  ghost function Moves(s: System, actions: seq<Action>, to: TaskState): nat
    requires IsRun(s, actions)
    decreases |actions|
  {
    if actions == [] then 0
    else |Moved(s.table, Step(s, actions[0]).table, to)| + Moves(Step(s, actions[0]), actions[1..], to)
  }

  /** How often a timeout sweep of the run did it. */
  ghost function TimedOut(s: System, actions: seq<Action>): nat
    requires IsRun(s, actions)
    decreases |actions|
  {
    if actions == [] then 0
    else
      var s' := Step(s, actions[0]);
      (if actions[0].CheckTimeouts? then |Moved(s.table, s'.table, FAILED)| else 0) + TimedOut(s', actions[1..])
  }

  ghost function Created(actions: seq<Action>): nat {
    if actions == [] then 0 else (if actions[0].CreateTask? then 1 else 0) + Created(actions[1..])
  }

  lemma UpdateMoves(t: Table, id: string, state: TaskState, message: Option<Message>, stamp: int, to: TaskState)
    ensures var (ok, t') := Update(t, id, state, message, stamp);
            Moved(t, t', to) == if ok && state == to then {id} else {}
  {
    UpdateExactly(t, id, state, message, stamp);
  }

  lemma SweepMoves(t: Table, now: int, stamp: int, to: TaskState)
    ensures Moved(t, Sweep(t, now, stamp).1, to) == if to == FAILED then Overdue(t, now) else {}
  {
  }

  lemma NothingMoves(t: Table, t': Table, to: TaskState)
    requires forall id :: id in t.tasks && id in t'.tasks ==> t'.tasks[id].state == t.tasks[id].state
    ensures Moved(t, t', to) == {}
  {
  }

  /** What a step adds to each count. */
  lemma StepCounts(s: System, a: Action)
    requires Enabled(s, a) && s.table.tasks.Keys <= s.table.used
    ensures var t, t' := s.table, Step(s, a).table;
            && t'.stats.completed == t.stats.completed + |Moved(t, t', COMPLETED)|
            && t'.stats.failed == t.stats.failed + |Moved(t, t', FAILED)|
            && t'.stats.cancelled == t.stats.cancelled + |Moved(t, t', CANCELED)|
            && t'.stats.timeout == t.stats.timeout + (if a.CheckTimeouts? then |Moved(t, t', FAILED)| else 0)
            && t'.stats.created == t.stats.created + (if a.CreateTask? then 1 else 0)
            && t'.tasks.Keys <= t'.used
  {
    var t, t' := s.table, Step(s, a).table;
    match a {
      case UpdateStatus(id, state, message, stamp) => UpdateCounts(t, id, state, message, stamp);
      case CheckTimeouts(now, stamp) => SweepCounts(t, now, stamp);
      case ContinueCancel(call, stamp) =>
        match s.cancels[call] {
          case Checking(id, message) => UpdateCounts(t, id, CANCELED, message, stamp);
          case _ => AllStay(t, t');
        }
      case _ => AllStay(t, t');
    }
  }

  lemma AllStay(t: Table, t': Table)
    requires forall id :: id in t.tasks && id in t'.tasks ==> t'.tasks[id].state == t.tasks[id].state
    ensures Moved(t, t', COMPLETED) == {} && Moved(t, t', FAILED) == {} && Moved(t, t', CANCELED) == {}
  {
    NothingMoves(t, t', COMPLETED);
    NothingMoves(t, t', FAILED);
    NothingMoves(t, t', CANCELED);
  }

  lemma SweepCounts(t: Table, now: int, stamp: int)
    ensures var t' := Sweep(t, now, stamp).1;
            && t'.stats.completed == t.stats.completed + |Moved(t, t', COMPLETED)|
            && t'.stats.failed == t.stats.failed + |Moved(t, t', FAILED)|
            && t'.stats.cancelled == t.stats.cancelled + |Moved(t, t', CANCELED)|
            && t'.stats.timeout == t.stats.timeout + |Moved(t, t', FAILED)| && t'.stats.created == t.stats.created
  {
    SweepMoves(t, now, stamp, COMPLETED);
    SweepMoves(t, now, stamp, FAILED);
    SweepMoves(t, now, stamp, CANCELED);
  }

  lemma UpdateCounts(t: Table, id: string, state: TaskState, message: Option<Message>, stamp: int)
    ensures var t' := Update(t, id, state, message, stamp).1;
            && t'.stats.completed == t.stats.completed + |Moved(t, t', COMPLETED)|
            && t'.stats.failed == t.stats.failed + |Moved(t, t', FAILED)|
            && t'.stats.cancelled == t.stats.cancelled + |Moved(t, t', CANCELED)|
            && t'.stats.timeout == t.stats.timeout && t'.stats.created == t.stats.created
  {
    UpdateMoves(t, id, state, message, stamp, COMPLETED);
    UpdateMoves(t, id, state, message, stamp, FAILED);
    UpdateMoves(t, id, state, message, stamp, CANCELED);
  }

  lemma {:induction false} RunCounts(s: System, actions: seq<Action>)
    requires IsRun(s, actions) && s.table.tasks.Keys <= s.table.used
    ensures var stats, stats' := s.table.stats, After(s, actions).table.stats;
            && stats'.completed == stats.completed + Moves(s, actions, COMPLETED)
            && stats'.failed == stats.failed + Moves(s, actions, FAILED)
            && stats'.cancelled == stats.cancelled + Moves(s, actions, CANCELED)
            && stats'.timeout == stats.timeout + TimedOut(s, actions)
            && stats'.created == stats.created + Created(actions)
    decreases |actions|
  {
    if actions != [] {
      StepCounts(s, actions[0]);
      RunCounts(Step(s, actions[0]), actions[1..]);
    }
  }

  /** Over every run each statistic counts what it is named after: the tasks created, the moves of a task
      to COMPLETED, FAILED and CANCELED, and those to FAILED that a timeout sweep made. */
  lemma StatisticsCount(maxHistory: int, actions: seq<Action>)
    requires IsRun(Initial(maxHistory), actions)
    ensures var s := Initial(maxHistory);
            var stats := After(s, actions).table.stats;
            && stats.completed == Moves(s, actions, COMPLETED) && stats.failed == Moves(s, actions, FAILED)
            && stats.cancelled == Moves(s, actions, CANCELED) && stats.timeout == TimedOut(s, actions)
            && stats.created == Created(actions)
  {
    RunCounts(Initial(maxHistory), actions);
  }

  // ---- Deadlines -------------------------------------------------------------------------------------

  /** The deadline of a task that has not ended is the one it was created with. */
  ghost predicate Tracked(s: System, id: string, deadline: int) {
    && id in s.table.used
    && (id in s.table.tasks && !Terminal(s.table.tasks[id].state) ==> id in s.table.timeouts && s.table.timeouts[id] == deadline)
  }

  lemma StepKeepsTracked(s: System, a: Action, id: string, deadline: int)
    requires Enabled(s, a) && Inv(s) && Tracked(s, id, deadline)
    ensures Tracked(Step(s, a), id, deadline)
  {
    match a {
      case CheckTimeouts(now, stamp) =>
      case ContinueCancel(call, stamp) =>
        assert CancelOk(s.table, s.cancels[call]);
        match s.cancels[call] {
          case Checking(id', message) =>
          case _ =>
        }
      case _ =>
    }
  }

  lemma {:induction false} RunKeepsTracked(s: System, actions: seq<Action>, id: string, deadline: int)
    requires IsRun(s, actions) && Inv(s) && Tracked(s, id, deadline)
    ensures Tracked(After(s, actions), id, deadline)
    decreases |actions|
  {
    if actions != [] {
      StepKeepsInv(s, actions[0]);
      StepKeepsTracked(s, actions[0], id, deadline);
      RunKeepsTracked(Step(s, actions[0]), actions[1..], id, deadline);
    }
  }

  /** The deadline of a task has passed while it waits or is being worked on. */
  predicate TimeIsUp(task: Task, deadline: int, now: int) {
    now > deadline && (task.state == SUBMITTED || task.state == WORKING)
  }

  /** A new task is submitted, holds its message, addressed to it, and is counted. */
  lemma NewTask(t: Table, id: string, contextId: string, message: Message, stamp: int, deadline: int)
    ensures var t' := Create(t, id, contextId, message, stamp, deadline);
            && t'.tasks == t.tasks[id := Task(contextId, SUBMITTED, stamp, None, [Message(message.text, Some(id), Some(contextId))], [])]
            && t'.timeouts == t.timeouts[id := deadline]
            && t'.stats == t.stats.(created := t.stats.created + 1)
  {
  }

  lemma SweepTracked(s: System, id: string, deadline: int, now: int, stamp: int)
    requires Tracked(s, id, deadline) && id in s.table.tasks
    ensures var t, t' := s.table, Step(s, CheckTimeouts(now, stamp)).table;
            && id in t'.tasks
            && (if now > deadline && (t.tasks[id].state == SUBMITTED || t.tasks[id].state == WORKING)
                then t'.tasks[id].state == FAILED && id !in t'.timeouts
                else t'.tasks[id] == t.tasks[id] && (id in t'.timeouts <==> id in t.timeouts))
  {
  }

  lemma CreatedIsTracked(maxHistory: int, before: seq<Action>, create: Action, since: seq<Action>)
    requires IsRun(Initial(maxHistory), before) && create.CreateTask?
    requires var s := After(Initial(maxHistory), before); Enabled(s, create) && IsRun(Step(s, create), since)
    ensures Tracked(After(Step(After(Initial(maxHistory), before), create), since), create.newId, create.deadline)
  {
    var s := After(Initial(maxHistory), before);
    InitialInv(maxHistory);
    RunKeepsInv(Initial(maxHistory), before);
    StepKeepsInv(s, create);
    RunKeepsTracked(Step(s, create), since, create.newId, create.deadline);
  }

  /** Whatever happened before a task was created with some deadline, and whatever happened since: a timeout
      sweep fails it if it is submitted or being worked on and the deadline has passed, and then no longer
      tracks it; otherwise the sweep leaves it as it is. */
  lemma SweepAtDeadline(maxHistory: int, before: seq<Action>, create: Action, since: seq<Action>, now: int, stamp: int)
    requires IsRun(Initial(maxHistory), before) && create.CreateTask?
    requires var s := After(Initial(maxHistory), before); Enabled(s, create) && IsRun(Step(s, create), since)
    requires create.newId in After(Step(After(Initial(maxHistory), before), create), since).table.tasks
    ensures var id, s := create.newId, After(Step(After(Initial(maxHistory), before), create), since);
            var t, t' := s.table, Step(s, CheckTimeouts(now, stamp)).table;
            && id in t'.tasks
            && (if now > create.deadline && (t.tasks[id].state == SUBMITTED || t.tasks[id].state == WORKING)
                then t'.tasks[id].state == FAILED && id !in t'.timeouts
                else t'.tasks[id] == t.tasks[id] && (id in t'.timeouts <==> id in t.timeouts))
  {
    CreatedIsTracked(maxHistory, before, create, since);
    SweepTracked(After(Step(After(Initial(maxHistory), before), create), since), create.newId, create.deadline, now, stamp);
  }

  /** For example: with deadline 300 a sweep at 10 leaves the task submitted, and one at 400 fails it. */
  lemma SweepByExample(maxHistory: int, message: Message)
    ensures var create := CreateTask("t", "c", message, 0, 300);
            var s := Step(Initial(maxHistory), create);
            && Step(s, CheckTimeouts(10, 10)).table.tasks["t"].state == SUBMITTED
            && Step(s, CheckTimeouts(400, 400)).table.tasks["t"].state == FAILED
            && Step(s, CheckTimeouts(400, 400)).table.stats == Stats(1, 0, 1, 0, 1, 0, 0)
  {
    var s := Step(Initial(maxHistory), CreateTask("t", "c", message, 0, 300));
    SweepMoves(s.table, 400, 400, FAILED);
    assert Overdue(s.table, 400) == {"t"};
  }
}
