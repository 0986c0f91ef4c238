/** The A2A task table (src/praxis_sdk/a2a/task_manager.py) as a function of its state: one function
    for each region of code that holds the lock. States follow section 6.3 (TaskState) of the A2A
    Protocol Specification v0.3.0. */
module Tasks {
  import opened Wrappers

  datatype TaskState =
    | SUBMITTED | WORKING | COMPLETED | FAILED | INPUT_REQUIRED | CANCELED | REJECTED | AUTH_REQUIRED | UNKNOWN

  datatype Message = Message(text: string, taskId: Option<string>, contextId: Option<string>)

  datatype Task = Task(
    contextId: string,
    state: TaskState,
    timestamp: int,
    statusMessage: Option<Message>,
    history: seq<Message>,
    artifacts: seq<string>)

  datatype Stats = Stats(
    created: nat, completed: nat, failed: nat, cancelled: nat, timeout: nat, artifacts: nat, cleanupRuns: nat)

  /** The manager's dictionaries and statistics. used holds every identifier handed out so far. */
  datatype Table = Table(tasks: map<string, Task>, timeouts: map<string, int>, stats: Stats, used: set<string>)

  const EMPTY_TABLE := Table(map[], map[], Stats(0, 0, 0, 0, 0, 0, 0), {})

  predicate Terminal(s: TaskState) {
    s == COMPLETED || s == FAILED || s == CANCELED || s == REJECTED
  }

  /** _is_valid_transition */
  predicate ValidTransition(from: TaskState, to: TaskState) {
    match from
    case SUBMITTED => to in {WORKING, INPUT_REQUIRED, AUTH_REQUIRED, REJECTED, CANCELED, FAILED}
    case WORKING => to in {COMPLETED, FAILED, INPUT_REQUIRED, AUTH_REQUIRED, CANCELED}
    case INPUT_REQUIRED => to in {WORKING, FAILED, CANCELED}
    case AUTH_REQUIRED => to in {WORKING, FAILED, CANCELED}
    case UNKNOWN => to in {WORKING, FAILED, CANCELED}
    case COMPLETED => false
    case FAILED => false
    case CANCELED => false
    case REJECTED => false
  }

  function Addressed(m: Message, id: string, contextId: string): Message {
    m.(taskId := Some(id), contextId := Some(contextId))
  }

  /** The lock-held part of create_task, for a new identifier. */
  function Create(t: Table, id: string, contextId: string, message: Message, stamp: int, deadline: int): Table {
    Table(
      t.tasks[id := Task(contextId, SUBMITTED, stamp, None, [Addressed(message, id, contextId)], [])],
      t.timeouts[id := deadline],
      t.stats.(created := t.stats.created + 1),
      t.used + {id})
  }

  function WithStatus(task: Task, id: string, state: TaskState, message: Option<Message>, stamp: int): Task {
    var moved := task.(state := state, timestamp := stamp);
    match message
    case None => moved
    case Some(m) =>
      var sent := Addressed(m, id, task.contextId);
      moved.(statusMessage := Some(sent), history := task.history + [sent])
  }

  function CountState(s: Stats, state: TaskState): Stats {
    match state
    case COMPLETED => s.(completed := s.completed + 1)
    case FAILED => s.(failed := s.failed + 1)
    case CANCELED => s.(cancelled := s.cancelled + 1)
    case _ => s
  }

  predicate CanUpdate(t: Table, id: string, state: TaskState) {
    id in t.tasks && ValidTransition(t.tasks[id].state, state)
  }

  /** update_task_status */
  function Update(t: Table, id: string, state: TaskState, message: Option<Message>, stamp: int): (bool, Table) {
    if CanUpdate(t, id, state) then
      (true, t.(tasks := t.tasks[id := WithStatus(t.tasks[id], id, state, message, stamp)], stats := CountState(t.stats, state)))
    else (false, t)
  }

  datatype CancelError = TaskNotFound | TaskNotCancelable(state: TaskState) | KeyError(missing: string)

  datatype Checked = Refused(error: CancelError) | Cancelable(contextId: string)

  /** The first region of cancel_task. */
  function CancelCheck(t: Table, id: string): Checked {
    if id !in t.tasks then Refused(TaskNotFound)
    else if Terminal(t.tasks[id].state) then Refused(TaskNotCancelable(t.tasks[id].state))
    else Cancelable(t.tasks[id].contextId)
  }

  /** The message that goes with a reason; an empty reason is none. */
  function CancelMessage(id: string, contextId: string, reason: Option<string>): Option<Message> {
    if reason.Some? && reason.value != "" then Some(Message(reason.value, Some(id), Some(contextId))) else None
  }

  /** The last region of cancel_task: None stands for the KeyError when the task is gone. */
  function CancelFinish(t: Table, id: string): (Option<Task>, Table) {
    (if id in t.tasks then Some(t.tasks[id]) else None, t.(timeouts := t.timeouts - {id}))
  }

  /** Python's history[-n:] for any integer n. */
  function LastItems(history: seq<Message>, n: int): seq<Message> {
    if n > 0 then (if n < |history| then history[|history| - n..] else history)
    else if -n < |history| then history[-n..]
    else []
  }

  function Extended(history: seq<Message>, m: Message, maxHistory: int): seq<Message> {
    var longer := history + [m];
    if |longer| > maxHistory then LastItems(longer, maxHistory) else longer
  }

  /** add_message_to_history */
  function AddMessage(t: Table, id: string, m: Message, maxHistory: int): (bool, Table) {
    if id !in t.tasks then (false, t)
    else
      var task := t.tasks[id];
      var history := Extended(task.history, Addressed(m, id, task.contextId), maxHistory);
      (true, t.(tasks := t.tasks[id := task.(history := history)]))
  }

  /** add_artifact */
  function AddArtifact(t: Table, id: string, artifact: string): (bool, Table) {
    if id !in t.tasks then (false, t)
    else
      var task := t.tasks[id];
      (true, t.(tasks := t.tasks[id := task.(artifacts := task.artifacts + [artifact])],
                stats := t.stats.(artifacts := t.stats.artifacts + 1)))
  }

  function Stale(t: Table, cutoff: int): set<string> {
    set id | id in t.tasks && (t.tasks[id].state == COMPLETED || t.tasks[id].state == FAILED) && t.tasks[id].timestamp < cutoff
  }

  /** cleanup_completed_tasks */
  function Cleanup(t: Table, cutoff: int): (nat, Table) {
    var stale := Stale(t, cutoff);
    (|stale|, t.(tasks := t.tasks - stale, timeouts := t.timeouts - stale,
                 stats := if stale == {} then t.stats else t.stats.(cleanupRuns := t.stats.cleanupRuns + 1)))
  }

  function Overdue(t: Table, now: int): set<string> {
    set id | id in t.timeouts && now > t.timeouts[id] && id in t.tasks
             && (t.tasks[id].state == SUBMITTED || t.tasks[id].state == WORKING)
  }

  const TIMED_OUT := Message("Task execution timed out", None, None)

  /** The effect check_timeouts is written for: every overdue task fails. As written the sweep waits for
      the lock it holds; see the README. */
  function Sweep(t: Table, now: int, stamp: int): (nat, Table) {
    var overdue := Overdue(t, now);
    (|overdue|, Table(
      map id | id in t.tasks :: if id in overdue then WithStatus(t.tasks[id], id, FAILED, Some(TIMED_OUT), stamp) else t.tasks[id],
      t.timeouts - overdue,
      t.stats.(failed := t.stats.failed + |overdue|, timeout := t.stats.timeout + |overdue|),
      t.used))
  }

  // ---- Conservation ------------------------------------------------------------------------------

  /** The states the statistics count as ended. REJECTED is terminal and not counted. */
  predicate Ended(s: TaskState) {
    s == COMPLETED || s == FAILED || s == CANCELED
  }

  function OpenTasks(t: Table): set<string> {
    set id | id in t.tasks && !Ended(t.tasks[id].state)
  }

  /** What every operation keeps. */
  ghost predicate Conserved(t: Table) {
    && t.stats.created == t.stats.completed + t.stats.failed + t.stats.cancelled + |OpenTasks(t)|
    && t.timeouts.Keys <= t.tasks.Keys <= t.used
    && (forall id :: id in t.tasks ==> t.tasks[id].state != UNKNOWN)
    && t.stats.timeout <= t.stats.failed
  }

  lemma CreateConserves(t: Table, id: string, contextId: string, message: Message, stamp: int, deadline: int)
    requires Conserved(t) && id !in t.used
    ensures Conserved(Create(t, id, contextId, message, stamp, deadline))
  {
    CreateOpens(t, id, contextId, message, stamp, deadline);
  }

  lemma CreateOpens(t: Table, id: string, contextId: string, message: Message, stamp: int, deadline: int)
    requires id !in t.tasks
    ensures |OpenTasks(Create(t, id, contextId, message, stamp, deadline))| == |OpenTasks(t)| + 1
  {
    assert OpenTasks(Create(t, id, contextId, message, stamp, deadline)) == OpenTasks(t) + {id};
  }

  lemma NoWayToUnknown(from: TaskState, to: TaskState)
    requires ValidTransition(from, to)
    ensures to != UNKNOWN && !Terminal(from)
  {
  }

  lemma UpdateConserves(t: Table, id: string, state: TaskState, message: Option<Message>, stamp: int)
    requires Conserved(t)
    ensures Conserved(Update(t, id, state, message, stamp).1)
  {
    if CanUpdate(t, id, state) {
      NoWayToUnknown(t.tasks[id].state, state);
      OpenAfterUpdate(t, id, state, message, stamp);
    }
  }

  lemma OpenAfterUpdate(t: Table, id: string, state: TaskState, message: Option<Message>, stamp: int)
    requires CanUpdate(t, id, state)
    ensures id in OpenTasks(t)
    ensures OpenTasks(Update(t, id, state, message, stamp).1) == if Ended(state) then OpenTasks(t) - {id} else OpenTasks(t)
  {
  }

  lemma CancelFinishConserves(t: Table, id: string)
    requires Conserved(t)
    ensures Conserved(CancelFinish(t, id).1)
  {
    assert OpenTasks(CancelFinish(t, id).1) == OpenTasks(t);
  }

  lemma AddMessageConserves(t: Table, id: string, m: Message, maxHistory: int)
    requires Conserved(t)
    ensures Conserved(AddMessage(t, id, m, maxHistory).1)
  {
    assert OpenTasks(AddMessage(t, id, m, maxHistory).1) == OpenTasks(t);
  }

  lemma AddArtifactConserves(t: Table, id: string, artifact: string)
    requires Conserved(t)
    ensures Conserved(AddArtifact(t, id, artifact).1)
  {
    assert OpenTasks(AddArtifact(t, id, artifact).1) == OpenTasks(t);
  }

  lemma CleanupConserves(t: Table, cutoff: int)
    requires Conserved(t)
    ensures Conserved(Cleanup(t, cutoff).1)
  {
    assert OpenTasks(Cleanup(t, cutoff).1) == OpenTasks(t);
  }

  lemma SweepOpens(t: Table, now: int, stamp: int)
    ensures |OpenTasks(Sweep(t, now, stamp).1)| == |OpenTasks(t)| - |Overdue(t, now)|
  {
    assert OpenTasks(Sweep(t, now, stamp).1) == OpenTasks(t) - Overdue(t, now);
    CountRemoved(OpenTasks(t), Overdue(t, now));
  }

  lemma SweepConserves(t: Table, now: int, stamp: int)
    requires Conserved(t)
    ensures Conserved(Sweep(t, now, stamp).1)
  {
    SweepOpens(t, now, stamp);
    var t' := Sweep(t, now, stamp).1;
    assert t'.tasks.Keys == t.tasks.Keys;
  }

  lemma CountRemoved(a: set<string>, b: set<string>)
    requires b <= a
    ensures |a - b| == |a| - |b|
  {
    assert (a - b) + b == a;
  }

  /** The timeout of a task is no longer tracked and counts as hit. */
  function Forgotten(t: Table, id: string): Table {
    t.(timeouts := t.timeouts - {id}, stats := t.stats.(timeout := t.stats.timeout + 1))
  }

  /** The sweep is what update_task_status does to each overdue task, in whatever order: for one of
      them, updating it and forgetting its timeout leaves the others overdue as before. */
  lemma SweepOne(t: Table, now: int, stamp: int, id: string)
    requires id in Overdue(t, now)
    ensures CanUpdate(t, id, FAILED)
    ensures var t2 := Forgotten(Update(t, id, FAILED, Some(TIMED_OUT), stamp).1, id);
            Overdue(t2, now) == Overdue(t, now) - {id} && Sweep(t2, now, stamp).1 == Sweep(t, now, stamp).1
  {
    var t2 := Forgotten(Update(t, id, FAILED, Some(TIMED_OUT), stamp).1, id);
    assert Overdue(t2, now) == Overdue(t, now) - {id};
    var swept, swept2 := Sweep(t, now, stamp).1, Sweep(t2, now, stamp).1;
    assert swept2.tasks == swept.tasks;
    assert swept2.timeouts == swept.timeouts;
  }

  // ---- History -----------------------------------------------------------------------------------

  /** After add_message_to_history the history is within its limit exactly when the limit is at least 1;
      then it holds the most recent messages, in order. */
  lemma HistoryLimit(history: seq<Message>, m: Message, maxHistory: int)
    ensures |Extended(history, m, maxHistory)| <= maxHistory <==> maxHistory >= 1
    ensures maxHistory >= 1 ==>
      var longer := history + [m];
      var kept := Extended(history, m, maxHistory);
      && |kept| == (if |longer| < maxHistory then |longer| else maxHistory)
      && kept == longer[|longer| - |kept|..]
  {
  }
}
