/** Every interleaving of the task manager's lock-held regions (src/praxis_sdk/a2a/task_manager.py).
    cancel_task takes the lock three times; anything may happen between. */
module TaskRuns {
  import opened Wrappers
  import opened Tasks

  /** Where a call of cancel_task stands: before its first region, before its update, before its last
      region, or over. */
  datatype Cancel =
    | Entered(id: string, reason: Option<string>)
    | Checking(id: string, message: Option<Message>)
    | Updated(id: string)
    | Returned(task: Task)
    | Raised(error: CancelError)

  /** The table, the calls of cancel_task, and the manager's max_history_size, which never changes. */
  datatype System = System(table: Table, cancels: map<nat, Cancel>, maxHistory: int)

  function Initial(maxHistory: int): System {
    System(EMPTY_TABLE, map[], maxHistory)
  }

  /** One region, by whoever gets the lock next. */
  datatype Action =
    | CreateTask(newId: string, contextId: string, message: Message, stamp: int, deadline: int)
    | UpdateStatus(id: string, state: TaskState, update: Option<Message>, stamp: int)
    | AppendMessage(id: string, message: Message)
    | AppendArtifact(id: string, artifact: string)
    | CleanUp(cutoff: int)
    | CheckTimeouts(now: int, stamp: int)
    | EnterCancel(call: nat, id: string, reason: Option<string>)
    | ContinueCancel(call: nat, stamp: int)

  /** Identifiers are fresh (they are random UUIDs), and so are the names of cancel calls. */
  predicate Enabled(s: System, a: Action) {
    match a
    case CreateTask(id, _, _, _, _) => id !in s.table.used
    case EnterCancel(call, _, _) => call !in s.cancels
    case ContinueCancel(call, _) => call in s.cancels
    case _ => true
  }

  function StepCancel(t: Table, c: Cancel, stamp: int): (Table, Cancel) {
    match c
    case Entered(id, reason) =>
      (match CancelCheck(t, id)
       case Refused(e) => (t, Raised(e))
       case Cancelable(contextId) => (t, Checking(id, CancelMessage(id, contextId, reason))))
    case Checking(id, message) => (Update(t, id, CANCELED, message, stamp).1, Updated(id))
    case Updated(id) =>
      var (task, t') := CancelFinish(t, id);
      (t', if task.Some? then Returned(task.value) else Raised(KeyError(id)))
    case Returned(_) => (t, c)
    case Raised(_) => (t, c)
  }

  function Step(s: System, a: Action): System
    requires Enabled(s, a)
  {
    match a
    case CreateTask(id, contextId, message, stamp, deadline) =>
      s.(table := Create(s.table, id, contextId, message, stamp, deadline))
    case UpdateStatus(id, state, message, stamp) => s.(table := Update(s.table, id, state, message, stamp).1)
    case AppendMessage(id, message) => s.(table := AddMessage(s.table, id, message, s.maxHistory).1)
    case AppendArtifact(id, artifact) => s.(table := AddArtifact(s.table, id, artifact).1)
    case CleanUp(cutoff) => s.(table := Cleanup(s.table, cutoff).1)
    case CheckTimeouts(now, stamp) => s.(table := Sweep(s.table, now, stamp).1)
    case EnterCancel(call, id, reason) => s.(cancels := s.cancels[call := Entered(id, reason)])
    case ContinueCancel(call, stamp) =>
      var (t', c') := StepCancel(s.table, s.cancels[call], stamp);
      s.(table := t', cancels := s.cancels[call := c'])
  }

  /** A run: every action is enabled where it happens. */
  ghost predicate IsRun(s: System, actions: seq<Action>)
    decreases |actions|
  {
    actions == [] || (Enabled(s, actions[0]) && IsRun(Step(s, actions[0]), actions[1..]))
  }

  ghost function After(s: System, actions: seq<Action>): System
    requires IsRun(s, actions)
    decreases |actions|
  {
    if actions == [] then s else After(Step(s, actions[0]), actions[1..])
  }

  // ---- Terminal states absorb --------------------------------------------------------------------

  /** Once id is terminal it stays as it is, or is gone for good. */
  predicate Settled(t: Table, id: string, state: TaskState) {
    id in t.used && (id in t.tasks ==> t.tasks[id].state == state)
  }

  lemma StepKeepsSettled(s: System, a: Action, id: string, state: TaskState)
    requires Enabled(s, a) && Settled(s.table, id, state) && Terminal(state)
    ensures Settled(Step(s, a).table, id, state)
    ensures id !in s.table.tasks ==> id !in Step(s, a).table.tasks
  {
    match a {
      case UpdateStatus(id', to, message, stamp) =>
      case ContinueCancel(call, stamp) =>
        match s.cancels[call] {
          case Checking(id', message) =>
          case _ =>
        }
      case _ =>
    }
  }

  /** In every interleaving a terminal task never changes state; it can only be removed, and then its
      identifier never comes back. */
  lemma TerminalAbsorbs(s: System, first: seq<Action>, later: seq<Action>, id: string)
    requires s.table.tasks.Keys <= s.table.used && id in s.table.tasks && Terminal(s.table.tasks[id].state)
    requires IsRun(s, first) && IsRun(After(s, first), later)
    ensures var t, t' := After(s, first).table, After(After(s, first), later).table;
            && (id in t.tasks ==> t.tasks[id].state == s.table.tasks[id].state)
            && (id !in t.tasks ==> id !in t'.tasks)
  {
    RunKeepsSettled(s, first, id, s.table.tasks[id].state);
    RunKeepsSettled(After(s, first), later, id, s.table.tasks[id].state);
  }

  lemma {:induction false} RunKeepsSettled(s: System, actions: seq<Action>, id: string, state: TaskState)
    requires IsRun(s, actions) && Settled(s.table, id, state) && Terminal(state)
    ensures Settled(After(s, actions).table, id, state)
    ensures id !in s.table.tasks ==> id !in After(s, actions).table.tasks
    decreases |actions|
  {
    if actions != [] {
      StepKeepsSettled(s, actions[0], id, state);
      RunKeepsSettled(Step(s, actions[0]), actions[1..], id, state);
    }
  }

  // ---- Cancel ------------------------------------------------------------------------------------

  /** After its update a cancel's task is terminal or gone; what a cancel has returned is terminal; what
      it has missed is gone for good. */
  ghost predicate CancelOk(t: Table, c: Cancel) {
    match c
    case Updated(id) => id in t.used && (id in t.tasks ==> Terminal(t.tasks[id].state))
    case Returned(task) => Terminal(task.state)
    case Checking(id, _) => id in t.used
    case Raised(KeyError(id)) => id in t.used && id !in t.tasks
    case _ => true
  }

  ghost predicate Inv(s: System) {
    Conserved(s.table) && forall call :: call in s.cancels ==> CancelOk(s.table, s.cancels[call])
  }

  lemma StepConserves(s: System, a: Action)
    requires Enabled(s, a) && Conserved(s.table)
    ensures Conserved(Step(s, a).table)
  {
    match a {
      case CreateTask(id, contextId, message, stamp, deadline) =>
        CreateConserves(s.table, id, contextId, message, stamp, deadline);
      case UpdateStatus(id, state, message, stamp) => UpdateConserves(s.table, id, state, message, stamp);
      case AppendMessage(id, message) => AddMessageConserves(s.table, id, message, s.maxHistory);
      case AppendArtifact(id, artifact) => AddArtifactConserves(s.table, id, artifact);
      case CleanUp(cutoff) => CleanupConserves(s.table, cutoff);
      case CheckTimeouts(now, stamp) => SweepConserves(s.table, now, stamp);
      case EnterCancel(_, _, _) =>
      case ContinueCancel(call, stamp) =>
        match s.cancels[call] {
          case Checking(id, message) => UpdateConserves(s.table, id, CANCELED, message, stamp);
          case Updated(id) => CancelFinishConserves(s.table, id);
          case _ =>
        }
    }
  }

  /** Other calls' regions leave a cancel in order. */
  lemma StepKeepsCancel(s: System, a: Action, c: Cancel)
    requires Enabled(s, a) && CancelOk(s.table, c)
    ensures CancelOk(Step(s, a).table, c)
  {
    match c {
      case Updated(id) =>
        if id in s.table.tasks {
          StepKeepsSettled(s, a, id, s.table.tasks[id].state);
        } else {
          StepKeepsSettled(s, a, id, FAILED);
        }
      case Raised(KeyError(id)) =>
        StepKeepsSettled(s, a, id, FAILED);
      case _ =>
        UsedGrows(s, a);
    }
  }

  lemma UsedGrows(s: System, a: Action)
    requires Enabled(s, a)
    ensures s.table.used <= Step(s, a).table.used
  {
    if a.ContinueCancel? {
      match s.cancels[a.call] {
        case _ =>
      }
    }
  }

  /** The cancel that moves is in order afterwards: its update either cancelled the task or was refused
      because the task was terminal or gone. */
  lemma MovingCancel(t: Table, c: Cancel, stamp: int)
    requires t.tasks.Keys <= t.used && CancelOk(t, c)
    requires forall id :: id in t.tasks ==> t.tasks[id].state != UNKNOWN
    ensures var (t', c') := StepCancel(t, c, stamp); CancelOk(t', c')
  {
  }

  lemma StepKeepsInv(s: System, a: Action)
    requires Enabled(s, a) && Inv(s)
    ensures Inv(Step(s, a))
  {
    StepConserves(s, a);
    var s' := Step(s, a);
    forall call | call in s'.cancels ensures CancelOk(s'.table, s'.cancels[call]) {
      if call in s.cancels && s'.cancels[call] == s.cancels[call] {
        StepKeepsCancel(s, a, s.cancels[call]);
      } else if a.ContinueCancel? {
        MovingCancel(s.table, s.cancels[call], a.stamp);
      }
    }
  }

  lemma {:induction false} RunKeepsInv(s: System, actions: seq<Action>)
    requires IsRun(s, actions) && Inv(s)
    ensures Inv(After(s, actions))
    decreases |actions|
  {
    if actions != [] {
      StepKeepsInv(s, actions[0]);
      RunKeepsInv(Step(s, actions[0]), actions[1..]);
    }
  }

  lemma InitialInv(maxHistory: int)
    ensures Inv(Initial(maxHistory))
  {
    assert OpenTasks(EMPTY_TABLE) == {};
  }

  /** Task conservation over every run and interleaving: the tasks created and not counted as ended are
      those in the table that have not ended; tracked timeouts belong to existing tasks; and no task of
      the manager is ever UNKNOWN. */
  lemma AlwaysConserved(maxHistory: int, actions: seq<Action>)
    requires IsRun(Initial(maxHistory), actions)
    ensures var t := After(Initial(maxHistory), actions).table;
            && t.stats.created - t.stats.completed - t.stats.failed - t.stats.cancelled == |OpenTasks(t)|
            && t.timeouts.Keys <= t.tasks.Keys
            && (forall id :: id in t.tasks ==> t.tasks[id].state != UNKNOWN)
  {
    InitialInv(maxHistory);
    RunKeepsInv(Initial(maxHistory), actions);
  }

  /** Cancel is safe in every interleaving: whenever cancel_task returns a task, that task is terminal:
      CANCELED, or whatever terminal state won the race between its check and its update. */
  lemma CancelReturnsTerminal(maxHistory: int, actions: seq<Action>, call: nat)
    requires IsRun(Initial(maxHistory), actions)
    requires var s := After(Initial(maxHistory), actions); call in s.cancels && s.cancels[call].Returned?
    ensures Terminal(After(Initial(maxHistory), actions).cancels[call].task.state)
  {
    InitialInv(maxHistory);
    RunKeepsInv(Initial(maxHistory), actions);
    assert CancelOk(After(Initial(maxHistory), actions).table, After(Initial(maxHistory), actions).cancels[call]);
  }

  /** In every interleaving, the identifier in a KeyError was once in the table and never will be again. */
  lemma KeyErrorIsFinal(maxHistory: int, actions: seq<Action>, later: seq<Action>, call: nat, id: string)
    requires IsRun(Initial(maxHistory), actions) && IsRun(After(Initial(maxHistory), actions), later)
    requires var s := After(Initial(maxHistory), actions); call in s.cancels && s.cancels[call] == Raised(KeyError(id))
    ensures id in After(Initial(maxHistory), actions).table.used
    ensures id !in After(After(Initial(maxHistory), actions), later).table.tasks
  {
    var s := After(Initial(maxHistory), actions);
    InitialInv(maxHistory);
    RunKeepsInv(Initial(maxHistory), actions);
    assert CancelOk(s.table, s.cancels[call]);
    assert Settled(s.table, id, CANCELED);
    RunKeepsSettled(s, later, id, CANCELED);
  }

  /** The task has completed or failed, before the cutoff. */
  predicate OldEnough(t: Table, id: string, cutoff: int) {
    id in t.tasks && (t.tasks[id].state == COMPLETED || t.tasks[id].state == FAILED) && t.tasks[id].timestamp < cutoff
  }

  /** The only way out of the table is cleanup. */
  lemma OnlyCleanupRemoves(s: System, a: Action, id: string)
    requires Enabled(s, a) && id in s.table.tasks
    ensures id !in Step(s, a).table.tasks <==> a.CleanUp? && OldEnough(s.table, id, a.cutoff)
  {
  }

  /** A cancel of id that has passed its check and is not over. */
  predicate Pending(c: Cancel, id: string) {
    (c.Checking? || c.Updated?) && c.id == id
  }

  predicate Over(c: Cancel) {
    c.Returned? || c.Raised?
  }

  /** Some cleanup of the run removes id while the cancel is pending: the identifier is stale there, that
      is, completed or failed and older than the cutoff. */
  ghost predicate CleanedWhilePending(s: System, actions: seq<Action>, call: nat, id: string)
    requires IsRun(s, actions)
    decreases |actions|
  {
    && actions != []
    && (|| (actions[0].CleanUp? && OldEnough(s.table, id, actions[0].cutoff) && call in s.cancels && Pending(s.cancels[call], id))
        || CleanedWhilePending(Step(s, actions[0]), actions[1..], call, id))
  }

  /** What passing the check says. */
  lemma CheckedIsPresent(s: System, call: nat, stamp: int)
    requires call in s.cancels && s.cancels[call].Entered?
    ensures var id, s' := s.cancels[call].id, Step(s, ContinueCancel(call, stamp));
            && s'.table == s.table
            && (Pending(s'.cancels[call], id) <==> id in s.table.tasks && !Terminal(s.table.tasks[id].state))
            && (!Pending(s'.cancels[call], id) ==> Over(s'.cancels[call]))
  {
  }

  /** From the check to the end of a cancel, in every interleaving: it ends in a KeyError exactly when a
      cleanup in between removed its task, and otherwise it returns the task. */
  lemma KeyErrorExactly(s: System, actions: seq<Action>, call: nat, id: string)
    requires IsRun(s, actions) && s.table.tasks.Keys <= s.table.used
    requires call in s.cancels && Pending(s.cancels[call], id) && id in s.table.tasks
    requires call in After(s, actions).cancels && Over(After(s, actions).cancels[call])
    ensures var c := After(s, actions).cancels[call];
            && (c == Raised(KeyError(id)) <==> CleanedWhilePending(s, actions, call, id))
            && (c.Returned? <==> !CleanedWhilePending(s, actions, call, id))
  {
    PendingEnds(s, actions, call, id);
  }

  /** The same for a whole run: what happened before, the check of the cancel, what happened after. */
  lemma CancelEndsExactly(maxHistory: int, before: seq<Action>, call: nat, stamp: int, after: seq<Action>)
    requires IsRun(Initial(maxHistory), before)
    requires var s := After(Initial(maxHistory), before);
             && call in s.cancels && s.cancels[call].Entered?
             && var id, s' := s.cancels[call].id, Step(s, ContinueCancel(call, stamp));
             && Pending(s'.cancels[call], id) && IsRun(s', after)
             && call in After(s', after).cancels && Over(After(s', after).cancels[call])
    ensures var s := After(Initial(maxHistory), before);
            var id, s' := s.cancels[call].id, Step(s, ContinueCancel(call, stamp));
            var c := After(s', after).cancels[call];
            && (c == Raised(KeyError(id)) <==> CleanedWhilePending(s', after, call, id))
            && (c.Returned? <==> !CleanedWhilePending(s', after, call, id))
  {
    InitialInv(maxHistory);
    RunKeepsInv(Initial(maxHistory), before);
    var s := After(Initial(maxHistory), before);
    CheckedIsPresent(s, call, stamp);
    KeyErrorExactly(Step(s, ContinueCancel(call, stamp)), after, call, s.cancels[call].id);
  }

  lemma {:induction false} PendingEnds(s: System, actions: seq<Action>, call: nat, id: string)
    requires IsRun(s, actions) && id in s.table.used
    requires call in s.cancels && Pending(s.cancels[call], id)
    requires call in After(s, actions).cancels && Over(After(s, actions).cancels[call])
    ensures var c := After(s, actions).cancels[call];
            && (c == Raised(KeyError(id)) <==> id !in s.table.tasks || CleanedWhilePending(s, actions, call, id))
            && (c.Returned? <==> c != Raised(KeyError(id)))
    decreases |actions|
  {
    if actions != [] {
      var a, s' := actions[0], Step(s, actions[0]);
      UsedGrows(s, a);
      if id in s.table.tasks {
        OnlyCleanupRemoves(s, a, id);
      } else {
        StepKeepsSettled(s, a, id, FAILED);
      }
      if a.ContinueCancel? && a.call == call && s.cancels[call].Updated? {
        StaysOver(s', actions[1..], call, id);
      } else {
        PendingEnds(s', actions[1..], call, id);
      }
    }
  }

  lemma {:induction false} StaysOver(s: System, actions: seq<Action>, call: nat, id: string)
    requires IsRun(s, actions) && call in s.cancels && Over(s.cancels[call])
    ensures call in After(s, actions).cancels && After(s, actions).cancels[call] == s.cancels[call]
    ensures !CleanedWhilePending(s, actions, call, id)
    decreases |actions|
  {
    if actions != [] {
      StaysOver(Step(s, actions[0]), actions[1..], call, id);
    }
  }

  /** A state in which that is about to happen: task "t" has completed, and cancel 0 has checked it before. */
  ghost predicate AboutToLose(s: System) {
    && s.cancels == map[0 := Checking("t", None)]
    && s.table.tasks.Keys == {"t"} && s.table.tasks["t"].state == COMPLETED && s.table.tasks["t"].timestamp == 3
  }

  lemma LosesItsTask(s: System)
    requires AboutToLose(s)
    ensures var actions := [CleanUp(4), ContinueCancel(0, 5), ContinueCancel(0, 6)];
            IsRun(s, actions) && After(s, actions).cancels == map[0 := Raised(KeyError("t"))]
  {
    var actions := [CleanUp(4), ContinueCancel(0, 5), ContinueCancel(0, 6)];
    assert Stale(s.table, 4) == {"t"};
    var s1 := Step(s, actions[0]);
    assert s1.table.tasks == map[] && s1.cancels == s.cancels;
    var s2 := Step(s1, actions[1]);
    assert s2.cancels == map[0 := Updated("t")] && s2.table.tasks == map[];
    var s3 := Step(s2, actions[2]);
    assert s3.cancels == map[0 := Raised(KeyError("t"))];
    Unroll(s2, actions[2..]);
    Unroll(s1, actions[1..]);
    Unroll(s, actions);
  }

  /** Such a state is reachable. */
  lemma CancelCanLoseItsTask(maxHistory: int, m: Message)
    ensures var actions := [
              CreateTask("t", "c", m, 0, 10), EnterCancel(0, "t", None), ContinueCancel(0, 1),
              UpdateStatus("t", WORKING, None, 2), UpdateStatus("t", COMPLETED, None, 3)];
            IsRun(Initial(maxHistory), actions) && AboutToLose(After(Initial(maxHistory), actions))
  {
    var actions := [
      CreateTask("t", "c", m, 0, 10), EnterCancel(0, "t", None), ContinueCancel(0, 1),
      UpdateStatus("t", WORKING, None, 2), UpdateStatus("t", COMPLETED, None, 3)];
    var s1 := Step(Initial(maxHistory), actions[0]);
    var s2 := Step(s1, actions[1]);
    var s3 := Step(s2, actions[2]);
    assert s3.cancels == map[0 := Checking("t", None)] && s3.table.tasks.Keys == {"t"};
    var s4 := Step(s3, actions[3]);
    assert s4.table.tasks.Keys == {"t"} && s4.table.tasks["t"].state == WORKING;
    var s5 := Step(s4, actions[4]);
    assert AboutToLose(s5);
    Unroll(s4, actions[4..]);
    Unroll(s3, actions[3..]);
    Unroll(s2, actions[2..]);
    Unroll(s1, actions[1..]);
    Unroll(Initial(maxHistory), actions);
  }

  lemma Unroll(s: System, actions: seq<Action>)
    requires actions != [] && Enabled(s, actions[0]) && IsRun(Step(s, actions[0]), actions[1..])
    ensures IsRun(s, actions) && After(s, actions) == After(Step(s, actions[0]), actions[1..])
  {
  }
}
