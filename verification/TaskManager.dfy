/** The task manager as the source writes it (src/praxis_sdk/a2a/task_manager.py): an object whose
    dictionaries and statistics are updated in place. Each method is one or more lock-held regions,
    proved against Tasks; events, logging and the lock itself are not part of this model. */
module TaskManagers {
  import opened Wrappers
  import opened Tasks
  import opened TaskLaws

  class TaskManager {
    const defaultTimeout: int
    const maxHistorySize: int
    var tasks: map<string, Task>
    var taskTimeouts: map<string, int>
    var stats: Stats
    /** Every identifier handed out so far. */
    ghost var used: set<string>

    ghost function View(): Table
      reads this
    {
      Table(tasks, taskTimeouts, stats, used)
    }

    ghost predicate Valid()
      reads this
    {
      Conserved(View())
    }

    constructor (defaultTimeout: int := 300, maxHistorySize: int := 1000)
      ensures Valid() && View() == EMPTY_TABLE
      ensures this.defaultTimeout == defaultTimeout && this.maxHistorySize == maxHistorySize
    {
      this.defaultTimeout, this.maxHistorySize := defaultTimeout, maxHistorySize;
      tasks, taskTimeouts, stats, used := map[], map[], Stats(0, 0, 0, 0, 0, 0, 0), {};
      new;
      assert OpenTasks(View()) == {};
    }

    /** newId and contextId are the random identifiers the source draws; a timeout of None or 0 means the
        default. */
    method CreateTask(newId: string, message: Message, contextId: string, timeout: Option<int>, now: int, stamp: int) returns (task: Task)
      requires Valid() && newId !in used
      modifies this
      ensures Valid()
      ensures var deadline := now + if timeout.Some? && timeout.value != 0 then timeout.value else defaultTimeout;
              View() == Create(old(View()), newId, contextId, message, stamp, deadline)
      ensures task == Task(contextId, SUBMITTED, stamp, None, [Message(message.text, Some(newId), Some(contextId))], [])
      ensures tasks == old(tasks)[newId := task] && stats == old(stats).(created := old(stats).created + 1)
    {
      var taskTimeout := if timeout.Some? && timeout.value != 0 then timeout.value else defaultTimeout;
      CreateConserves(View(), newId, contextId, message, stamp, now + taskTimeout);
      task := Task(contextId, SUBMITTED, stamp, None, [Addressed(message, newId, contextId)], []);
      taskTimeouts := taskTimeouts[newId := now + taskTimeout];
      tasks := tasks[newId := task];
      stats := stats.(created := stats.created + 1);
      used := used + {newId};
    }

    method UpdateTaskStatus(id: string, newState: TaskState, agentMessage: Option<Message>, stamp: int) returns (ok: bool)
      requires Valid()
      modifies this
      ensures Valid() && (ok, View()) == Update(old(View()), id, newState, agentMessage, stamp)
      ensures ok <==> id in old(tasks) && MayBecome(old(tasks)[id].state, newState)
      ensures !ok ==> View() == old(View())
      ensures ok ==> tasks[id].state == newState && taskTimeouts == old(taskTimeouts)
    {
      UpdateExactly(View(), id, newState, agentMessage, stamp);
      UpdateConserves(View(), id, newState, agentMessage, stamp);
      if id !in tasks {
        return false;
      }
      var task := tasks[id];
      if !ValidTransition(task.state, newState) {
        return false;
      }
      task := task.(state := newState, timestamp := stamp);
      if agentMessage.Some? {
        var sent := agentMessage.value.(taskId := Some(id), contextId := Some(task.contextId));
        task := task.(statusMessage := Some(sent), history := task.history + [sent]);
      }
      tasks := tasks[id := task];
      if newState == COMPLETED {
        stats := stats.(completed := stats.completed + 1);
      } else if newState == FAILED {
        stats := stats.(failed := stats.failed + 1);
      } else if newState == CANCELED {
        stats := stats.(cancelled := stats.cancelled + 1);
      }
      ok := true;
    }

    /** The check of cancel_task: the first lock-held region. */
    method CheckCancel(id: string) returns (checked: Checked)
      ensures checked == CancelCheck(View(), id)
    {
      if id !in tasks {
        return Refused(TaskNotFound);
      }
      if Terminal(tasks[id].state) {
        return Refused(TaskNotCancelable(tasks[id].state));
      }
      checked := Cancelable(tasks[id].contextId);
    }

    /** The end of cancel_task: the last lock-held region. None is the KeyError of a task that is gone. */
    method FinishCancel(id: string) returns (task: Option<Task>)
      requires Valid()
      modifies this
      ensures Valid() && (task, View()) == CancelFinish(old(View()), id)
    {
      CancelFinishConserves(View(), id);
      taskTimeouts := taskTimeouts - {id};
      task := if id in tasks then Some(tasks[id]) else None;
    }

    /** cancel_task when nothing happens between its regions; TaskRuns has every interleaving. It raises
        exactly when the task is missing or terminal, and otherwise returns it canceled, untracked, and
        with everything else as it was. */
    method CancelTask(id: string, reason: Option<string>, stamp: int) returns (result: Option<Task>, error: Option<CancelError>)
      requires Valid()
      modifies this
      ensures Valid()
      ensures error ==
        if id !in old(tasks) then Some(TaskNotFound)
        else
          match old(tasks)[id].state
          case COMPLETED => Some(TaskNotCancelable(COMPLETED))
          case FAILED => Some(TaskNotCancelable(FAILED))
          case CANCELED => Some(TaskNotCancelable(CANCELED))
          case REJECTED => Some(TaskNotCancelable(REJECTED))
          case _ => None
      ensures error.Some? ==> result.None? && View() == old(View())
      ensures error.None? ==>
        && id in tasks && result == Some(tasks[id]) && tasks[id].state == CANCELED
        && tasks.Keys == old(tasks).Keys && (forall k :: k in tasks && k != id ==> tasks[k] == old(tasks)[k])
        && taskTimeouts == old(taskTimeouts) - {id}
        && stats == old(stats).(cancelled := old(stats).cancelled + 1)
        && tasks[id].statusMessage ==
             if reason.Some? && reason.value != "" then Some(Message(reason.value, Some(id), Some(tasks[id].contextId)))
             else old(tasks)[id].statusMessage
    {
      result := None;
      var checked := CheckCancel(id);
      if checked.Refused? {
        return None, Some(checked.error);
      }
      var updated := UpdateTaskStatus(id, CANCELED, CancelMessage(id, checked.contextId, reason), stamp);
      result := FinishCancel(id);
      error := None;
    }

    method AddMessageToHistory(id: string, message: Message) returns (ok: bool)
      requires Valid()
      modifies this
      ensures Valid() && (ok, View()) == AddMessage(old(View()), id, message, maxHistorySize)
      ensures ok <==> id in old(tasks)
    {
      AddMessageConserves(View(), id, message, maxHistorySize);
      if id !in tasks {
        return false;
      }
      var task := tasks[id];
      task := task.(history := task.history + [Addressed(message, id, task.contextId)]);
      if |task.history| > maxHistorySize {
        task := task.(history := LastItems(task.history, maxHistorySize));
      }
      tasks := tasks[id := task];
      ok := true;
    }

    method AddArtifactTo(id: string, artifact: string) returns (ok: bool)
      requires Valid()
      modifies this
      ensures Valid() && (ok, View()) == AddArtifact(old(View()), id, artifact)
      ensures ok <==> id in old(tasks)
      ensures ok ==> tasks[id].artifacts == old(tasks)[id].artifacts + [artifact] && stats.artifacts == old(stats).artifacts + 1
    {
      AddArtifactConserves(View(), id, artifact);
      if id !in tasks {
        return false;
      }
      tasks := tasks[id := tasks[id].(artifacts := tasks[id].artifacts + [artifact])];
      stats := stats.(artifacts := stats.artifacts + 1);
      ok := true;
    }

    /** Two passes, as in the source: collect, then remove. */
    method CleanupCompletedTasks(cutoff: int) returns (count: nat)
      requires Valid()
      modifies this
      ensures Valid() && (count, View()) == Cleanup(old(View()), cutoff)
      ensures forall k :: k in tasks <==>
        k in old(tasks) && !((old(tasks)[k].state == COMPLETED || old(tasks)[k].state == FAILED) && old(tasks)[k].timestamp < cutoff)
    {
      CleanupConserves(View(), cutoff);
      var toRemove := CollectStale(cutoff);
      count := |toRemove|;
      RemoveAll(toRemove);
      if count > 0 {
        stats := stats.(cleanupRuns := stats.cleanupRuns + 1);
      }
    }

    method RemoveAll(toRemove: set<string>)
      modifies this`tasks, this`taskTimeouts
      ensures tasks == old(tasks) - toRemove && taskTimeouts == old(taskTimeouts) - toRemove
    {
      var left := toRemove;
      while left != {}
        invariant left <= toRemove
        invariant tasks == old(tasks) - (toRemove - left) && taskTimeouts == old(taskTimeouts) - (toRemove - left)
      {
        var id :| id in left;
        assert toRemove - (left - {id}) == (toRemove - left) + {id};
        tasks := tasks - {id};
        taskTimeouts := taskTimeouts - {id};
        left := left - {id};
      }
      assert toRemove - left == toRemove;
    }

    method CollectStale(cutoff: int) returns (toRemove: set<string>)
      ensures toRemove == Stale(View(), cutoff)
    {
      toRemove := {};
      var left := tasks.Keys;
      while left != {}
        invariant left <= tasks.Keys
        invariant toRemove == Stale(View(), cutoff) - left
      {
        var id :| id in left;
        if tasks[id].state == COMPLETED || tasks[id].state == FAILED {
          if tasks[id].timestamp < cutoff {
            toRemove := toRemove + {id};
          }
        }
        left := left - {id};
      }
    }

    /** The sweep that check_timeouts is written for: every overdue task is failed by update_task_status
        and its timeout forgotten, one after the other, in any order. */
    method CheckTimeouts(now: int, stamp: int) returns (count: nat)
      requires Valid()
      modifies this
      ensures Valid() && (count, View()) == Sweep(old(View()), now, stamp)
      ensures tasks.Keys == old(tasks).Keys
      ensures forall k :: k in tasks ==>
        if k in old(taskTimeouts) && TimeIsUp(old(tasks)[k], old(taskTimeouts)[k], now)
        then tasks[k].state == FAILED && k !in taskTimeouts
        else tasks[k] == old(tasks)[k]
    {
      var timedOut := CollectOverdue(now);
      count := |timedOut|;
      ghost var swept := Sweep(View(), now, stamp).1;
      while timedOut != {}
        invariant Valid() && timedOut == Overdue(View(), now)
        invariant Sweep(View(), now, stamp).1 == swept
        decreases timedOut
      {
        var id :| id in timedOut;
        SweepOne(View(), now, stamp, id);
        FailOverdue(id, now, stamp);
        timedOut := timedOut - {id};
      }
      NothingOverdue(View(), now, stamp);
    }

    /** One round of the sweep. */
    method FailOverdue(id: string, now: int, stamp: int)
      requires Valid() && id in Overdue(View(), now)
      modifies this
      ensures Valid()
      ensures View() == Forgotten(Update(old(View()), id, FAILED, Some(TIMED_OUT), stamp).1, id)
    {
      ghost var before := View();
      var ok := UpdateTaskStatus(id, FAILED, Some(TIMED_OUT), stamp);
      ghost var updated := View();
      taskTimeouts := taskTimeouts - {id};
      stats := stats.(timeout := stats.timeout + 1);
      assert OpenTasks(View()) == OpenTasks(updated);
      assert updated.stats.failed == before.stats.failed + 1 && updated.stats.timeout == before.stats.timeout;
    }

    method CollectOverdue(now: int) returns (timedOut: set<string>)
      ensures timedOut == Overdue(View(), now)
    {
      timedOut := {};
      var left := taskTimeouts.Keys;
      while left != {}
        invariant left <= taskTimeouts.Keys
        invariant timedOut == Overdue(View(), now) - left
      {
        var id :| id in left;
        if now > taskTimeouts[id] {
          if id in tasks && (tasks[id].state == SUBMITTED || tasks[id].state == WORKING) {
            timedOut := timedOut + {id};
          }
        }
        left := left - {id};
      }
    }
  }

  lemma NothingOverdue(t: Table, now: int, stamp: int)
    requires Overdue(t, now) == {}
    ensures Sweep(t, now, stamp).1 == t
  {
    assert Sweep(t, now, stamp).1.tasks == t.tasks;
  }
}
