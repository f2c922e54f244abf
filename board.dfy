/**
 * The board page's single `tasks` state cell and the handlers that rewrite
 * it. Each handler is one atomic step; the confirmation dialog and the
 * outcome of each network call are parameters.
 */
module BoardView {
  import opened Wrappers
  import opened Lists
  import opened JsString
  import opened BoardTasks

  /** The body of the status update a cross-column drop sends. */
  datatype StatusUpdate = StatusUpdate(id: string, status: string)

  /** The body of the create request. */
  datatype NewTask = NewTask(title: string, status: string, priority: string, dueDate: Option<int>, position: int)

  /** The body of the subtask create request. */
  datatype NewSubtask = NewSubtask(title: string, taskId: string)

  /** The task shown while a create is in flight: a temporary id and no position. */
  function TemporaryTask(tempId: string, title: string, column: string, priority: string, dueDate: Option<int>,
                         userId: string): (t: Task)
    ensures t.id == tempId && t.position.None? && t.subtasks == []
    ensures t.status == Some(column) && t.priority == Some(priority) && t.dueDate == dueDate
  {
    Task(tempId, title, None, Some(column), Some(priority), dueDate, None, Some(userId), [], None, None)
  }

  class Board {
    var tasks: seq<Task>

    constructor ()
      ensures tasks == []
    {
      tasks := [];
    }

    /** `fetchTasks`: replace the list by the sorted server list, or keep it on failure. */
    method FetchTasks(f: Fetch)
      modifies this
      ensures tasks == Reload(old(tasks), f)
    {
      match f
      case FetchFailed =>
      case Fetched(data) =>
        tasks := SortTasks(data.GetOr([]));
    }

    /**
     * `handleDragEnd`: a drop that moves the task to another column sets its
     * status, re-sorts and sends `{id, status}`; if that request fails the list
     * is reloaded. Every other drop changes nothing and sends nothing.
     */
    method DragEnd(activeId: string, overId: Option<string>, persisted: bool, reload: Fetch)
      returns (sent: Option<StatusUpdate>)
      modifies this
      ensures DropMove(old(tasks), activeId, overId).None? ==> tasks == old(tasks) && sent.None?
      ensures DropMove(old(tasks), activeId, overId).Some? ==>
        var status := DropMove(old(tasks), activeId, overId).value;
        var moved := SortTasks(MoveTask(old(tasks), activeId, status));
        && sent == Some(StatusUpdate(activeId, status))
        && tasks == (if persisted then moved else Reload(moved, reload))
    {
      sent := None;
      if overId.None? || overId.value == activeId {
        return;
      }
      var active := Find(tasks, activeId);
      var target := DropTarget(tasks, overId.value);
      if active.None? || target.None? {
        return;
      }
      if active.value.status != target {
        tasks := SortTasks(MoveTask(tasks, activeId, target.value));
        sent := Some(StatusUpdate(activeId, target.value));
        if !persisted {
          FetchTasks(reload);
        }
      }
    }

    /**
     * `handleCreateTask`: a blank title does nothing. Otherwise a temporary
     * task joins the list, which is re-sorted, and the create request carries
     * the old list length as the position. Success reloads the list; failure
     * removes the temporary task again.
     */
    method CreateTask(title: string, column: string, priority: string, dueField: string, day: string -> int,
                      userId: string, tempId: string, created: bool, reload: Fetch)
      returns (sent: Option<NewTask>)
      modifies this
      ensures Trim(title) == [] ==> tasks == old(tasks) && sent.None?
      ensures Trim(title) != [] ==>
        var due := FormDate(dueField, day);
        var shown := SortTasks(old(tasks) + [TemporaryTask(tempId, title, column, priority, due, userId)]);
        && sent == Some(NewTask(title, column, priority, due, |old(tasks)|))
        && tasks == (if created then Reload(shown, reload) else WithoutId(shown, tempId))
      ensures Trim(title) != [] && !created && (forall t :: t in old(tasks) ==> t.id != tempId) ==>
        tasks == SortTasks(old(tasks))
    {
      sent := None;
      if Trim(title) == [] {
        return;
      }
      var due := FormDate(dueField, day);
      var temp := TemporaryTask(tempId, title, column, priority, due, userId);
      ghost var before := tasks;
      sent := Some(NewTask(title, column, priority, due, |tasks|));
      tasks := SortTasks(tasks + [temp]);
      if created {
        FetchTasks(reload);
      } else {
        tasks := WithoutId(tasks, tempId);
        if forall t :: t in before ==> t.id != tempId {
          SortedInsertRollback(before, temp);
        }
      }
    }

    /**
     * `handleUpdateTaskDetails`: without a task being edited nothing happens.
     * Otherwise the edit is applied to the task with that id, the list is
     * re-sorted and the edit is sent; a failed request reloads the list.
     */
    method UpdateTaskDetails(editing: Option<string>, title: string, description: string, priority: string,
                             status: string, dueField: string, day: string -> int, persisted: bool, reload: Fetch)
      returns (sent: Option<TaskEdit>)
      modifies this
      ensures editing.None? ==> tasks == old(tasks) && sent.None?
      ensures editing.Some? ==>
        var e := TaskEdit(editing.value, title, description, status, priority, FormDate(dueField, day));
        var edited := SortTasks(ApplyEdit(old(tasks), e));
        && sent == Some(e)
        && tasks == (if persisted then edited else Reload(edited, reload))
    {
      sent := None;
      if editing.None? {
        return;
      }
      var e := TaskEdit(editing.value, title, description, status, priority, FormDate(dueField, day));
      tasks := SortTasks(ApplyEdit(tasks, e));
      sent := Some(e);
      if !persisted {
        FetchTasks(reload);
      }
    }

    /**
     * `handleDeleteTask`: once confirmed, the tasks with that id leave the
     * list and the delete request for that id is sent; if it fails the
     * earlier list comes back. Without confirmation nothing is sent.
     */
    method DeleteTask(taskId: string, confirmed: bool, persisted: bool) returns (sent: Option<string>)
      modifies this
      ensures sent.Some? <==> confirmed
      ensures sent.Some? ==> sent.value == taskId
      ensures !confirmed || !persisted ==> tasks == old(tasks)
      ensures confirmed && persisted ==> tasks == WithoutId(old(tasks), taskId)
    {
      sent := None;
      if !confirmed {
        return;
      }
      var previous := tasks;
      tasks := WithoutId(tasks, taskId);
      sent := Some(taskId);
      if !persisted {
        tasks := previous;
      }
    }

    /**
     * `handleClearColumn`: only the Done column can be cleared. Once
     * confirmed, the Done tasks leave the list and the delete-by-status
     * request for Done is sent; if it fails the earlier list comes back.
     * Another column, or no confirmation, sends nothing.
     */
    method ClearColumn(columnId: string, confirmed: bool, persisted: bool) returns (sent: Option<string>)
      modifies this
      ensures sent.Some? <==> columnId == "Done" && confirmed
      ensures sent.Some? ==> sent.value == "Done"
      ensures columnId != "Done" || !confirmed || !persisted ==> tasks == old(tasks)
      ensures columnId == "Done" && confirmed && persisted ==> tasks == WithoutStatus(old(tasks), "Done")
    {
      sent := None;
      if columnId != "Done" {
        return;
      }
      if !confirmed {
        return;
      }
      var previous := tasks;
      tasks := WithoutStatus(tasks, "Done");
      sent := Some("Done");
      if !persisted {
        tasks := previous;
      }
    }

    /**
     * The checkbox of a subtask: the subtask with that id in the edited task
     * gets the new completion flag and the update is sent. There is no
     * rollback. Without the edited task the handler stops before any change.
     */
    method ToggleSubtask(editingId: string, sub: Subtask, checked: bool) returns (sent: Option<Subtask>)
      modifies this
      ensures Find(old(tasks), editingId).None? ==> tasks == old(tasks) && sent.None?
      ensures Find(old(tasks), editingId).Some? ==>
        var parent := Find(old(tasks), editingId).value;
        var updated := sub.(isCompleted := checked);
        && sent == Some(updated)
        && tasks == WithSubtasks(old(tasks), editingId, ReplaceSubtask(parent.subtasks, sub.id, updated))
    {
      sent := None;
      var parent := Find(tasks, editingId);
      if parent.None? {
        return;
      }
      var updated := sub.(isCompleted := checked);
      tasks := WithSubtasks(tasks, editingId, ReplaceSubtask(parent.value.subtasks, sub.id, updated));
      sent := Some(updated);
    }

    /**
     * The delete button of a subtask: once confirmed, the subtask leaves the
     * edited task and its id is sent. There is no rollback.
     */
    method RemoveSubtask(editingId: string, subId: string, confirmed: bool) returns (sent: Option<string>)
      modifies this
      ensures !confirmed || Find(old(tasks), editingId).None? ==> tasks == old(tasks) && sent.None?
      ensures confirmed && Find(old(tasks), editingId).Some? ==>
        var parent := Find(old(tasks), editingId).value;
        && sent == Some(subId)
        && tasks == WithSubtasks(old(tasks), editingId, WithoutSubtask(parent.subtasks, subId))
    {
      sent := None;
      if !confirmed {
        return;
      }
      var parent := Find(tasks, editingId);
      if parent.None? {
        return;
      }
      tasks := WithSubtasks(tasks, editingId, WithoutSubtask(parent.value.subtasks, subId));
      sent := Some(subId);
    }

    /**
     * Adding a subtask: a blank title does nothing. Otherwise a temporary
     * subtask is appended to the edited task and the create request is sent;
     * the created subtask then replaces the temporary one. A failed request
     * leaves the temporary subtask in place.
     */
    method AddSubtask(editingId: string, title: string, tempId: string, created: Option<Subtask>)
      returns (sent: Option<NewSubtask>)
      modifies this
      ensures Trim(title) == [] || Find(old(tasks), editingId).None? ==> tasks == old(tasks) && sent.None?
      ensures Trim(title) != [] && Find(old(tasks), editingId).Some? ==>
        var parent := Find(old(tasks), editingId).value;
        var added := WithSubtasks(old(tasks), editingId, parent.subtasks + [Subtask(tempId, editingId, title, false)]);
        && sent == Some(NewSubtask(title, editingId))
        && tasks == (if created.Some? then SwapSubtask(added, editingId, tempId, created.value) else added)
    {
      sent := None;
      if Trim(title) == [] {
        return;
      }
      var parent := Find(tasks, editingId);
      if parent.None? {
        return;
      }
      var temp := Subtask(tempId, editingId, title, false);
      tasks := WithSubtasks(tasks, editingId, parent.value.subtasks + [temp]);
      sent := Some(NewSubtask(title, editingId));
      if created.Some? {
        tasks := SwapSubtask(tasks, editingId, tempId, created.value);
      }
    }
  }

  /**
   * After a successful subtask create, the edited task holds its old subtasks
   * followed by the created one, when its subtask ids are distinct from the
   * temporary id.
   */
  lemma AddSubtaskResult(tasks: seq<Task>, editingId: string, title: string, tempId: string, created: Subtask, i: int)
    requires Find(tasks, editingId).Some?
    requires 0 <= i < |tasks| && tasks[i].id == editingId
    requires forall s :: s in Find(tasks, editingId).value.subtasks ==> s.id != tempId
    ensures var parent := Find(tasks, editingId).value;
      var added := WithSubtasks(tasks, editingId, parent.subtasks + [Subtask(tempId, editingId, title, false)]);
      SwapSubtask(added, editingId, tempId, created)[i].subtasks == parent.subtasks + [created]
  {
    var parent := Find(tasks, editingId).value;
    AppendThenReplace(parent.subtasks, Subtask(tempId, editingId, title, false), created);
  }
}
