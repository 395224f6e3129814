/** The board component of src/App.jsx as a stateful object: its column,
    task and notification lists, and the handlers that replace them. Fresh
    ids (uuid) and the creation time are passed in; the date arithmetic of
    the reminder check is given as oracles. */
module BoardState {
  import opened Optional
  import opened Seqs
  import opened Kanban
  import opened BoardRules
  import opened Reminders

  function OtherToast(id: string): Toast -> bool { (t: Toast) => t.id != id }

  /** The notifications after `removeToast(id)` (or the expiry timer of the
      toast with that id): every toast with the id is gone, every other one
      is kept, in order. */
  function WithoutToast(toasts: seq<Toast>, id: string): (r: seq<Toast>)
    ensures forall k :: 0 <= k < |r| ==> r[k].id != id && r[k] in toasts
    ensures forall k :: 0 <= k < |toasts| && toasts[k].id != id ==> toasts[k] in r
    ensures IsSubseq(r, toasts)
  {
    FilterIsSubseq(toasts, OtherToast(id));
    Filter(toasts, OtherToast(id))
  }

  /** Removing a toast under a fresh id undoes adding it. */
  lemma RemoveUndoesAdd(toasts: seq<Toast>, t: Toast)
    requires forall k :: 0 <= k < |toasts| ==> toasts[k].id != t.id
    ensures WithoutToast(toasts + [t], t.id) == toasts
  {
    FilterSnoc(toasts, t, OtherToast(t.id));
    FilterKeepsAll(toasts, OtherToast(t.id));
  }

  /** The notification for a saved task. */
  function SavedMessage(title: string, editing: bool): string {
    "\"" + title + "\" has been " + (if editing then "updated" else "added")
  }

  /** A parsed import file: the text was not valid JSON (or not an object),
      or an object whose `columns` and `tasks` members may each be absent. */
  datatype ImportFile = Unreadable | ImportData(columns: Option<seq<Column>>, tasks: Option<seq<Task>>)

  class Board {
    var columns: seq<Column>
    var tasks: seq<Task>
    var toasts: seq<Toast>

    /** The board as loaded: the stored (or default) lists, no
        notifications. */
    constructor (columns: seq<Column>, tasks: seq<Task>)
      ensures this.columns == columns && this.tasks == tasks && toasts == []
    {
      this.columns := columns;
      this.tasks := tasks;
      toasts := [];
    }

    /** `addToast`: the toast is appended under the fresh id `id`. */
    method AddToast(kind: string, title: string, message: string, taskId: Option<string>, id: string)
      modifies this
      ensures toasts == old(toasts) + [Toast(id, kind, title, message, taskId)]
      ensures columns == old(columns) && tasks == old(tasks)
    {
      toasts := toasts + [Toast(id, kind, title, message, taskId)];
    }

    /** `removeToast`: the toasts with the id are dropped. */
    method RemoveToast(id: string)
      modifies this
      ensures toasts == WithoutToast(old(toasts), id)
      ensures columns == old(columns) && tasks == old(tasks)
    {
      toasts := Filter(toasts, OtherToast(id));
    }

    /** `handleDragEnd`: the dragged task moves to the column the drop
        resolves to, when that is an existing column other than its own. */
    method DragEnd(activeId: string, over: Option<string>)
      modifies this
      ensures tasks == AfterDrop(old(tasks), old(columns), activeId, over)
      ensures columns == old(columns) && toasts == old(toasts)
      ensures References(old(tasks), columns) ==> References(tasks, columns)
    {
      if over.None? {
        return;
      }
      var activeTask := Find(tasks, HasId(activeId));
      if activeTask.None? {
        return;
      }
      var newColumnId := over.value;
      var overTask := Find(tasks, HasId(over.value));
      if overTask.Some? {
        newColumnId := overTask.value.columnId;
      }
      if !IsColumnId(columns, newColumnId) {
        return;
      }
      if activeTask.value.columnId != newColumnId {
        tasks := MapWhere(tasks, HasId(activeId), MoveTo(newColumnId));
      }
    }

    /** `handleSaveTask`: the edited task takes the submitted fields, or a
        new task is appended to `selectedColumn`; a success toast names the
        title. */
    method SaveTask(data: TaskData, editingId: Option<string>, selectedColumn: string,
                    newId: string, createdAt: string, toastId: string)
      modifies this
      ensures tasks == AfterSaveTask(old(tasks), data, editingId, selectedColumn, newId, createdAt)
      ensures columns == old(columns)
      ensures toasts == old(toasts) + [Toast(toastId, SuccessKind, if editingId.Some? then "Task Updated" else "Task Created",
                                             SavedMessage(data.title, editingId.Some?), None)]
      ensures References(old(tasks), columns) && (editingId.None? ==> IsColumnId(columns, selectedColumn)) ==>
                References(tasks, columns)
    {
      if editingId.Some? {
        tasks := MapWhere(tasks, HasId(editingId.value), Merge(data));
        AddToast(SuccessKind, "Task Updated", SavedMessage(data.title, true), None, toastId);
      } else {
        var newTask := Task(newId, data.title, data.description, selectedColumn, data.priority,
                            data.dueDate, data.tags, data.subtasks, createdAt);
        tasks := tasks + [newTask];
        AddToast(SuccessKind, "Task Created", SavedMessage(data.title, false), None, toastId);
      }
    }

    /** `handleDeleteTask`: the task is removed and a toast quotes its title
        (`undefined` when no task had the id). */
    method DeleteTask(taskId: string, toastId: string)
      modifies this
      ensures tasks == AfterDeleteTask(old(tasks), taskId)
      ensures columns == old(columns)
      ensures toasts == old(toasts) + [Toast(toastId, SuccessKind, "Task Deleted",
                                             "\"" + DeletedTitle(old(tasks), taskId) + "\" has been removed", None)]
      ensures References(old(tasks), columns) ==> References(tasks, columns)
    {
      var title := DeletedTitle(tasks, taskId);
      tasks := Filter(tasks, LacksId(taskId));
      AddToast(SuccessKind, "Task Deleted", "\"" + title + "\" has been removed", None, toastId);
    }

    /** `handleSaveColumn`: the edited column takes the new title and colour,
        or a column with the fresh id `newId` is appended. */
    method SaveColumn(data: ColumnData, editingId: Option<string>, newId: string)
      modifies this
      ensures columns == AfterSaveColumn(old(columns), data, editingId, newId)
      ensures tasks == old(tasks) && toasts == old(toasts)
      ensures old(WellFormedColumns(columns)) && (editingId.None? ==> newId != "" && !IsColumnId(old(columns), newId)) ==>
                WellFormedColumns(columns)
      ensures old(References(tasks, columns)) ==> References(tasks, columns)
    {
      if References(tasks, columns) {
        SaveColumnKeepsReferences(tasks, columns, data, editingId, newId);
      }
      if WellFormedColumns(columns) && (editingId.None? ==> newId != "" && !IsColumnId(columns, newId)) {
        SaveColumnKeepsWellFormed(columns, data, editingId, newId);
      }
      if editingId.Some? {
        columns := MapWhere(columns, IsColumn(editingId.value), MergeColumn(data));
      } else {
        columns := columns + [Column(newId, data.title, data.color)];
      }
    }

    /** `handleDeleteColumn`: the column's tasks move to the fallback column,
        the column is removed, and a toast says so. */
    method DeleteColumn(columnId: string, toastId: string)
      modifies this
      ensures tasks == ReassignedTasks(old(tasks), old(columns), columnId)
      ensures columns == RemainingColumns(old(columns), columnId)
      ensures toasts == old(toasts) + [Toast(toastId, SuccessKind, "Column Deleted", "Tasks moved to first column", None)]
      ensures old(|columns| >= 2 && WellFormedColumns(columns) && References(tasks, columns)) ==>
                WellFormedColumns(columns) && References(tasks, columns)
    {
      if |columns| >= 2 && WellFormedColumns(columns) && References(tasks, columns) {
        DeleteColumnKeepsReferences(tasks, columns, columnId);
        DeleteColumnKeepsWellFormed(columns, columnId);
      }
      var fallbackColumn := Fallback(columns, columnId);
      tasks := MapWhere(tasks, InColumn(columnId), MoveTo(fallbackColumn));
      columns := Filter(columns, IsOtherColumn(columnId));
      AddToast(SuccessKind, "Column Deleted", "Tasks moved to first column", None, toastId);
    }

    /** `handleMoveColumn`: unless the new position is outside the list, the
        column is spliced out of a copy of the list and spliced back in at
        its new position. */
    method MoveColumn(columnId: string, direction: string)
      modifies this
      ensures columns == MovedColumns(old(columns), columnId, direction)
      ensures tasks == old(tasks) && toasts == old(toasts)
      ensures old(References(tasks, columns)) ==> References(tasks, columns)
      ensures old(WellFormedColumns(columns)) ==> WellFormedColumns(columns)
    {
      var index := FindIndex(columns, IsColumn(columnId));
      var newIndex := NewIndex(index, direction);
      if newIndex < 0 || newIndex >= |columns| {
        return;
      }
      var newColumns := columns;
      var start := SpliceStart(|newColumns|, index);
      var removed := newColumns[start];
      newColumns := newColumns[..start] + newColumns[start + 1..];
      newColumns := newColumns[..newIndex] + [removed] + newColumns[newIndex..];
      assert newColumns == MovedColumns(columns, columnId, direction);
      if References(tasks, columns) {
        MoveColumnKeepsReferences(tasks, columns, columnId, direction);
      }
      if WellFormedColumns(columns) {
        MoveColumnKeepsWellFormed(columns, columnId, direction);
      }
      columns := newColumns;
    }

    /** `handleImport` once the file has been read: the `columns` and
        `tasks` of the file each replace the board's when present; an
        unreadable file changes nothing but the error toast. */
    method Import(file: ImportFile, toastId: string)
      modifies this
      ensures file.Unreadable? ==> columns == old(columns) && tasks == old(tasks)
      ensures file.Unreadable? ==> toasts == old(toasts) + [Toast(toastId, ErrorKind, "Import Failed", "Invalid file format", None)]
      ensures file.ImportData? ==> columns == (if file.columns.Some? then file.columns.value else old(columns))
      ensures file.ImportData? ==> tasks == (if file.tasks.Some? then file.tasks.value else old(tasks))
      ensures file.ImportData? ==> toasts == old(toasts) + [Toast(toastId, SuccessKind, "Imported!", "Your board has been restored", None)]
    {
      match file
      case Unreadable =>
        AddToast(ErrorKind, "Import Failed", "Invalid file format", None, toastId);
      case ImportData(newColumns, newTasks) =>
        if newColumns.Some? {
          columns := newColumns.value;
        }
        if newTasks.Some? {
          tasks := newTasks.value;
        }
        AddToast(SuccessKind, "Imported!", "Your board has been restored", None, toastId);
    }

    /** One run of `checkReminders`: for each task in order, a reminder (a
        toast of type `warning`) is added when the task is due soon and the
        toasts as they were when the run started hold no toast of type
        `reminder` about it. `freshIds[i]` is the id a reminder for the
        `i`-th task gets. */
    method CheckReminders(hoursUntilDue: string -> Option<int>, dueToday: string -> bool, freshIds: seq<string>)
      requires |freshIds| == |tasks|
      modifies this
      ensures columns == old(columns) && tasks == old(tasks)
      ensures toasts == old(toasts) + NewReminders(tasks, old(toasts), hoursUntilDue, dueToday, freshIds, LookupKindAsWritten)
    {
      var snapshot := toasts;
      var i := 0;
      while i < |tasks|
        invariant 0 <= i <= |tasks| == |freshIds|
        invariant toasts == snapshot + NewReminders(tasks[..i], snapshot, hoursUntilDue, dueToday, freshIds[..i], LookupKindAsWritten)
        invariant columns == old(columns) && tasks == old(tasks)
      {
        var task := tasks[i];
        NewRemindersStep(tasks, snapshot, hoursUntilDue, dueToday, freshIds, LookupKindAsWritten, i);
        ghost var issued := Eligible(task, snapshot, hoursUntilDue, LookupKindAsWritten);
        if task.dueDate.Some? && task.dueDate.value != "" && task.columnId != DoneColumn {
          var hours := hoursUntilDue(task.dueDate.value);
          if hours.Some? && 0 < hours.value <= 24 {
            var existingToast := Find(snapshot, IsReminderAbout(task.id, LookupKindAsWritten));
            if existingToast.None? {
              assert issued;
              var when := if dueToday(task.dueDate.value) then "today" else "tomorrow";
              AddToast(ReminderKind, "Due Soon!", "\"" + task.title + "\" is due " + when, Some(task.id), freshIds[i]);
            } else {
              assert HasReminder(snapshot, task.id, LookupKindAsWritten) by {
                var k := FindIndex(snapshot, IsReminderAbout(task.id, LookupKindAsWritten));
                assert IsReminderAbout(task.id, LookupKindAsWritten)(snapshot[k]);
              }
            }
          }
        }
        i := i + 1;
      }
      assert tasks[..i] == tasks && freshIds[..i] == freshIds;
    }
  }
}
