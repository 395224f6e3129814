/** The board's entities as the application stores them: columns, tasks with
    their tags and checklist, and the transient notifications ("toasts"). */
module Kanban {
  import opened Optional

  datatype Priority = Low | Medium | High

  /** A free-form label; its colour is chosen when it is added. */
  datatype Tag = Tag(text: string, color: string)

  /** One checklist item of a task. */
  datatype Subtask = Subtask(id: string, text: string, completed: bool)

  /** A card on the board; `columnId` is its only link to a column. An absent
      due date is `None`. */
  datatype Task = Task(
    id: string,
    title: string,
    description: string,
    columnId: string,
    priority: Priority,
    dueDate: Option<string>,
    tags: seq<Tag>,
    subtasks: seq<Subtask>,
    createdAt: string)

  /** A column; the order of the board's column list is the display order. */
  datatype Column = Column(id: string, title: string, color: string)

  /** A notification. `kind` is the string the application passes as the
      toast's `type`; `taskId` is set only on due-date reminders. */
  datatype Toast = Toast(id: string, kind: string, title: string, message: string, taskId: Option<string>)

  /** The fields the task editor hands to the board when it is submitted:
      everything a task has except its id, column and creation time. */
  datatype TaskData = TaskData(
    title: string,
    description: string,
    priority: Priority,
    dueDate: Option<string>,
    tags: seq<Tag>,
    subtasks: seq<Subtask>)

  /** The fields the column editor hands to the board. */
  datatype ColumnData = ColumnData(title: string, color: string)

  /** The column whose tasks count as completed. */
  const DoneColumn: string := "done"
  const InProgressColumn: string := "in-progress"
  /** Where the tasks of a deleted column go when no other column is found. */
  const BacklogColumn: string := "backlog"

  const SuccessKind: string := "success"
  const WarningKind: string := "warning"
  const ErrorKind: string := "error"
  const InfoKind: string := "info"

  /** The toast types the application creates. */
  predicate IsToastKind(kind: string) {
    kind == SuccessKind || kind == WarningKind || kind == ErrorKind || kind == InfoKind
  }

  /** The columns a first run starts with. */
  const DefaultColumns: seq<Column> := [
    Column("backlog", "Backlog", "#6b7280"),
    Column("todo", "To Do", "#3b82f6"),
    Column("in-progress", "In Progress", "#f59e0b"),
    Column("review", "Review", "#a855f7"),
    Column("done", "Done", "#22c55e")
  ]
}
