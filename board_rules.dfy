/** The rules by which the board's handlers (src/App.jsx) change its task and
    column lists: the drop handler, saving and deleting tasks, saving,
    deleting and moving columns. Each rule is a function from the old lists
    to the new one; the `Board` class applies them. */
module BoardRules {
  import opened Optional
  import opened Seqs
  import opened Kanban

  // ---------------------------------------------------------------------------
  // Selectors passed to filter/map/find
  // ---------------------------------------------------------------------------

  function HasId(id: string): Task -> bool { (t: Task) => t.id == id }
  function LacksId(id: string): Task -> bool { (t: Task) => t.id != id }
  function InColumn(columnId: string): Task -> bool { (t: Task) => t.columnId == columnId }
  function MoveTo(columnId: string): Task -> Task { (t: Task) => t.(columnId := columnId) }

  function IsColumn(id: string): Column -> bool { (c: Column) => c.id == id }
  function IsOtherColumn(id: string): Column -> bool { (c: Column) => c.id != id }

  /** `columns.some(c => c.id === id)` */
  predicate IsColumnId(columns: seq<Column>, id: string) {
    exists k :: 0 <= k < |columns| && columns[k].id == id
  }

  /** Every task sits in a column that exists. */
  predicate References(tasks: seq<Task>, columns: seq<Column>) {
    forall k :: 0 <= k < |tasks| ==> IsColumnId(columns, tasks[k].columnId)
  }

  /** Column ids are non-empty and distinct, as the generated ids and the
      default columns are. */
  predicate WellFormedColumns(columns: seq<Column>) {
    && (forall k :: 0 <= k < |columns| ==> columns[k].id != "")
    && (forall i, j :: 0 <= i < j < |columns| ==> columns[i].id != columns[j].id)
  }

  /** A first run starts with well-formed columns, more than one of them,
      among them the `backlog`, `in-progress` and `done` columns the board
      refers to by name. */
  lemma DefaultColumnsWellFormed()
    ensures WellFormedColumns(DefaultColumns) && |DefaultColumns| >= 2
    ensures IsColumnId(DefaultColumns, BacklogColumn) && IsColumnId(DefaultColumns, InProgressColumn)
    ensures IsColumnId(DefaultColumns, DoneColumn)
  {
    assert DefaultColumns[0].id == BacklogColumn;
    assert DefaultColumns[2].id == InProgressColumn;
    assert DefaultColumns[4].id == DoneColumn;
  }

  // ---------------------------------------------------------------------------
  // Drag and drop (handleDragEnd)
  // ---------------------------------------------------------------------------

  /** The column a drop resolves to: dropping onto a task means that task's
      column; anything else is taken to be a column id. */
  function DropColumn(tasks: seq<Task>, overId: string): (c: string)
    ensures FindIndex(tasks, HasId(overId)) >= 0 ==>
              c == tasks[FindIndex(tasks, HasId(overId))].columnId
    ensures (forall k :: 0 <= k < |tasks| ==> tasks[k].id != overId) ==> c == overId
  {
    match Find(tasks, HasId(overId))
    case Some(overTask) => overTask.columnId
    case None => overId
  }

  /** The column the dragged task moves to, or `None` when the drop changes
      nothing: no drop target, no task with the dragged id, a target that is
      not a column, or the task's own column. */
  function DropTarget(tasks: seq<Task>, columns: seq<Column>, activeId: string, over: Option<string>): (r: Option<string>)
    ensures r.Some? ==> IsColumnId(columns, r.value)
    ensures r.Some? ==> over.Some? && r.value == DropColumn(tasks, over.value)
    ensures r.Some? ==> FindIndex(tasks, HasId(activeId)) >= 0 &&
                        tasks[FindIndex(tasks, HasId(activeId))].columnId != r.value
  {
    match over
    case None => None
    case Some(overId) =>
      match Find(tasks, HasId(activeId))
      case None => None
      case Some(active) =>
        var target := DropColumn(tasks, overId);
        if IsColumnId(columns, target) && active.columnId != target then Some(target) else None
  }

  /** The task list after a drop. Only tasks with the dragged id change, only
      in their column, and only to an existing column: the one the drop
      resolved to. */
  function AfterDrop(tasks: seq<Task>, columns: seq<Column>, activeId: string, over: Option<string>): (r: seq<Task>)
    ensures |r| == |tasks|
    ensures forall k :: 0 <= k < |tasks| && tasks[k].id != activeId ==> r[k] == tasks[k]
    ensures forall k :: 0 <= k < |tasks| ==> r[k] == tasks[k].(columnId := r[k].columnId)
    ensures forall k :: 0 <= k < |tasks| && r[k] != tasks[k] ==>
              over.Some? && r[k].columnId == DropColumn(tasks, over.value) && IsColumnId(columns, r[k].columnId)
    ensures References(tasks, columns) ==> References(r, columns)
  {
    match DropTarget(tasks, columns, activeId, over)
    case None => tasks
    case Some(target) => MapWhere(tasks, HasId(activeId), MoveTo(target))
  }

  /** A drop leaves the tasks exactly as they were if and only if there is no
      drop target, no task has the dragged id, the target does not resolve to
      a column, or the dragged task is already in that column. */
  lemma DropIsNoOpExactly(tasks: seq<Task>, columns: seq<Column>, activeId: string, over: Option<string>)
    ensures AfterDrop(tasks, columns, activeId, over) == tasks <==>
              || over.None?
              || (forall k :: 0 <= k < |tasks| ==> tasks[k].id != activeId)
              || !IsColumnId(columns, DropColumn(tasks, over.value))
              || tasks[FindIndex(tasks, HasId(activeId))].columnId == DropColumn(tasks, over.value)
  {
    var r := AfterDrop(tasks, columns, activeId, over);
    var target := DropTarget(tasks, columns, activeId, over);
    if target.Some? {
      var i := FindIndex(tasks, HasId(activeId));
      assert r[i].columnId == target.value != tasks[i].columnId;
      assert r[i] != tasks[i];
    }
  }

  // ---------------------------------------------------------------------------
  // Saving and deleting tasks (handleSaveTask, handleDeleteTask)
  // ---------------------------------------------------------------------------

  /** The part of a task the editor controls. */
  function Fields(t: Task): TaskData {
    TaskData(t.title, t.description, t.priority, t.dueDate, t.tags, t.subtasks)
  }

  /** `{ ...t, ...data }`: the editor's fields replace the task's own. */
  function Merge(data: TaskData): Task -> Task {
    (t: Task) => t.(title := data.title, description := data.description, priority := data.priority,
            dueDate := data.dueDate, tags := data.tags, subtasks := data.subtasks)
  }

  /** Merging keeps the task's identity, column and creation time and leaves
      exactly the submitted fields; merging a task's own fields changes
      nothing. */
  lemma MergeRoundTrip(t: Task, data: TaskData)
    ensures Fields(Merge(data)(t)) == data
    ensures Merge(data)(t).id == t.id && Merge(data)(t).columnId == t.columnId
    ensures Merge(data)(t).createdAt == t.createdAt
    ensures Merge(Fields(t))(t) == t
  {
  }

  /** The task list after the editor is saved. With no task being edited, a
      new task with id `newId` is appended to `selectedColumn`; otherwise the
      fields are merged into every task with the edited id and nothing else
      changes. */
  function AfterSaveTask(tasks: seq<Task>, data: TaskData, editingId: Option<string>,
                         selectedColumn: string, newId: string, createdAt: string): (r: seq<Task>)
    ensures editingId.None? ==> |r| == |tasks| + 1 && r[..|tasks|] == tasks
    ensures editingId.None? ==>
              && r[|tasks|].id == newId && r[|tasks|].columnId == selectedColumn
              && r[|tasks|].createdAt == createdAt && Fields(r[|tasks|]) == data
    ensures editingId.Some? ==> |r| == |tasks|
    ensures editingId.Some? ==> forall k :: 0 <= k < |tasks| ==>
              if tasks[k].id == editingId.value
              then r[k].id == tasks[k].id && r[k].columnId == tasks[k].columnId
                   && r[k].createdAt == tasks[k].createdAt && Fields(r[k]) == data
              else r[k] == tasks[k]
  {
    match editingId
    case Some(id) => MapWhere(tasks, HasId(id), Merge(data))
    case None =>
      tasks + [Task(newId, data.title, data.description, selectedColumn, data.priority,
                    data.dueDate, data.tags, data.subtasks, createdAt)]
  }

  /** The task list after a delete: no task with the id is left, and every
      other task is kept, in order. */
  function AfterDeleteTask(tasks: seq<Task>, id: string): (r: seq<Task>)
    ensures forall k :: 0 <= k < |r| ==> r[k].id != id && r[k] in tasks
    ensures forall k :: 0 <= k < |tasks| && tasks[k].id != id ==> tasks[k] in r
    ensures IsSubseq(r, tasks)
  {
    FilterIsSubseq(tasks, LacksId(id));
    Filter(tasks, LacksId(id))
  }

  /** The title the delete notification quotes: the deleted task's, or the
      text `undefined` that `task?.title` interpolates to when no task has
      the id. */
  function DeletedTitle(tasks: seq<Task>, id: string): (title: string)
    ensures (forall k :: 0 <= k < |tasks| ==> tasks[k].id != id) ==> title == "undefined"
    ensures FindIndex(tasks, HasId(id)) >= 0 ==> title == tasks[FindIndex(tasks, HasId(id))].title
  {
    match Find(tasks, HasId(id))
    case Some(t) => t.title
    case None => "undefined"
  }

  // ---------------------------------------------------------------------------
  // Saving columns (handleSaveColumn)
  // ---------------------------------------------------------------------------

  function MergeColumn(data: ColumnData): Column -> Column {
    (c: Column) => c.(title := data.title, color := data.color)
  }

  /** The column list after the column editor is saved: a new column with id
      `newId` goes at the end, or the edited column takes the new title and
      colour in place. */
  function AfterSaveColumn(columns: seq<Column>, data: ColumnData, editingId: Option<string>, newId: string): (r: seq<Column>)
    ensures editingId.None? ==> r == columns + [Column(newId, data.title, data.color)]
    ensures editingId.Some? ==> |r| == |columns| && forall k :: 0 <= k < |columns| ==>
              r[k].id == columns[k].id &&
              if columns[k].id == editingId.value
              then r[k].title == data.title && r[k].color == data.color
              else r[k] == columns[k]
  {
    match editingId
    case Some(id) => MapWhere(columns, IsColumn(id), MergeColumn(data))
    case None => columns + [Column(newId, data.title, data.color)]
  }

  /** Saving a column keeps every column id, so no task loses its column. */
  lemma SaveColumnKeepsReferences(tasks: seq<Task>, columns: seq<Column>, data: ColumnData,
                                  editingId: Option<string>, newId: string)
    requires References(tasks, columns)
    ensures References(tasks, AfterSaveColumn(columns, data, editingId, newId))
  {
    var r := AfterSaveColumn(columns, data, editingId, newId);
    forall k | 0 <= k < |tasks| ensures IsColumnId(r, tasks[k].columnId) {
      var j :| 0 <= j < |columns| && columns[j].id == tasks[k].columnId;
      assert r[j].id == columns[j].id;
    }
  }

  /** Saving a column keeps the ids well formed when a new column gets a
      fresh, non-empty id. */
  lemma SaveColumnKeepsWellFormed(columns: seq<Column>, data: ColumnData, editingId: Option<string>, newId: string)
    requires WellFormedColumns(columns)
    requires editingId.None? ==> newId != "" && !IsColumnId(columns, newId)
    ensures WellFormedColumns(AfterSaveColumn(columns, data, editingId, newId))
  {
    var r := AfterSaveColumn(columns, data, editingId, newId);
    if editingId.None? {
      forall i, j | 0 <= i < j < |r| ensures r[i].id != r[j].id {
        if j == |columns| {
          assert r[i] == columns[i];
        }
      }
    }
  }

  // ---------------------------------------------------------------------------
  // Deleting columns (handleDeleteColumn)
  // ---------------------------------------------------------------------------

  /** `columns.find(c => c.id !== columnId)?.id || 'backlog'`: the first column
      that is not being deleted, or `backlog` when there is none (or when its
      id is the empty string, which `||` also replaces). */
  function Fallback(columns: seq<Column>, columnId: string): (f: string)
    ensures f == BacklogColumn || (IsColumnId(columns, f) && f != columnId)
    ensures var i := FindIndex(columns, IsOtherColumn(columnId));
            i >= 0 && columns[i].id != "" ==> f == columns[i].id
    ensures var i := FindIndex(columns, IsOtherColumn(columnId));
            i < 0 || columns[i].id == "" ==> f == BacklogColumn
  {
    match Find(columns, IsOtherColumn(columnId))
    case Some(c) => if c.id != "" then c.id else BacklogColumn
    case None => BacklogColumn
  }

  /** The task list after a column is deleted: its tasks move to the fallback
      column, all others stay as they are. */
  function ReassignedTasks(tasks: seq<Task>, columns: seq<Column>, columnId: string): (r: seq<Task>)
    ensures |r| == |tasks|
    ensures forall k :: 0 <= k < |tasks| ==>
              if tasks[k].columnId == columnId
              then r[k] == tasks[k].(columnId := Fallback(columns, columnId))
              else r[k] == tasks[k]
  {
    MapWhere(tasks, InColumn(columnId), MoveTo(Fallback(columns, columnId)))
  }

  /** The column list after a delete: every column with the id is gone, every
      other column is kept, in order. */
  function RemainingColumns(columns: seq<Column>, columnId: string): (r: seq<Column>)
    ensures forall k :: 0 <= k < |r| ==> r[k].id != columnId && r[k] in columns
    ensures forall k :: 0 <= k < |columns| && columns[k].id != columnId ==> columns[k] in r
    ensures IsSubseq(r, columns)
  {
    FilterIsSubseq(columns, IsOtherColumn(columnId));
    Filter(columns, IsOtherColumn(columnId))
  }

  /** With at least two well-formed columns (the board offers deletion only
      then), deleting a column leaves no task pointing at a missing column. */
  lemma DeleteColumnKeepsReferences(tasks: seq<Task>, columns: seq<Column>, columnId: string)
    requires |columns| >= 2 && WellFormedColumns(columns)
    requires References(tasks, columns)
    ensures References(ReassignedTasks(tasks, columns, columnId), RemainingColumns(columns, columnId))
  {
    var rest := RemainingColumns(columns, columnId);
    var fallback := Fallback(columns, columnId);
    assert columns[0].id != columnId || columns[1].id != columnId;
    var i := FindIndex(columns, IsOtherColumn(columnId));
    assert fallback == columns[i].id && columns[i] in rest;
    assert IsColumnId(rest, fallback) by {
      var k :| 0 <= k < |rest| && rest[k] == columns[i];
    }
    var r := ReassignedTasks(tasks, columns, columnId);
    forall k | 0 <= k < |r| ensures IsColumnId(rest, r[k].columnId) {
      if tasks[k].columnId != columnId {
        var j :| 0 <= j < |columns| && columns[j].id == tasks[k].columnId;
        assert columns[j] in rest;
        var m :| 0 <= m < |rest| && rest[m] == columns[j];
      }
    }
  }

  /** Deleting a column keeps the column ids well formed. */
  lemma {:induction false} DeleteColumnKeepsWellFormed(columns: seq<Column>, columnId: string)
    requires WellFormedColumns(columns)
    ensures WellFormedColumns(RemainingColumns(columns, columnId))
    decreases |columns|
  {
    if columns != [] {
      DeleteColumnKeepsWellFormed(columns[1..], columnId);
      var tail := RemainingColumns(columns[1..], columnId);
      forall k | 0 <= k < |tail| ensures tail[k].id != columns[0].id {
        var j :| 0 <= j < |columns[1..]| && columns[1..][j] == tail[k];
        assert columns[j + 1] == tail[k];
      }
    }
  }

  // ---------------------------------------------------------------------------
  // Moving columns (handleMoveColumn)
  // ---------------------------------------------------------------------------

  /** The position `handleMoveColumn` moves the column to: one to the left for
      the direction `left`, one to the right for anything else. */
  function NewIndex(index: int, direction: string): int {
    if direction == "left" then index - 1 else index + 1
  }

  /** The column list after `handleMoveColumn`: the column is taken out with
      `splice(index, 1)` and put back with `splice(newIndex, 0, removed)`,
      unless the new position is outside the list. */
  function MovedColumns(columns: seq<Column>, columnId: string, direction: string): (r: seq<Column>)
    ensures |r| == |columns|
    ensures multiset(r) == multiset(columns)
  {
    var index := FindIndex(columns, IsColumn(columnId));
    var newIndex := NewIndex(index, direction);
    if newIndex < 0 || newIndex >= |columns| then columns
    else MoveElement(columns, SpliceStart(|columns|, index), newIndex)
  }

  /** A known column whose new position is inside the list swaps places with
      its neighbour on that side; every other column stays where it was. */
  lemma MoveColumnSwapsNeighbour(columns: seq<Column>, columnId: string, direction: string)
    requires FindIndex(columns, IsColumn(columnId)) >= 0
    requires 0 <= NewIndex(FindIndex(columns, IsColumn(columnId)), direction) < |columns|
    ensures var i := FindIndex(columns, IsColumn(columnId));
            var j := NewIndex(i, direction);
            var r := MovedColumns(columns, columnId, direction);
            && r[j] == columns[i] && r[i] == columns[j]
            && forall k :: 0 <= k < |columns| && k != i && k != j ==> r[k] == columns[k]
  {
    var i := FindIndex(columns, IsColumn(columnId));
    MoveElementToNeighbour(columns, i, NewIndex(i, direction));
  }

  /** A position outside the list leaves the columns unchanged; the first
      column cannot move left and the last cannot move right. */
  lemma MoveColumnOutOfRange(columns: seq<Column>, columnId: string, direction: string)
    requires var j := NewIndex(FindIndex(columns, IsColumn(columnId)), direction);
             j < 0 || j >= |columns|
    ensures MovedColumns(columns, columnId, direction) == columns
  {
  }

  /** An unknown id with any direction but `left` gives index -1 and new
      position 0; `splice(-1, 1)` then takes the last column, which is put
      in front. */
  lemma MoveUnknownColumnRotates(columns: seq<Column>, columnId: string, direction: string)
    requires forall k :: 0 <= k < |columns| ==> columns[k].id != columnId
    requires direction != "left" && columns != []
    ensures MovedColumns(columns, columnId, direction) ==
              [columns[|columns| - 1]] + columns[..|columns| - 1]
  {
    assert FindIndex(columns, IsColumn(columnId)) == -1;
    MoveLastToFront(columns);
  }

  /** Moving a column keeps every column, so no task loses its column. */
  lemma MoveColumnKeepsReferences(tasks: seq<Task>, columns: seq<Column>, columnId: string, direction: string)
    requires References(tasks, columns)
    ensures References(tasks, MovedColumns(columns, columnId, direction))
  {
    var r := MovedColumns(columns, columnId, direction);
    forall k | 0 <= k < |tasks| ensures IsColumnId(r, tasks[k].columnId) {
      var j :| 0 <= j < |columns| && columns[j].id == tasks[k].columnId;
      assert columns[j] in multiset(r);
      var i :| 0 <= i < |r| && r[i] == columns[j];
    }
  }

  /** Moving a column keeps the column ids non-empty and distinct. */
  lemma MoveColumnKeepsWellFormed(columns: seq<Column>, columnId: string, direction: string)
    requires WellFormedColumns(columns)
    ensures WellFormedColumns(MovedColumns(columns, columnId, direction))
  {
    var r := MovedColumns(columns, columnId, direction);
    forall k | 0 <= k < |r| ensures r[k].id != "" {
      assert r[k] in multiset(columns);
    }
    assert NoDups(columns);
    PermutationKeepsNoDups(columns, r);
    forall i, j | 0 <= i < j < |r| ensures r[i].id != r[j].id {
      assert r[i] in multiset(columns) && r[j] in multiset(columns);
      var a :| 0 <= a < |columns| && columns[a] == r[i];
      var b :| 0 <= b < |columns| && columns[b] == r[j];
    }
  }
}
