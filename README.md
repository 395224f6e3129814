# kanban-flow board model

A Dafny model of the data layer of kanban-flow, a single-page Kanban board.
The board holds one list of columns, one list of tasks and the list of
notifications ("toasts") on screen. Its handlers move tasks between columns
by drag and drop, create, edit and delete tasks, add, rename, delete and
reorder columns, import a saved board and issue due-date reminders. From the
task list the board derives a filtered view, per-column lists, toolbar
counters and the list of tag texts. The task editor holds the fields of one
task, adds and removes tags and checklist items, and builds the payload it
hands to the board.

Layout:

- `optional.dfy`: `Optional`, the `Option` type.
- `seqs.dfy`: `Seqs`, the JavaScript array operations the code uses (`filter`, `map` with a conditional update, `find`, `findIndex`, `splice`, `[...new Set(...)]`). Each is stated over sequences with the facts the board relies on.
- `text.dfy`: `Text`, the string operations `trim`, `toLowerCase` and `includes`.
- `kanban.dfy`: `Kanban`, the entities (`Task`, `Column`, `Tag`, `Subtask`, `Toast`, the editor payloads) and the constants.
- `board_rules.dfy`: `BoardRules`, each handler's effect on the lists, written as a function from the old list to the new one, with the lemmas about it.
- `board_views.dfy`: `BoardViews`, the filter, the per-column lists, the counters and the tag list.
- `reminders.dfy`: `Reminders`, the due-date reminder check.
- `board.dfy`: `BoardState`, the class `Board`. Its fields are the three lists and its methods are the handlers.
- `task_form.dfy`: `TaskEditor`, the class `TaskForm` (the editor's fields and handlers) together with the submit payload, tag colouring and the completed-subtask count.

Each `Board` method that edits tasks or columns, except `Import`, is proved to produce exactly
the new state that the matching `BoardRules` function describes. The toast
methods are specified by `WithoutToast` and by the appended toast, the import
directly by the file's contents, and the reminder check by
`Reminders.NewReminders`. The lemmas about those functions carry the board's
guarantees:

- a drop changes only the dragged task's column, and does so exactly when the target is another existing column;
- no column edit strands a task: saving and moving keep every column, and deleting moves the column's tasks to the fallback column;
- no column edit breaks the column ids' being non-empty and distinct;
- moving a column swaps it with a neighbour;
- a reminder check issues one reminder per task that is due soon and has no toast of the type it looks up.
  As written it looks up a type no toast has, so a task can be reminded about twice (see Findings).

Fresh ids (uuid), the creation time and the current date are parameters.
The date arithmetic of the reminder check is given as two functions:
`hoursUntilDue` maps a due date to a whole number of hours, or to nothing
when the date does not parse, and `dueToday` says whether a date is today.

The import replaces each of `columns` and `tasks` that the file holds,
independently of the other (src/App.jsx:504-505).

## Model

| member | source | states |
|---|---|---|
| Seqs.Filter | src/App.jsx:409 | every element `filter` keeps satisfies the predicate and comes from the list, and every element satisfying it is kept |
| Seqs.FilterKeepsEveryCopy | src/App.jsx:409 | `filter` keeps every copy of an element satisfying the predicate and no copy of any other: as a multiset, the result is exactly the satisfying elements |
| Seqs.FilterIsSubseq | src/App.jsx:518-537 | what `filter` keeps is an order-preserving subsequence of its input |
| Seqs.FilterIdempotent | src/App.jsx:518-537 | filtering twice with the same predicate is filtering once |
| Seqs.FilterSnoc | src/App.jsx:543-548 | filtering a list with one more element at the end keeps that element exactly when it satisfies the predicate |
| Seqs.FilterDisjointCount | src/App.jsx:543-548 | two predicates that never hold together select at most as many elements as the list has |
| Seqs.MapWhere | src/App.jsx:365-367 | `map(x => p(x) ? f(x) : x)` keeps the length and updates exactly the matching elements, in place |
| Seqs.MapWhereTwice | src/components/TaskModal.jsx:57-61 | an update that keeps the predicate and undoes itself, applied twice, restores the list |
| Seqs.FindIndex | src/App.jsx:451 | `findIndex` gives the first matching position, or -1 exactly when nothing matches |
| Seqs.Find | src/App.jsx:351 | `find` gives nothing exactly when nothing matches; otherwise it gives the element at the first matching position |
| Seqs.WithoutIndex | src/components/TaskModal.jsx:44 | dropping position `i` removes exactly that element when `i` is in range, and changes nothing otherwise |
| Seqs.SpliceStart | src/App.jsx:457 | `splice` counts a negative start from the end; a start past the end gives the length, and one before the beginning gives 0 |
| Seqs.MoveElement | src/App.jsx:456-458 | taking an element out and reinserting it keeps the length and the multiset of elements |
| Seqs.MoveElementToNeighbour | src/App.jsx:456-458 | moving an element by one place swaps it with that neighbour and leaves everything else in place |
| Seqs.MoveLastToFront | src/App.jsx:457-458 | moving the last element to position 0 rotates it to the front |
| Seqs.Dedup | src/App.jsx:516 | `[...new Set(s)]` has no duplicates and holds exactly the elements of `s` |
| Seqs.DedupFirstOccurrenceOrder | src/App.jsx:516 | the de-duplicated elements appear in the order of their first occurrence |
| Text.Trim | src/components/TaskModal.jsx:19-23 | `trim` is empty exactly for all-white-space input; otherwise it starts and ends with non-white-space; it is the piece of the input left once only white space is cut from before and after it |
| Text.TrimIdempotent | src/components/TaskModal.jsx:22-23 | trimming a trimmed string changes nothing |
| Text.Lower | src/App.jsx:520-524 | `toLowerCase` keeps the length, leaves no upper-case letter, maps each upper-case letter to its lower-case letter and keeps every other character |
| Text.LowerKeepsIncludes | src/App.jsx:520-524 | a query found verbatim is still found once both sides are lower-cased |
| Text.IncludesIffOccurs | src/App.jsx:522-524 | `includes` holds exactly when the query occurs at some position |
| BoardRules.DropColumn | src/App.jsx:354-359 | a drop onto a task resolves to that task's column; a drop onto anything else resolves to the target id |
| BoardRules.DropTarget | src/App.jsx:349-364 | a move happens only with a drop target and a dragged task, to an existing column other than the task's own |
| BoardRules.AfterDrop | src/App.jsx:344-369 | a drop keeps the length and every other task; the dragged task changes only its column, and only to an existing column; every task keeps pointing at an existing column |
| BoardRules.DropIsNoOpExactly | src/App.jsx:349-364 | a drop leaves the tasks unchanged exactly when there is no target, no dragged task, no such column, or the task is already there |
| BoardRules.MergeRoundTrip | src/App.jsx:389 | merging the editor's fields keeps id, column and creation time; merging a task's own fields changes nothing |
| BoardRules.AfterSaveTask | src/App.jsx:387-399 | a new task is appended once, in the selected column, with the submitted fields; an edit changes only the tasks with the edited id, and only their editor fields |
| BoardRules.AfterDeleteTask | src/App.jsx:409 | after a delete no task has the id, and every other task is kept in order |
| BoardRules.DeletedTitle | src/App.jsx:408-410 | the delete notification quotes the deleted task's title, or `undefined` when no task has the id |
| BoardRules.AfterSaveColumn | src/App.jsx:424-435 | a new column is appended; an edit changes only the title and colour of the edited column |
| BoardRules.SaveColumnKeepsWellFormed | src/App.jsx:424-435 | saving keeps column ids non-empty and distinct when a new column gets a fresh id |
| BoardRules.SaveColumnKeepsReferences | src/App.jsx:424-435 | saving a column keeps every column id, so a task that pointed at an existing column still does |
| BoardRules.Fallback | src/App.jsx:442 | the fallback is the id of the first column other than the deleted one when that id is non-empty, and `backlog` when there is no such column or its id is empty; it is `backlog` or an existing other column |
| BoardRules.ReassignedTasks | src/App.jsx:443-445 | the deleted column's tasks move to the fallback column; all other tasks are unchanged |
| BoardRules.RemainingColumns | src/App.jsx:446 | every column with the id is removed, and the rest are kept in order |
| BoardRules.DeleteColumnKeepsReferences | src/App.jsx:440-446 | with at least two well-formed columns (src/App.jsx:680), no task points at a missing column after a delete |
| BoardRules.DefaultColumnsWellFormed | src/App.jsx:21-27 | the default columns have non-empty, distinct ids, number more than one, and include `backlog`, `in-progress` and `done` |
| BoardRules.DeleteColumnKeepsWellFormed | src/App.jsx:446 | deleting keeps column ids non-empty and distinct |
| BoardRules.MovedColumns | src/App.jsx:450-459 | moving a column keeps the length and the multiset of columns |
| BoardRules.MoveColumnSwapsNeighbour | src/App.jsx:450-459 | a known column swaps with its left neighbour (`left`) or its right neighbour (any other direction); nothing else moves |
| BoardRules.MoveColumnOutOfRange | src/App.jsx:452-454 | when the new position is outside the list (first column left, last column right), the columns are unchanged |
| BoardRules.MoveUnknownColumnRotates | src/App.jsx:451-458 | an unknown id with a direction other than `left` puts the last column in front |
| BoardRules.MoveColumnKeepsReferences | src/App.jsx:450-459 | moving a column keeps every column, so a task that pointed at an existing column still does |
| BoardRules.MoveColumnKeepsWellFormed | src/App.jsx:450-459 | moving a column keeps the column ids non-empty and distinct |
| BoardViews.FilteredTasks | src/App.jsx:518-537 | every shown task meets the search, priority and tag conditions, every task meeting them is shown, and the board order is kept |
| BoardViews.SearchFindsTitle | src/App.jsx:520-522 | a task whose title contains the query as typed is shown by the search, whatever the letter case |
| BoardViews.FilteredTasksIdempotent | src/App.jsx:518-537 | filtering the filtered tasks again changes nothing |
| BoardViews.NoFiltersKeepsAll | src/App.jsx:518-537 | an empty query with both dropdowns on `all` shows every task |
| BoardViews.ColumnTasks | src/App.jsx:539-541 | a column shows exactly its filtered tasks, in board order |
| BoardViews.ComputeStats | src/App.jsx:543-548 | the total is the task count, and completed plus high-priority (and completed plus in-progress) never exceed it |
| BoardViews.StatsOfAppend | src/App.jsx:543-548 | one more task adds one to the total and one to each counter whose condition it meets |
| BoardViews.TagTexts | src/App.jsx:516 | a text occurs in the flattened list exactly when some task has a tag with that text |
| BoardViews.TagTextsOfOne | src/App.jsx:516 | one task contributes its tag texts in tag order |
| BoardViews.TagTextsAppend | src/App.jsx:516 | the texts of two task lists in a row are the texts of the first followed by those of the second, so the flattening goes task by task, tag by tag |
| BoardViews.AllTags | src/App.jsx:516 | the tag list has no duplicates and holds exactly the tag texts on the board |
| BoardViews.AllTagsFirstOccurrenceOrder | src/App.jsx:516 | tag texts are listed in the order they first occur |
| BoardViews.OfferedTagSelectsTasks | src/App.jsx:516-537 | choosing an offered tag other than `all` shows at least one task, each carrying the tag |
| Reminders.DueTasksAreEligible | src/App.jsx:292-301 | the tasks a run reminds about are exactly the tasks that are due soon, not in `done` and without a reminder among the toasts the run sees, in task order |
| Reminders.NewReminders | src/App.jsx:290-311 | the k-th reminder of a run is a warning about the k-th task reminded about, one per such task |
| Reminders.NewRemindersStep | src/App.jsx:292-310 | going through one more task adds its reminder exactly when it is eligible |
| Reminders.NewRemindersDistinct | src/App.jsx:292-310 | with distinct task ids, a run never issues two reminders about one task |
| Reminders.NewRemindersAreNew | src/App.jsx:300-301 | no new reminder concerns a task that already has a toast of the type looked up |
| Reminders.AppendKeepsAtMostOne | src/App.jsx:320 | appending reminders about distinct tasks that do not yet have one keeps at most one reminder per task |
| Reminders.RemindersAtMostOnce | src/App.jsx:300-307 | a lookup by the type reminders are created with keeps at most one reminder per task |
| Reminders.LookupAsWrittenNeverMatches | src/App.jsx:300 | a lookup for type `reminder` finds nothing among toasts the application creates |
| Reminders.DuplicateReminderAsWritten | src/App.jsx:300-307 | with the lookup as written, two runs give one task two reminders |
| BoardState.WithoutToast | src/App.jsx:326-328 | removal drops every toast with the id and keeps the others in order |
| BoardState.RemoveUndoesAdd | src/App.jsx:318-323 | the expiry removal of a toast added under a fresh id restores the list |
| BoardState.Board.constructor | src/App.jsx:239-274 | the board starts with the loaded columns and tasks and no toasts |
| BoardState.Board.AddToast | src/App.jsx:318-320 | the toast is appended under its fresh id |
| BoardState.Board.RemoveToast | src/App.jsx:326-328 | the toasts become `WithoutToast` of the old ones |
| BoardState.Board.DragEnd | src/App.jsx:344-369 | the tasks become `AfterDrop` of the old state; columns and toasts are unchanged |
| BoardState.Board.SaveTask | src/App.jsx:383-405 | the tasks become `AfterSaveTask`, with an "updated" or "added" success toast; valid column references are kept |
| BoardState.Board.DeleteTask | src/App.jsx:407-411 | the tasks become `AfterDeleteTask`, with a toast quoting `DeletedTitle` |
| BoardState.Board.SaveColumn | src/App.jsx:424-438 | the columns become `AfterSaveColumn`; well-formed ids stay well formed, and no task loses its column |
| BoardState.Board.DeleteColumn | src/App.jsx:440-448 | the tasks are reassigned, the column is removed and a toast is added; with two or more columns, references and well-formed ids are kept |
| BoardState.Board.MoveColumn | src/App.jsx:450-460 | the two `splice` steps on a copy give `MovedColumns`; well-formed ids stay well formed, and no task loses its column |
| BoardState.Board.Import | src/App.jsx:501-509 | each of `columns` and `tasks` in the file replaces the board's when present; an unreadable file changes nothing and adds the error toast |
| BoardState.Board.CheckReminders | src/App.jsx:290-311 | the loop appends `NewReminders` for the `reminder` lookup as written, against the toasts at the start of the run; columns and tasks are unchanged |
| TaskEditor.TagColor | src/components/TaskModal.jsx:36 | a tag colour is always one of the six tag colours |
| TaskEditor.TagColorsRoundRobin | src/components/TaskModal.jsx:36 | six tags added in a row get six different colours, and the seventh repeats the first |
| TaskEditor.SubmitPayload | src/components/TaskModal.jsx:17-29 | there is no payload exactly for a blank title; otherwise the title and description are the trim of what was typed, an empty due date is absent, and everything else is passed unchanged |
| TaskEditor.SubmitUnchangedRoundTrip | src/components/TaskModal.jsx:7-29 | opening a task with clean fields and submitting it unchanged gives back its fields |
| TaskEditor.Toggled | src/components/TaskModal.jsx:57-61 | toggling flips `completed` exactly on the subtasks with the id and changes nothing else |
| TaskEditor.ToggleTwice | src/components/TaskModal.jsx:57-61 | toggling twice restores the list |
| TaskEditor.WithoutSubtask | src/components/TaskModal.jsx:63-65 | deleting drops exactly the subtasks with the id, keeping the rest in order |
| TaskEditor.CompletedCount | src/components/TaskModal.jsx:67 | the count is between 0 and the number of subtasks: 0 with none ticked, all with all ticked |
| TaskEditor.AddSubtaskKeepsCount | src/components/TaskModal.jsx:49-53 | a newly added, unticked subtask leaves the count unchanged |
| TaskEditor.ToggleMovesCountByOne | src/components/TaskModal.jsx:57-67 | toggling a subtask with a unique id moves the count by exactly one |
| TaskEditor.TaskForm.constructor | src/components/TaskModal.jsx:7-14 | the editor starts from the task's fields, or from empty fields with priority `medium` |
| TaskEditor.TaskForm.Submit | src/components/TaskModal.jsx:17-29 | the result is `SubmitPayload` of the current fields |
| TaskEditor.TaskForm.AddTag | src/components/TaskModal.jsx:31-41 | on Enter with a non-blank input, one tag with the trimmed text and the next colour is appended and the input cleared; otherwise nothing changes |
| TaskEditor.TaskForm.RemoveTag | src/components/TaskModal.jsx:43-45 | exactly the tag at the index is removed, and the rest are kept in order |
| TaskEditor.TaskForm.AddSubtask | src/components/TaskModal.jsx:47-55 | a non-blank input becomes one unticked subtask with trimmed text and the input is cleared; a blank input changes nothing |
| TaskEditor.TaskForm.ToggleSubtask | src/components/TaskModal.jsx:57-61 | the subtasks become `Toggled` of the old ones |
| TaskEditor.TaskForm.DeleteSubtask | src/components/TaskModal.jsx:63-65 | the subtasks become `WithoutSubtask` of the old ones |

## Left out

- Rendering, JSX, CSS and the theme toggle in every component (src/components/Column.jsx, TaskCard.jsx, Toast.jsx, ColumnModal.jsx included). ColumnModal's single rule, that a blank title is rejected and the title trimmed, is the same rule as the task editor's submit.
- The dnd-kit sensors and collision detection. The drop handler takes the dragged id and the optional target id as inputs.
- `handleDragStart`, `handleAddTask`, `handleEditTask`, `handleAddColumn`, `handleEditColumn` and the modal open/close flags. They only set UI state (the edited task or column, the selected column), which the model passes to the save handlers as parameters.
- The `isWorking` status flag and its 500 ms timer: they are display only.
- The timers: the 5 s toast expiry is the `RemoveToast` it calls, and the 60 s reminder interval is repeated `CheckReminders`. The timers' scheduling is not modelled. The reminder effect re-runs whenever the task list changes (src/App.jsx:316), so the tasks it reads are current, but the `toasts` it reads at src/App.jsx:300 are those of the render that started the effect; `CheckReminders` takes the toasts at the start of the run as that snapshot.
- date-fns (`parseISO`, `differenceInHours`, `isToday`): replaced by the `hoursUntilDue` and `dueToday` parameters.
- uuid and `new Date().toISOString()`: fresh ids and the creation time are parameters.
- localStorage, `JSON.parse`/`JSON.stringify`, FileReader, Blob downloads, export and the GitHub-sync download: I/O. Import is modelled from the parsed file on (`ImportFile`). A file that does not parse, or whose `columns`/`tasks` access throws, is `Unreadable`. A `columns` or `tasks` member that is present but not a list has no counterpart.
- The seed data (`defaultTasks`) and the first-run load. The constructor takes the loaded lists; `Kanban.DefaultColumns` records the default columns, and `BoardRules.DefaultColumnsWellFormed` shows they meet the column-delete guarantee's requirements.
- The subtask progress percentage and due-date badges of src/components/TaskCard.jsx: floating point and dates.
- auto-sync.js, sync-to-github.js and public/import-data.js: separate scripts (file polling, `git` commands, a static data literal); none of them is part of this model.
- Text.Lower: maps only the ASCII letters, where `toLowerCase` maps all of Unicode, because Dafny has no Unicode case tables.
- Tasks with a missing `tags` or `description` field (the `?.` in src/App.jsx:523-524): every modelled task has both fields.

## Findings

| source | as written | input that shows it | evidently intended | confidence | as-written member | corrected member |
|---|---|---|---|---|---|---|
| src/App.jsx:300-303 | the outstanding-reminder lookup matches toasts of type `reminder`, but reminders are created with type `warning`, so the lookup never finds one | one task, not in `done`, due in 5 hours; two checks while the first reminder is still on screen give two "Due Soon!" toasts for it | look up the type reminders are created with, so that at most one reminder per task is outstanding | not executed | Reminders.DuplicateReminderAsWritten | Reminders.RemindersAtMostOnce |
