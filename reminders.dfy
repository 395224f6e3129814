/** The due-date reminder check of src/App.jsx (`checkReminders`). The clock
    is not modelled: `hoursUntilDue` gives, for a stored due date, the whole
    number of hours from now until it (`None` where the date does not parse
    and the difference is NaN), and `dueToday` says whether the date is
    today. */
module Reminders {
  import opened Optional
  import opened Seqs
  import opened Kanban

  /** The toast type reminders are created with. */
  const ReminderKind: string := WarningKind

  /** The toast type the check, as written, looks for before issuing a
      reminder. No toast is ever created with it. */
  const LookupKindAsWritten: string := "reminder"

  /** A task is due soon when it has a due date (an empty string counts as
      none), is not in `done`, and falls due within the next 24 hours. */
  predicate DueSoon(t: Task, hoursUntilDue: string -> Option<int>) {
    && t.dueDate.Some? && t.dueDate.value != ""
    && t.columnId != DoneColumn
    && hoursUntilDue(t.dueDate.value).Some?
    && 0 < hoursUntilDue(t.dueDate.value).value <= 24
  }

  /** Some toast of type `lookupKind` is about the task. */
  predicate HasReminder(toasts: seq<Toast>, taskId: string, lookupKind: string) {
    exists k :: 0 <= k < |toasts| && toasts[k].taskId == Some(taskId) && toasts[k].kind == lookupKind
  }

  /** `t => t.taskId === taskId && t.type === kind` */
  function IsReminderAbout(taskId: string, kind: string): Toast -> bool {
    (t: Toast) => t.taskId == Some(taskId) && t.kind == kind
  }

  function ReminderToast(t: Task, id: string, dueToday: string -> bool): Toast
    requires t.dueDate.Some?
  {
    Toast(id, ReminderKind, "Due Soon!",
          "\"" + t.title + "\" is due " + (if dueToday(t.dueDate.value) then "today" else "tomorrow"),
          Some(t.id))
  }

  /** The check issues a reminder for `t`: it is due soon and no toast of type
      `lookupKind` about it is among the toasts the check sees. */
  predicate Eligible(t: Task, snapshot: seq<Toast>, hoursUntilDue: string -> Option<int>, lookupKind: string) {
    DueSoon(t, hoursUntilDue) && !HasReminder(snapshot, t.id, lookupKind)
  }

  function EligibleIn(snapshot: seq<Toast>, hoursUntilDue: string -> Option<int>, lookupKind: string): Task -> bool {
    (t: Task) => Eligible(t, snapshot, hoursUntilDue, lookupKind)
  }

  /** The tasks a run reminds about, in task order. */
  function DueTasks(tasks: seq<Task>, snapshot: seq<Toast>, hoursUntilDue: string -> Option<int>, lookupKind: string): seq<Task>
    decreases |tasks|
  {
    if tasks == [] then []
    else
      var n := |tasks| - 1;
      DueTasks(tasks[..n], snapshot, hoursUntilDue, lookupKind)
      + if Eligible(tasks[n], snapshot, hoursUntilDue, lookupKind) then [tasks[n]] else []
  }

  /** The tasks reminded about are exactly the eligible tasks, in order:
      every one of them is eligible and every eligible task is among them. */
  lemma {:induction false} DueTasksAreEligible(tasks: seq<Task>, snapshot: seq<Toast>, hoursUntilDue: string -> Option<int>, lookupKind: string)
    ensures DueTasks(tasks, snapshot, hoursUntilDue, lookupKind) == Filter(tasks, EligibleIn(snapshot, hoursUntilDue, lookupKind))
    decreases |tasks|
  {
    if tasks != [] {
      var n := |tasks| - 1;
      DueTasksAreEligible(tasks[..n], snapshot, hoursUntilDue, lookupKind);
      assert tasks == tasks[..n] + [tasks[n]];
      FilterSnoc(tasks[..n], tasks[n], EligibleIn(snapshot, hoursUntilDue, lookupKind));
    }
  }

  /** The reminders one run of the check adds, in task order: the `k`-th is a
      warning about the `k`-th task reminded about, and there is one per such
      task. `freshIds[i]` is the id the toast for `tasks[i]` would get. */
  function NewReminders(tasks: seq<Task>, snapshot: seq<Toast>, hoursUntilDue: string -> Option<int>,
                        dueToday: string -> bool, freshIds: seq<string>, lookupKind: string): (r: seq<Toast>)
    requires |freshIds| == |tasks|
    ensures var due := DueTasks(tasks, snapshot, hoursUntilDue, lookupKind);
            && |r| == |due|
            && forall k :: 0 <= k < |r| ==> r[k].kind == ReminderKind && r[k].taskId == Some(due[k].id)
    decreases |tasks|
  {
    if tasks == [] then []
    else
      var n := |tasks| - 1;
      var earlier := NewReminders(tasks[..n], snapshot, hoursUntilDue, dueToday, freshIds[..n], lookupKind);
      if Eligible(tasks[n], snapshot, hoursUntilDue, lookupKind)
      then earlier + [ReminderToast(tasks[n], freshIds[n], dueToday)]
      else earlier
  }

  /** Going through one more task adds its reminder, if it gets one. */
  lemma NewRemindersStep(tasks: seq<Task>, snapshot: seq<Toast>, hoursUntilDue: string -> Option<int>,
                         dueToday: string -> bool, freshIds: seq<string>, lookupKind: string, i: nat)
    requires |freshIds| == |tasks| && i < |tasks|
    ensures NewReminders(tasks[..i + 1], snapshot, hoursUntilDue, dueToday, freshIds[..i + 1], lookupKind)
            == NewReminders(tasks[..i], snapshot, hoursUntilDue, dueToday, freshIds[..i], lookupKind)
               + if Eligible(tasks[i], snapshot, hoursUntilDue, lookupKind)
                 then [ReminderToast(tasks[i], freshIds[i], dueToday)] else []
  {
    assert tasks[..i + 1][..i] == tasks[..i];
    assert freshIds[..i + 1][..i] == freshIds[..i];
  }

  predicate UniqueTaskIds(tasks: seq<Task>) {
    forall i, j :: 0 <= i < j < |tasks| ==> tasks[i].id != tasks[j].id
  }

  /** No task has two outstanding reminders. */
  predicate AtMostOneReminderPerTask(toasts: seq<Toast>) {
    forall i, j ::
      (0 <= i < j < |toasts| && toasts[i].kind == ReminderKind && toasts[j].kind == ReminderKind && toasts[i].taskId.Some?)
      ==> toasts[i].taskId != toasts[j].taskId
  }

  /** No two of the toasts are about the same task. */
  predicate DistinctSubjects(toasts: seq<Toast>) {
    forall i, j :: 0 <= i < j < |toasts| ==> toasts[i].taskId != toasts[j].taskId
  }

  /** None of the `added` toasts is about a task that a toast of type `kind`
      in `existing` is about. */
  predicate NoneAlreadyReminded(existing: seq<Toast>, added: seq<Toast>, kind: string) {
    forall i, m :: 0 <= i < |existing| && 0 <= m < |added| && existing[i].kind == kind ==>
      existing[i].taskId != added[m].taskId
  }

  /** Selecting tasks keeps their ids distinct. */
  lemma {:induction false} FilterKeepsIdsUnique(tasks: seq<Task>, p: Task -> bool)
    requires UniqueTaskIds(tasks)
    ensures UniqueTaskIds(Filter(tasks, p))
    decreases |tasks|
  {
    if tasks != [] {
      var n := |tasks| - 1;
      assert tasks == tasks[..n] + [tasks[n]];
      FilterKeepsIdsUnique(tasks[..n], p);
      FilterSnoc(tasks[..n], tasks[n], p);
      var earlier := Filter(tasks[..n], p);
      forall k | 0 <= k < |earlier| ensures earlier[k].id != tasks[n].id {
        var i :| 0 <= i < n && tasks[..n][i] == earlier[k];
      }
    }
  }

  /** With distinct task ids, one run never issues two reminders for a task. */
  lemma NewRemindersDistinct(tasks: seq<Task>, snapshot: seq<Toast>, hoursUntilDue: string -> Option<int>,
                             dueToday: string -> bool, freshIds: seq<string>, lookupKind: string)
    requires |freshIds| == |tasks| && UniqueTaskIds(tasks)
    ensures DistinctSubjects(NewReminders(tasks, snapshot, hoursUntilDue, dueToday, freshIds, lookupKind))
  {
    DueTasksAreEligible(tasks, snapshot, hoursUntilDue, lookupKind);
    FilterKeepsIdsUnique(tasks, EligibleIn(snapshot, hoursUntilDue, lookupKind));
  }

  /** No new reminder is about a task that already has a toast of the type
      the check looks for. */
  lemma NewRemindersAreNew(tasks: seq<Task>, snapshot: seq<Toast>, hoursUntilDue: string -> Option<int>,
                           dueToday: string -> bool, freshIds: seq<string>, lookupKind: string)
    requires |freshIds| == |tasks|
    ensures NoneAlreadyReminded(snapshot, NewReminders(tasks, snapshot, hoursUntilDue, dueToday, freshIds, lookupKind), lookupKind)
  {
    var r := NewReminders(tasks, snapshot, hoursUntilDue, dueToday, freshIds, lookupKind);
    var due := DueTasks(tasks, snapshot, hoursUntilDue, lookupKind);
    DueTasksAreEligible(tasks, snapshot, hoursUntilDue, lookupKind);
    forall i, m | 0 <= i < |snapshot| && 0 <= m < |r| && snapshot[i].kind == lookupKind
      ensures snapshot[i].taskId != r[m].taskId
    {
      assert EligibleIn(snapshot, hoursUntilDue, lookupKind)(due[m]);
    }
  }

  /** Appending reminders about distinct tasks, none of which already has
      one, keeps at most one reminder per task. */
  lemma AppendKeepsAtMostOne(earlier: seq<Toast>, added: seq<Toast>)
    requires AtMostOneReminderPerTask(earlier)
    requires DistinctSubjects(added)
    requires NoneAlreadyReminded(earlier, added, ReminderKind)
    ensures AtMostOneReminderPerTask(earlier + added)
  {
    var all := earlier + added;
    forall i, j | 0 <= i < j < |all| && all[i].kind == ReminderKind && all[j].kind == ReminderKind && all[i].taskId.Some?
      ensures all[i].taskId != all[j].taskId
    {
      if j >= |earlier| && i < |earlier| {
        assert all[i] == earlier[i] && all[j] == added[j - |earlier|];
      } else if j >= |earlier| {
        assert all[i] == added[i - |earlier|] && all[j] == added[j - |earlier|];
      }
    }
  }

  /** The check, looking for outstanding reminders by the type they are
      created with, keeps "at most one reminder per task" true. */
  lemma RemindersAtMostOnce(tasks: seq<Task>, snapshot: seq<Toast>, hoursUntilDue: string -> Option<int>,
                            dueToday: string -> bool, freshIds: seq<string>)
    requires |freshIds| == |tasks| && UniqueTaskIds(tasks)
    requires AtMostOneReminderPerTask(snapshot)
    ensures AtMostOneReminderPerTask(snapshot + NewReminders(tasks, snapshot, hoursUntilDue, dueToday, freshIds, ReminderKind))
  {
    var r := NewReminders(tasks, snapshot, hoursUntilDue, dueToday, freshIds, ReminderKind);
    NewRemindersDistinct(tasks, snapshot, hoursUntilDue, dueToday, freshIds, ReminderKind);
    NewRemindersAreNew(tasks, snapshot, hoursUntilDue, dueToday, freshIds, ReminderKind);
    AppendKeepsAtMostOne(snapshot, r);
  }

  /** As written, the lookup searches for a toast type the application never
      creates, so it never finds anything. */
  lemma LookupAsWrittenNeverMatches(toasts: seq<Toast>, taskId: string)
    requires forall k :: 0 <= k < |toasts| ==> IsToastKind(toasts[k].kind)
    ensures !HasReminder(toasts, taskId, LookupKindAsWritten)
  {
  }

  /** As written: a task due in five hours gets a reminder on one run and,
      with that reminder still on screen, a second one on the next run. */
  lemma DuplicateReminderAsWritten()
    ensures var t := Task("t1", "Write report", "", "todo", High, Some("2026-10-18"), [], [], "");
            var hours: string -> Option<int> := (d: string) => Some(5);
            var today: string -> bool := (d: string) => false;
            var first := NewReminders([t], [], hours, today, ["a"], LookupKindAsWritten);
            var second := NewReminders([t], first, hours, today, ["b"], LookupKindAsWritten);
            && AtMostOneReminderPerTask(first)
            && !AtMostOneReminderPerTask(first + second)
  {
    var t := Task("t1", "Write report", "", "todo", High, Some("2026-10-18"), [], [], "");
    var hours: string -> Option<int> := (d: string) => Some(5);
    var today: string -> bool := (d: string) => false;
    var first := NewReminders([t], [], hours, today, ["a"], LookupKindAsWritten);
    assert [t][..0] == [];
    assert first == [ReminderToast(t, "a", today)];
    var second := NewReminders([t], first, hours, today, ["b"], LookupKindAsWritten);
    assert !HasReminder(first, "t1", LookupKindAsWritten);
    assert second == [ReminderToast(t, "b", today)];
    var both: seq<Toast> := first + second;
    assert both[0].taskId == both[1].taskId;
  }
}
