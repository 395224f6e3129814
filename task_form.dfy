/** The task editor of src/components/TaskModal.jsx: the form's fields, the
    handlers that change them, and the payload it hands to the board on
    submit. Fresh subtask ids are passed in. */
module TaskEditor {
  import opened Optional
  import opened Seqs
  import opened Text
  import opened Kanban

  // ---------------------------------------------------------------------------
  // Tag colours (TAG_COLORS)
  // ---------------------------------------------------------------------------

  const TagColors: seq<string> := ["purple", "blue", "green", "orange", "pink", "cyan"]

  /** The colour of the tag added when the list already holds `count`
      tags: the colours are handed out round-robin. */
  function TagColor(count: nat): (c: string)
    ensures c in TagColors
  {
    TagColors[count % |TagColors|]
  }

  /** Two counts less than six apart fall on different positions of the
      colour list. */
  lemma {:induction false} CloseCountsDiffer(i: nat, j: nat)
    requires i < j < i + |TagColors|
    ensures i % |TagColors| != j % |TagColors|
  {
    var q, r := i / 6, i % 6;
    assert i == 6 * q + r;
    if r + (j - i) < 6 {
      assert j == 6 * q + (r + (j - i));
    } else {
      assert j == 6 * (q + 1) + (r + (j - i) - 6);
    }
  }

  /** Six tags added one after another get six different colours, and the
      seventh repeats the first. */
  lemma TagColorsRoundRobin(n: nat)
    ensures forall i, j :: n <= i < j < n + |TagColors| ==> TagColor(i) != TagColor(j)
    ensures TagColor(n + |TagColors|) == TagColor(n)
  {
    assert (n + 6) % 6 == n % 6;
    forall i, j | n <= i < j < n + |TagColors| ensures TagColor(i) != TagColor(j) {
      CloseCountsDiffer(i, j);
      var a, b := i % 6, j % 6;
      assert TagColors[a][0] != TagColors[b][0] || TagColors[a][1] != TagColors[b][1];
    }
  }

  // ---------------------------------------------------------------------------
  // Submit (handleSubmit)
  // ---------------------------------------------------------------------------

  /** What the due-date input shows for a stored due date: the date, or the
      empty string when there is none. */
  function DueInput(dueDate: Option<string>): string {
    if dueDate.Some? then dueDate.value else ""
  }

  /** The payload `handleSubmit` hands to the board, or `None` when it
      returns early because the title is blank. The title and description
      are trimmed, an empty due date is sent as absent, and the priority,
      tags and subtasks are sent as they are. */
  function SubmitPayload(title: string, description: string, priority: Priority, dueDate: string,
                         tags: seq<Tag>, subtasks: seq<Subtask>): (r: Option<TaskData>)
    ensures r.None? <==> forall k :: 0 <= k < |title| ==> IsSpace(title[k])
    ensures r.Some? ==> r.value.title != [] && Trim(r.value.title) == r.value.title
    ensures r.Some? ==> Trim(r.value.description) == r.value.description
    ensures r.Some? ==> r.value.title == Trim(title) && r.value.description == Trim(description)
    ensures r.Some? ==> (r.value.dueDate.None? <==> dueDate == "")
    ensures r.Some? ==> DueInput(r.value.dueDate) == dueDate
    ensures r.Some? ==> r.value.priority == priority && r.value.tags == tags && r.value.subtasks == subtasks
  {
    if IsBlank(title) then None
    else
      TrimIdempotent(title);
      TrimIdempotent(description);
      Some(TaskData(Trim(title), Trim(description), priority,
                    if dueDate == "" then None else Some(dueDate), tags, subtasks))
  }

  /** Opening the editor on a task and submitting it unchanged gives back
      the task's own fields, as long as its title is non-blank, its title and
      description carry no surrounding white space and its due date is not
      the empty string. */
  lemma SubmitUnchangedRoundTrip(t: Task)
    requires Trim(t.title) == t.title && t.title != []
    requires Trim(t.description) == t.description
    requires t.dueDate != Some("")
    ensures SubmitPayload(t.title, t.description, t.priority, DueInput(t.dueDate), t.tags, t.subtasks)
            == Some(TaskData(t.title, t.description, t.priority, t.dueDate, t.tags, t.subtasks))
  {
    assert !IsBlank(t.title);
    var due := if DueInput(t.dueDate) == "" then None else Some(DueInput(t.dueDate));
    assert due == t.dueDate;
  }

  // ---------------------------------------------------------------------------
  // Subtasks
  // ---------------------------------------------------------------------------

  function SubtaskHasId(id: string): Subtask -> bool { (s: Subtask) => s.id == id }
  function SubtaskLacksId(id: string): Subtask -> bool { (s: Subtask) => s.id != id }
  function Flip(): Subtask -> Subtask { (s: Subtask) => s.(completed := !s.completed) }
  function IsDone(): Subtask -> bool { (s: Subtask) => s.completed }

  /** The list after `handleToggleSubtask(id)`: the subtasks with the id flip
      their `completed` flag; nothing else changes. */
  function Toggled(subtasks: seq<Subtask>, id: string): (r: seq<Subtask>)
    ensures |r| == |subtasks|
    ensures forall k :: 0 <= k < |subtasks| ==>
              r[k].id == subtasks[k].id && r[k].text == subtasks[k].text &&
              (r[k].completed <==> (subtasks[k].completed != (subtasks[k].id == id)))
  {
    MapWhere(subtasks, SubtaskHasId(id), Flip())
  }

  /** Toggling the same subtask twice restores the list. */
  lemma ToggleTwice(subtasks: seq<Subtask>, id: string)
    ensures Toggled(Toggled(subtasks, id), id) == subtasks
  {
    MapWhereTwice(subtasks, SubtaskHasId(id), Flip());
  }

  /** The list after `handleDeleteSubtask(id)`: no subtask with the id is
      left and every other one is kept, in order. */
  function WithoutSubtask(subtasks: seq<Subtask>, id: string): (r: seq<Subtask>)
    ensures forall k :: 0 <= k < |r| ==> r[k].id != id && r[k] in subtasks
    ensures forall k :: 0 <= k < |subtasks| && subtasks[k].id != id ==> subtasks[k] in r
    ensures IsSubseq(r, subtasks)
  {
    FilterIsSubseq(subtasks, SubtaskLacksId(id));
    Filter(subtasks, SubtaskLacksId(id))
  }

  /** `completedCount`: how many subtasks are ticked. */
  function CompletedCount(subtasks: seq<Subtask>): (n: nat)
    ensures n <= |subtasks|
    ensures n == 0 <== forall k :: 0 <= k < |subtasks| ==> !subtasks[k].completed
    ensures n == |subtasks| <== forall k :: 0 <= k < |subtasks| ==> subtasks[k].completed
  {
    var n := |Filter(subtasks, IsDone())|;
    assert n == |subtasks| <== forall k :: 0 <= k < |subtasks| ==> subtasks[k].completed by {
      if forall k :: 0 <= k < |subtasks| ==> subtasks[k].completed {
        FilterKeepsAll(subtasks, IsDone());
      }
    }
    assert n == 0 <== forall k :: 0 <= k < |subtasks| ==> !subtasks[k].completed by {
      var done := Filter(subtasks, IsDone());
      if done != [] {
        assert done[0] in subtasks && done[0].completed;
      }
    }
    n
  }

  /** A newly added subtask is not ticked, so the count stays. */
  lemma AddSubtaskKeepsCount(subtasks: seq<Subtask>, s: Subtask)
    requires !s.completed
    ensures CompletedCount(subtasks + [s]) == CompletedCount(subtasks)
  {
    FilterSnoc(subtasks, s, IsDone());
  }

  /** Toggling a subtask whose id no other subtask shares moves the count by
      exactly one: down if it was ticked, up if it was not. */
  lemma {:induction false} ToggleMovesCountByOne(subtasks: seq<Subtask>, id: string, i: nat)
    requires i < |subtasks| && subtasks[i].id == id
    requires forall k :: 0 <= k < |subtasks| && k != i ==> subtasks[k].id != id
    ensures CompletedCount(Toggled(subtasks, id)) == CompletedCount(subtasks) + (if subtasks[i].completed then -1 else 1)
    decreases i
  {
    var rest := subtasks[1..];
    var toggled := Toggled(subtasks, id);
    assert toggled == [toggled[0]] + Toggled(rest, id);
    assert ([toggled[0]] + Toggled(rest, id))[1..] == Toggled(rest, id);
    assert subtasks == [subtasks[0]] + rest;
    if i == 0 {
      assert Toggled(rest, id) == rest;
    } else {
      ToggleMovesCountByOne(rest, id, i - 1);
    }
  }

  /** A snapshot of the editor's fields. */
  datatype FormState = FormState(
    title: string,
    description: string,
    priority: Priority,
    dueDate: string,
    tags: seq<Tag>,
    tagInput: string,
    subtasks: seq<Subtask>,
    newSubtask: string)

  class TaskForm {
    var title: string
    var description: string
    var priority: Priority
    var dueDate: string
    var tags: seq<Tag>
    var tagInput: string
    var subtasks: seq<Subtask>
    var newSubtask: string

    /** The editor opened on `task`, or empty for a new task: priority
        `medium`, no due date, no tags, no subtasks. */
    constructor (task: Option<Task>)
      ensures task.Some? ==> title == task.value.title && description == task.value.description
      ensures task.Some? ==> priority == task.value.priority && dueDate == DueInput(task.value.dueDate)
      ensures task.Some? ==> tags == task.value.tags && subtasks == task.value.subtasks
      ensures task.None? ==> title == "" && description == "" && priority == Medium && dueDate == ""
      ensures task.None? ==> tags == [] && subtasks == []
      ensures tagInput == "" && newSubtask == ""
    {
      if task.Some? {
        title := task.value.title;
        description := task.value.description;
        priority := task.value.priority;
        dueDate := DueInput(task.value.dueDate);
        tags := task.value.tags;
        subtasks := task.value.subtasks;
      } else {
        title := "";
        description := "";
        priority := Medium;
        dueDate := "";
        tags := [];
        subtasks := [];
      }
      tagInput := "";
      newSubtask := "";
    }

    /** `handleSubmit`: the payload, or `None` when the title is blank. */
    method Submit() returns (r: Option<TaskData>)
      ensures r == SubmitPayload(title, description, priority, dueDate, tags, subtasks)
    {
      if IsBlank(title) {
        return None;
      }
      TrimIdempotent(title);
      TrimIdempotent(description);
      var due := if dueDate == "" then None else Some(dueDate);
      r := Some(TaskData(Trim(title), Trim(description), priority, due, tags, subtasks));
    }

    /** All of the editor's fields at once. */
    function State(): FormState
      reads this
    {
      FormState(title, description, priority, dueDate, tags, tagInput, subtasks, newSubtask)
    }

    /** `handleAddTag`: on Enter with a non-blank input, a tag with the
        trimmed text and the next round-robin colour is appended and the
        input is cleared; otherwise nothing changes. */
    method AddTag(key: string)
      modifies this
      ensures State() == if key == "Enter" && !IsBlank(old(tagInput))
                         then old(State()).(tags := old(tags) + [Tag(Trim(old(tagInput)), TagColor(|old(tags)|))], tagInput := "")
                         else old(State())
    {
      if key == "Enter" && !IsBlank(tagInput) {
        var newTag := Tag(Trim(tagInput), TagColor(|tags|));
        tags := tags + [newTag];
        tagInput := "";
      }
    }

    /** `handleRemoveTag`: the tag at `index` is dropped; an index outside
        the list changes nothing. */
    method RemoveTag(index: int)
      modifies this
      ensures 0 <= index < |old(tags)| ==> tags == old(tags)[..index] + old(tags)[index + 1..]
      ensures State() == old(State()).(tags := WithoutIndex(old(tags), index))
    {
      tags := WithoutIndex(tags, index);
    }

    /** `handleAddSubtask`: a non-blank input becomes an unticked subtask
        with the trimmed text and the fresh id `freshId`, and the input is
        cleared; a blank input changes nothing (it is not cleared). */
    method AddSubtask(freshId: string)
      modifies this
      ensures State() == if !IsBlank(old(newSubtask))
                         then old(State()).(subtasks := old(subtasks) + [Subtask(freshId, Trim(old(newSubtask)), false)],
                                            newSubtask := "")
                         else old(State())
      ensures CompletedCount(subtasks) == CompletedCount(old(subtasks))
    {
      if IsBlank(newSubtask) {
        return;
      }
      var subtask := Subtask(freshId, Trim(newSubtask), false);
      AddSubtaskKeepsCount(subtasks, subtask);
      subtasks := subtasks + [subtask];
      newSubtask := "";
    }

    /** `handleToggleSubtask`. */
    method ToggleSubtask(id: string)
      modifies this
      ensures State() == old(State()).(subtasks := Toggled(old(subtasks), id))
    {
      subtasks := MapWhere(subtasks, SubtaskHasId(id), Flip());
    }

    /** `handleDeleteSubtask`. */
    method DeleteSubtask(id: string)
      modifies this
      ensures State() == old(State()).(subtasks := WithoutSubtask(old(subtasks), id))
    {
      subtasks := Filter(subtasks, SubtaskLacksId(id));
    }
  }
}
