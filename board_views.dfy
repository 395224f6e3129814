/** What the board derives from its task list without changing it
    (src/App.jsx): the search/priority/tag filter, the per-column task lists,
    the counters in the toolbar and the list of tag texts offered by the tag
    filter. */
module BoardViews {
  import opened Seqs
  import opened Text
  import opened Kanban
  import opened BoardRules

  // ---------------------------------------------------------------------------
  // Filtering (filteredTasks, getColumnTasks)
  // ---------------------------------------------------------------------------

  /** The priority dropdown: `all` or one priority. */
  datatype PriorityFilter = AnyPriority | OnlyPriority(priority: Priority)

  /** The toolbar's filter state. The tag dropdown holds the text `all` or a
      tag text, as a plain string. */
  datatype Filters = Filters(searchQuery: string, priorityFilter: PriorityFilter, tagFilter: string)

  /** The tag dropdown's "no filter" value. */
  const AllTagsValue: string := "all"

  const NoFilters: Filters := Filters("", AnyPriority, AllTagsValue)

  /** The lower-cased query occurs in the lower-cased title, description or
      text of one of the tags. */
  predicate MatchesSearch(t: Task, query: string) {
    || Includes(Lower(t.title), query)
    || Includes(Lower(t.description), query)
    || exists k :: 0 <= k < |t.tags| && Includes(Lower(t.tags[k].text), query)
  }

  predicate HasTagText(t: Task, text: string) {
    exists k :: 0 <= k < |t.tags| && t.tags[k].text == text
  }

  /** The three conditions of the filter, each skipped when its input is
      empty or `all`. */
  predicate Keep(t: Task, f: Filters) {
    && (f.searchQuery != "" ==> MatchesSearch(t, Lower(f.searchQuery)))
    && (f.priorityFilter.OnlyPriority? ==> t.priority == f.priorityFilter.priority)
    && (f.tagFilter != AllTagsValue ==> HasTagText(t, f.tagFilter))
  }

  function Keeps(f: Filters): Task -> bool { (t: Task) => Keep(t, f) }

  /** `filteredTasks`: the tasks meeting all three conditions, in board
      order. */
  function FilteredTasks(tasks: seq<Task>, f: Filters): (r: seq<Task>)
    ensures forall k :: 0 <= k < |r| ==> Keep(r[k], f) && r[k] in tasks
    ensures forall k :: 0 <= k < |tasks| && Keep(tasks[k], f) ==> tasks[k] in r
    ensures IsSubseq(r, tasks)
  {
    FilterIsSubseq(tasks, Keeps(f));
    Filter(tasks, Keeps(f))
  }

  /** A task whose title contains the query as typed is shown by a search
      for it, whatever the case of the letters in both. */
  lemma SearchFindsTitle(tasks: seq<Task>, query: string, k: nat)
    requires k < |tasks| && Includes(tasks[k].title, query)
    ensures tasks[k] in FilteredTasks(tasks, Filters(query, AnyPriority, AllTagsValue))
  {
    LowerKeepsIncludes(tasks[k].title, query);
    assert Keep(tasks[k], Filters(query, AnyPriority, AllTagsValue));
  }

  lemma FilteredTasksIdempotent(tasks: seq<Task>, f: Filters)
    ensures FilteredTasks(FilteredTasks(tasks, f), f) == FilteredTasks(tasks, f)
  {
    FilterIdempotent(tasks, Keeps(f));
  }

  /** An empty query with both dropdowns on `all` shows every task. (A tag
      whose text is `all` therefore cannot be selected: choosing it sets the
      dropdown to the no-filter value.) */
  lemma NoFiltersKeepsAll(tasks: seq<Task>)
    ensures FilteredTasks(tasks, NoFilters) == tasks
  {
    FilterKeepsAll(tasks, Keeps(NoFilters));
  }

  /** `getColumnTasks(columnId)`: the filtered tasks of one column, in board
      order. */
  function ColumnTasks(tasks: seq<Task>, f: Filters, columnId: string): (r: seq<Task>)
    ensures forall k :: 0 <= k < |r| ==> r[k].columnId == columnId && Keep(r[k], f) && r[k] in tasks
    ensures forall k :: 0 <= k < |tasks| && tasks[k].columnId == columnId && Keep(tasks[k], f) ==>
              tasks[k] in r
    ensures IsSubseq(r, tasks)
  {
    var filtered := FilteredTasks(tasks, f);
    FilterIsSubseq(filtered, InColumn(columnId));
    IsSubseqTransitive(Filter(filtered, InColumn(columnId)), filtered, tasks);
    Filter(filtered, InColumn(columnId))
  }

  // ---------------------------------------------------------------------------
  // Counters (stats)
  // ---------------------------------------------------------------------------

  datatype Stats = Stats(total: nat, completed: nat, inProgress: nat, highPriority: nat)

  predicate IsHighAndOpen(t: Task) { t.priority == High && t.columnId != DoneColumn }
  function HighAndOpen(): Task -> bool { (t: Task) => IsHighAndOpen(t) }

  /** The toolbar counters: all tasks, tasks in `done`, tasks in
      `in-progress`, and high-priority tasks not yet in `done`. A task is
      never counted as both completed and in progress, nor as both completed
      and high-priority. */
  function ComputeStats(tasks: seq<Task>): (s: Stats)
    ensures s.total == |tasks|
    ensures s.completed + s.highPriority <= s.total
    ensures s.completed + s.inProgress <= s.total
  {
    FilterDisjointCount(tasks, InColumn(DoneColumn), HighAndOpen());
    FilterDisjointCount(tasks, InColumn(DoneColumn), InColumn(InProgressColumn));
    Stats(
      |tasks|,
      |Filter(tasks, InColumn(DoneColumn))|,
      |Filter(tasks, InColumn(InProgressColumn))|,
      |Filter(tasks, HighAndOpen())|)
  }

  /** One more task adds one to the total and one to each counter whose
      condition it meets. */
  lemma StatsOfAppend(tasks: seq<Task>, t: Task)
    ensures var before := ComputeStats(tasks);
            var after := ComputeStats(tasks + [t]);
            && after.total == before.total + 1
            && after.completed == before.completed + (if t.columnId == DoneColumn then 1 else 0)
            && after.inProgress == before.inProgress + (if t.columnId == InProgressColumn then 1 else 0)
            && after.highPriority == before.highPriority + (if IsHighAndOpen(t) then 1 else 0)
  {
    FilterSnoc(tasks, t, InColumn(DoneColumn));
    FilterSnoc(tasks, t, InColumn(InProgressColumn));
    FilterSnoc(tasks, t, HighAndOpen());
  }

  // ---------------------------------------------------------------------------
  // Tag texts (allTags)
  // ---------------------------------------------------------------------------

  /** `t.tags.map(tag => tag.text)`: the texts of one task's tags, in tag
      order. */
  function TextsOf(t: Task): (r: seq<string>)
    ensures |r| == |t.tags|
    ensures forall j :: 0 <= j < |r| ==> r[j] == t.tags[j].text
  {
    seq(|t.tags|, j requires 0 <= j < |t.tags| => t.tags[j].text)
  }

  /** `tasks.flatMap(t => t.tags.map(tag => tag.text))`: every tag text, task
      by task, tag by tag. */
  function TagTexts(tasks: seq<Task>): (r: seq<string>)
    ensures forall x :: x in r <==> exists k :: 0 <= k < |tasks| && HasTagText(tasks[k], x)
  {
    if tasks == [] then []
    else
      var own := TextsOf(tasks[0]);
      assert forall x :: HasTagText(tasks[0], x) ==> x in own by {
        forall x | HasTagText(tasks[0], x) ensures x in own {
          var j :| 0 <= j < |tasks[0].tags| && tasks[0].tags[j].text == x;
          assert own[j] == x;
        }
      }
      own + TagTexts(tasks[1..])
  }

  /** A single task contributes its tag texts in tag order. */
  lemma TagTextsOfOne(t: Task)
    ensures TagTexts([t]) == TextsOf(t)
  {
    assert [t][1..] == [];
  }

  /** The texts of two task lists one after the other are the texts of the
      first followed by the texts of the second: the flattening goes task by
      task. */
  lemma {:induction false} TagTextsAppend(a: seq<Task>, b: seq<Task>)
    ensures TagTexts(a + b) == TagTexts(a) + TagTexts(b)
    decreases |a|
  {
    if a == [] {
      assert a + b == b;
    } else {
      assert (a + b)[0] == a[0];
      assert (a + b)[1..] == a[1..] + b;
      TagTextsAppend(a[1..], b);
    }
  }

  /** `allTags`: every tag text that occurs on some task, each once. */
  function AllTags(tasks: seq<Task>): (r: seq<string>)
    ensures NoDups(r)
    ensures forall x :: x in r <==> exists k :: 0 <= k < |tasks| && HasTagText(tasks[k], x)
  {
    var texts := TagTexts(tasks);
    var r := Dedup(texts);
    assert forall x :: x in r <==> x in texts by {
      forall x | x in texts ensures x in r {
        var k :| 0 <= k < |texts| && texts[k] == x;
      }
    }
    r
  }

  /** The tag texts are listed in the order they first occur on the board. */
  lemma AllTagsFirstOccurrenceOrder(tasks: seq<Task>)
    ensures forall i, j :: 0 <= i < j < |AllTags(tasks)| ==>
              FirstIndex(TagTexts(tasks), AllTags(tasks)[i]) < FirstIndex(TagTexts(tasks), AllTags(tasks)[j])
  {
    DedupFirstOccurrenceOrder(TagTexts(tasks));
  }

  /** Choosing an offered tag other than `all` shows exactly the tasks that
      carry it, and at least one task. */
  lemma OfferedTagSelectsTasks(tasks: seq<Task>, text: string)
    requires text in AllTags(tasks) && text != AllTagsValue
    ensures var r := FilteredTasks(tasks, Filters("", AnyPriority, text));
            && r != []
            && forall k :: 0 <= k < |r| ==> HasTagText(r[k], text)
  {
    var k :| 0 <= k < |tasks| && HasTagText(tasks[k], text);
    assert Keep(tasks[k], Filters("", AnyPriority, text));
  }
}
