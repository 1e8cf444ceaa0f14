/** `getFilteredTasks`: the tasks listed for the selected day under the
    active filter button. */
module TaskFilter {
  import opened Seqs
  import opened Tasks

  /** Whether the list shows task `t` for day `selected` under filter `tag`,
      stated in one step: "completed" and "pending" test the completion flag,
      "all" nothing more, and any other tag is compared with the priority. */
  predicate Shown(t: Task, selected: Date, tag: string)
  {
    && t.date == selected
    && (if tag == "completed" then t.completed
        else if tag == "pending" then !t.completed
        else tag == "all" || t.priority == tag)
  }

  function ShownUnder(selected: Date, tag: string): Task -> bool
  {
    (t: Task) => Shown(t, selected, tag)
  }

  /** The component's two-stage selection, first the day and then the tag, is
      the one-step selection by `Shown`. */
  function FilteredTasks(tasks: seq<Task>, selected: Date, tag: string): (r: seq<Task>)
    ensures r == Filter(tasks, ShownUnder(selected, tag))
    ensures forall i :: 0 <= i < |r| ==> r[i].date == selected
  {
    var onDate := Filter(tasks, OnDate(selected));
    var r :=
      if tag == "completed" then Filter(onDate, IsDone)
      else if tag == "pending" then Filter(onDate, IsPending)
      else if tag != "all" then Filter(onDate, HasPriority(tag))
      else onDate;
    FilteredIsOnePass(tasks, selected, tag);
    r
  }

  lemma FilteredIsOnePass(tasks: seq<Task>, selected: Date, tag: string)
    ensures Filter(tasks, ShownUnder(selected, tag)) ==
      var onDate := Filter(tasks, OnDate(selected));
      if tag == "completed" then Filter(onDate, IsDone)
      else if tag == "pending" then Filter(onDate, IsPending)
      else if tag != "all" then Filter(onDate, HasPriority(tag))
      else onDate
  {
    var p := OnDate(selected);
    if tag == "completed" {
      FilterFilter(tasks, p, IsDone, ShownUnder(selected, tag));
    } else if tag == "pending" {
      FilterFilter(tasks, p, IsPending, ShownUnder(selected, tag));
    } else if tag != "all" {
      FilterFilter(tasks, p, HasPriority(tag), ShownUnder(selected, tag));
    } else {
      FilterExt(tasks, p, ShownUnder(selected, tag));
    }
  }

  /** Membership tag by tag: every occurrence of a task meeting the tag's
      test on the selected day is listed, and nothing else. */
  lemma FilteredMembers(tasks: seq<Task>, selected: Date, tag: string, t: Task)
    ensures var r := FilteredTasks(tasks, selected, tag);
            && (tag == "all" ==>
                  multiset(r)[t] == if t.date == selected then multiset(tasks)[t] else 0)
            && (tag == "completed" ==>
                  multiset(r)[t] == if t.date == selected && t.completed then multiset(tasks)[t] else 0)
            && (tag == "pending" ==>
                  multiset(r)[t] == if t.date == selected && !t.completed then multiset(tasks)[t] else 0)
            && (tag != "all" && tag != "completed" && tag != "pending" ==>
                  multiset(r)[t] == if t.date == selected && t.priority == tag then multiset(tasks)[t] else 0)
  {
    FilterMultiset(tasks, ShownUnder(selected, tag));
  }

  /** The filtered list keeps the tasks' order. */
  lemma FilteredIsSubseq(tasks: seq<Task>, selected: Date, tag: string)
    ensures IsSubseq(FilteredTasks(tasks, selected, tag), tasks)
  {
    FilterIsSubseq(tasks, ShownUnder(selected, tag));
  }

  /** On any day, the completed and the pending views split the "all" view. */
  lemma CompletedPlusPending(tasks: seq<Task>, selected: Date)
    ensures |FilteredTasks(tasks, selected, "completed")| + |FilteredTasks(tasks, selected, "pending")|
            == |FilteredTasks(tasks, selected, "all")|
  {
    FilterComplement(Filter(tasks, OnDate(selected)), IsDone, IsPending);
  }

  /** The view under a priority tag never lists more than the "all" view. */
  lemma PriorityViewWithinAll(tasks: seq<Task>, selected: Date, tag: string)
    ensures |FilteredTasks(tasks, selected, tag)| <= |FilteredTasks(tasks, selected, "all")|
  {
    FilterMonotone(tasks, ShownUnder(selected, tag), ShownUnder(selected, "all"));
  }
}
