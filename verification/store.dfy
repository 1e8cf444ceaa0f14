/** The three mutations of TaskFlow's task list. Each returns the new list;
    saving it (React state plus the browser store) is not modelled. */
module TaskStore {
  import opened Seqs
  import opened Text
  import opened Tasks

  /** `addTask`: a title that is blank once trimmed is refused and the list is
      returned as it was; otherwise a fresh, not yet completed task is
      appended, keeping the title exactly as typed. The clock supplies `id`
      and `createdAt`. */
  function AddTask(tasks: seq<Task>, title: string, date: Date, priority: string,
                   id: int, createdAt: string): (r: seq<Task>)
    ensures AllWhiteSpace(title) ==> r == tasks
    ensures !AllWhiteSpace(title) ==>
              && |r| == |tasks| + 1
              && r[..|tasks|] == tasks
              && r[|tasks|] == Task(id, title, date, priority, false, createdAt)
  {
    TrimEmptyIffBlank(title);
    if |Trim(title)| == 0 then tasks
    else tasks + [Task(id, title, date, priority, false, createdAt)]
  }

  function Flip(t: Task, id: int): Task
  {
    if t.id == id then t.(completed := !t.completed) else t
  }

  /** `toggleTask`: the list keeps its length and order; every task keeps all
      its fields but `completed`, which changes exactly on the tasks whose
      id is `id`; an id no task has changes nothing. */
  function ToggleTask(tasks: seq<Task>, id: int): (r: seq<Task>)
    ensures |r| == |tasks|
    ensures forall i :: 0 <= i < |tasks| ==> r[i].(completed := tasks[i].completed) == tasks[i]
    ensures forall i :: 0 <= i < |tasks| ==>
              (r[i].completed != tasks[i].completed <==> tasks[i].id == id)
    ensures !HasTaskWithId(tasks, id) ==> r == tasks
  {
    seq(|tasks|, i requires 0 <= i < |tasks| => Flip(tasks[i], id))
  }

  /** `deleteTask`: exactly the tasks whose id differs from `id` remain,
      each as often as before. */
  function DeleteTask(tasks: seq<Task>, id: int): (r: seq<Task>)
    ensures forall i :: 0 <= i < |r| ==> r[i].id != id
    ensures forall t: Task :: t.id != id ==> multiset(r)[t] == multiset(tasks)[t]
    ensures !HasTaskWithId(tasks, id) ==> r == tasks
  {
    FilterMultiset(tasks, IdDiffers(id));
    FilterAllOrNone(tasks, IdDiffers(id));
    Filter(tasks, IdDiffers(id))
  }

  /** Toggling the same id twice restores the list. */
  lemma ToggleTwice(tasks: seq<Task>, id: int)
    ensures ToggleTask(ToggleTask(tasks, id), id) == tasks
  {
    var once := ToggleTask(tasks, id);
    var twice := ToggleTask(once, id);
    forall i | 0 <= i < |tasks|
      ensures twice[i] == tasks[i]
    {
      assert once[i].id == tasks[i].id;
    }
  }

  /** Toggling keeps ids distinct. */
  lemma ToggleKeepsUniqueIds(tasks: seq<Task>, id: int)
    requires UniqueIds(tasks)
    ensures UniqueIds(ToggleTask(tasks, id))
  {
    var r := ToggleTask(tasks, id);
    assert forall i :: 0 <= i < |tasks| ==> r[i].id == tasks[i].id;
  }

  /** The tasks carrying `id` whose completion flag is `done`. */
  function WithIdAndState(id: int, done: bool): Task -> bool
  {
    (t: Task) => t.id == id && t.completed == done
  }

  /** Toggling moves the completed count down by the completed tasks with
      that id and up by the pending ones; no other task counts differently. */
  lemma {:induction false} ToggleCompletedCount(tasks: seq<Task>, id: int)
    ensures |Filter(ToggleTask(tasks, id), IsDone)|
            == |Filter(tasks, IsDone)|
               - |Filter(tasks, WithIdAndState(id, true))|
               + |Filter(tasks, WithIdAndState(id, false))|
  {
    if |tasks| > 0 {
      var r := ToggleTask(tasks, id);
      ToggleCompletedCount(tasks[1..], id);
      assert ToggleTask(tasks[1..], id) == r[1..];
      assert |Filter(r, IsDone)| == (if r[0].completed then 1 else 0) + |Filter(r[1..], IsDone)|;
      assert |Filter(tasks, IsDone)| == (if tasks[0].completed then 1 else 0) + |Filter(tasks[1..], IsDone)|;
    }
  }

  /** With distinct ids, toggling the task at `k` moves the completed count
      by exactly one, in the direction of its new state. */
  lemma ToggleUniqueCompletedCount(tasks: seq<Task>, k: int)
    requires UniqueIds(tasks) && 0 <= k < |tasks|
    ensures |Filter(ToggleTask(tasks, tasks[k].id), IsDone)|
            == if tasks[k].completed then |Filter(tasks, IsDone)| - 1
               else |Filter(tasks, IsDone)| + 1
  {
    var id := tasks[k].id;
    var c := tasks[k].completed;
    ToggleCompletedCount(tasks, id);
    UniqueIdCount(tasks, id);
    FilterMonotone(tasks, WithIdAndState(id, !c), HasId(id));
    FilterComplement(tasks, WithIdAndState(id, c), (t: Task) => !WithIdAndState(id, c)(t));
    FilterIdSplit(tasks, id);
    assert tasks[k] in Filter(tasks, WithIdAndState(id, c)) by {
      FilterMultiset(tasks, WithIdAndState(id, c));
      assert multiset(tasks)[tasks[k]] > 0;
    }
  }

  /** The tasks with an id are its completed ones plus its pending ones. */
  lemma {:induction false} FilterIdSplit(tasks: seq<Task>, id: int)
    ensures |Filter(tasks, HasId(id))|
            == |Filter(tasks, WithIdAndState(id, true))| + |Filter(tasks, WithIdAndState(id, false))|
  {
    if |tasks| > 0 {
      FilterIdSplit(tasks[1..], id);
    }
  }

  /** Deleting only removes tasks: what remains is in the original order. */
  lemma DeleteKeepsOrder(tasks: seq<Task>, id: int)
    ensures IsSubseq(DeleteTask(tasks, id), tasks)
  {
    FilterIsSubseq(tasks, IdDiffers(id));
  }

  /** With distinct ids, deleting an existing id removes exactly one task,
      and the ids stay distinct. */
  lemma DeleteUnique(tasks: seq<Task>, id: int)
    requires UniqueIds(tasks)
    ensures UniqueIds(DeleteTask(tasks, id))
    ensures |DeleteTask(tasks, id)| == (if HasTaskWithId(tasks, id) then |tasks| - 1 else |tasks|)
  {
    FilterKeepsUniqueIds(tasks, IdDiffers(id));
    FilterComplement(tasks, HasId(id), IdDiffers(id));
    UniqueIdCount(tasks, id);
  }

  /** A task added under an id no task has keeps ids distinct. */
  lemma AddKeepsUniqueIds(tasks: seq<Task>, title: string, date: Date, priority: string,
                          id: int, createdAt: string)
    requires UniqueIds(tasks) && !HasTaskWithId(tasks, id)
    ensures UniqueIds(AddTask(tasks, title, date, priority, id, createdAt))
  {
    var r := AddTask(tasks, title, date, priority, id, createdAt);
    if !AllWhiteSpace(title) {
      forall i, j | 0 <= i < j < |r|
        ensures r[i].id != r[j].id
      {
        assert r[i] == tasks[i];
        if j < |tasks| {
          assert r[j] == tasks[j];
        }
      }
    }
  }

  /** A task added to the list is pending, so the completed count is
      unchanged while the total grows by one. */
  lemma AddCompletedCount(tasks: seq<Task>, title: string, date: Date, priority: string,
                          id: int, createdAt: string)
    ensures var r := AddTask(tasks, title, date, priority, id, createdAt);
            |Filter(r, IsDone)| == |Filter(tasks, IsDone)|
  {
    var r := AddTask(tasks, title, date, priority, id, createdAt);
    if !AllWhiteSpace(title) {
      assert r == tasks + [r[|tasks|]];
      FilterAppend(tasks, [r[|tasks|]], IsDone);
    }
  }
}
