/** The task record kept by TaskFlow and the selections made over it. */
module Tasks {
  import opened Seqs

  /** A calendar day as a day number. TaskFlow stores `YYYY-MM-DD` strings;
      their lexicographic order is their chronological order, which is the
      only thing the component compares them by. */
  type Date = int

  /** One to-do item. `id` is the creation timestamp in milliseconds, `title`
      the text as typed, `priority` the value of the priority selector
      ("low", "medium" or "high" for tasks created through the form). */
  datatype Task = Task(
    id: int,
    title: string,
    date: Date,
    priority: string,
    completed: bool,
    createdAt: string)

  predicate IsDone(t: Task)
  {
    t.completed
  }

  predicate IsPending(t: Task)
  {
    !t.completed
  }

  function OnDate(d: Date): Task -> bool
  {
    (t: Task) => t.date == d
  }

  function HasPriority(p: string): Task -> bool
  {
    (t: Task) => t.priority == p
  }

  function HasId(id: int): Task -> bool
  {
    (t: Task) => t.id == id
  }

  function IdDiffers(id: int): Task -> bool
  {
    (t: Task) => t.id != id
  }

  /** No two tasks share an id. */
  predicate UniqueIds(tasks: seq<Task>)
  {
    forall i, j :: 0 <= i < j < |tasks| ==> tasks[i].id != tasks[j].id
  }

  predicate HasTaskWithId(tasks: seq<Task>, id: int)
  {
    exists i :: 0 <= i < |tasks| && tasks[i].id == id
  }

  /** Selecting tasks keeps their ids distinct. */
  lemma {:induction false} FilterKeepsUniqueIds(tasks: seq<Task>, p: Task -> bool)
    requires UniqueIds(tasks)
    ensures UniqueIds(Filter(tasks, p))
  {
    if |tasks| > 0 {
      var rest := Filter(tasks[1..], p);
      FilterKeepsUniqueIds(tasks[1..], p);
      if p(tasks[0]) {
        NotAmongLater(tasks, rest);
        ConsUniqueIds(tasks[0], rest);
        assert Filter(tasks, p) == [tasks[0]] + rest;
      }
    }
  }

  lemma NotAmongLater(tasks: seq<Task>, later: seq<Task>)
    requires UniqueIds(tasks) && |tasks| > 0
    requires forall k :: 0 <= k < |later| ==> later[k] in tasks[1..]
    ensures forall k :: 0 <= k < |later| ==> later[k].id != tasks[0].id
  {
    forall k | 0 <= k < |later|
      ensures later[k].id != tasks[0].id
    {
      var m :| 0 <= m < |tasks| - 1 && tasks[1..][m] == later[k];
      assert tasks[m + 1] == later[k];
    }
  }

  lemma ConsUniqueIds(t: Task, rest: seq<Task>)
    requires UniqueIds(rest)
    requires forall k :: 0 <= k < |rest| ==> rest[k].id != t.id
    ensures UniqueIds([t] + rest)
  {
    var r := [t] + rest;
    forall i, j | 0 <= i < j < |r|
      ensures r[i].id != r[j].id
    {
      assert r[j] == rest[j - 1];
      if i > 0 {
        assert r[i] == rest[i - 1];
      }
    }
  }

  /** With distinct ids, at most one task carries a given id, and exactly one
      when some task does. */
  lemma {:induction false} UniqueIdCount(tasks: seq<Task>, id: int)
    requires UniqueIds(tasks)
    ensures |Filter(tasks, HasId(id))| == (if HasTaskWithId(tasks, id) then 1 else 0)
  {
    if |tasks| > 0 {
      UniqueIdCount(tasks[1..], id);
      if tasks[0].id == id {
        assert !HasTaskWithId(tasks[1..], id);
      } else if HasTaskWithId(tasks, id) {
        var i :| 0 <= i < |tasks| && tasks[i].id == id;
        assert tasks[1..][i - 1].id == id;
      }
    }
  }
}
