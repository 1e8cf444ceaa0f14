/** Worked streak cases on concrete lists. Days are numbered from
    1970-01-01, so 19723 is 2024-01-01. */
module StreakExamples {
  import opened Seqs
  import opened Tasks
  import opened Streaks

  const Jan1: Date := 19723
  const Jan2: Date := 19724
  const Jan3: Date := 19725

  function Item(id: int, d: Date, done: bool): Task
  {
    Task(id, "task", d, "medium", done, "")
  }

  lemma OneDay(t: Task)
    ensures DatesNewestFirst([t]) == [t.date]
  {
    assert [t][..0] == [];
  }

  /** Days of a list whose last task is on a newer day than the rest. */
  lemma NewerLast(tasks: seq<Task>, t: Task, ds: seq<Date>)
    requires DatesNewestFirst(tasks) == ds
    requires |ds| > 0 && t.date > ds[0]
    ensures DatesNewestFirst(tasks + [t]) == [t.date] + ds
  {
    assert (tasks + [t])[..|tasks|] == tasks;
  }

  /** Days of a list whose last task is on the newest day of the rest. */
  lemma SameDayLast(tasks: seq<Task>, t: Task, ds: seq<Date>)
    requires DatesNewestFirst(tasks) == ds
    requires |ds| > 0 && t.date == ds[0]
    ensures DatesNewestFirst(tasks + [t]) == ds
  {
    assert (tasks + [t])[..|tasks|] == tasks;
  }

  /** Two consecutive completed days, the newer one being today: both count. */
  lemma TwoCompletedDays()
    ensures Streak([Item(1, Jan1, true), Item(2, Jan2, true)], Jan2) == 2
  {
    var tasks := [Item(1, Jan1, true), Item(2, Jan2, true)];
    OneDay(Item(1, Jan1, true));
    NewerLast([Item(1, Jan1, true)], Item(2, Jan2, true), [Jan1]);
    assert [Item(1, Jan1, true)] + [Item(2, Jan2, true)] == tasks;
    assert Filter(tasks, OnDate(Jan2)) == [Item(2, Jan2, true)];
    assert DayComplete(tasks, Jan2);
    assert Filter(tasks, OnDate(Jan1)) == [Item(1, Jan1, true)];
    assert DayComplete(tasks, Jan1);
    assert Walk(tasks, [Jan1], Jan2) == 1;
  }

  /** An unfinished task today does not end the walk: today is passed over
      and the completed day before it still counts. */
  lemma UnfinishedTodayIsSkipped()
    ensures Streak([Item(1, Jan1, true), Item(2, Jan2, true), Item(3, Jan2, false)], Jan2) == 1
  {
    var tasks := [Item(1, Jan1, true), Item(2, Jan2, true), Item(3, Jan2, false)];
    UnfinishedTodayDays(tasks);
    assert Walk(tasks, [Jan1], Jan2) == 1;
  }

  lemma UnfinishedTodayDays(tasks: seq<Task>)
    requires tasks == [Item(1, Jan1, true), Item(2, Jan2, true), Item(3, Jan2, false)]
    ensures DatesNewestFirst(tasks) == [Jan2, Jan1]
    ensures !DayComplete(tasks, Jan2) && DayComplete(tasks, Jan1)
  {
    var two := [Item(1, Jan1, true), Item(2, Jan2, true)];
    OneDay(Item(1, Jan1, true));
    NewerLast([Item(1, Jan1, true)], Item(2, Jan2, true), [Jan1]);
    assert [Item(1, Jan1, true)] + [Item(2, Jan2, true)] == two;
    SameDayLast(two, Item(3, Jan2, false), [Jan2, Jan1]);
    assert two + [Item(3, Jan2, false)] == tasks;
    UnfinishedTodayFilters(tasks);
  }

  lemma UnfinishedTodayFilters(tasks: seq<Task>)
    requires tasks == [Item(1, Jan1, true), Item(2, Jan2, true), Item(3, Jan2, false)]
    ensures Filter(tasks, OnDate(Jan2)) == [Item(2, Jan2, true), Item(3, Jan2, false)]
    ensures Filter(tasks, OnDate(Jan1)) == [Item(1, Jan1, true)]
  {
    var t1, t2 := tasks[1..], tasks[2..];
    assert t1 == [Item(2, Jan2, true), Item(3, Jan2, false)];
    assert t2 == t1[1..] == [Item(3, Jan2, false)];
    assert t2[1..] == [];
    assert Filter(t2, OnDate(Jan2)) == [Item(3, Jan2, false)];
    assert Filter(t2, OnDate(Jan1)) == [];
    assert Filter(t1, OnDate(Jan2)) == [Item(2, Jan2, true), Item(3, Jan2, false)];
    assert Filter(t1, OnDate(Jan1)) == [];
  }

  /** A calendar day without tasks is never visited, so it does not break
      the run of the completed days around it. */
  lemma EmptyDayDoesNotBreak()
    ensures Streak([Item(1, Jan1, true), Item(2, Jan3, true)], Jan3) == 2
  {
    var tasks := [Item(1, Jan1, true), Item(2, Jan3, true)];
    OneDay(Item(1, Jan1, true));
    NewerLast([Item(1, Jan1, true)], Item(2, Jan3, true), [Jan1]);
    assert [Item(1, Jan1, true)] + [Item(2, Jan3, true)] == tasks;
    assert Filter(tasks, OnDate(Jan3)) == [Item(2, Jan3, true)];
    assert DayComplete(tasks, Jan3);
    assert Filter(tasks, OnDate(Jan1)) == [Item(1, Jan1, true)];
    assert DayComplete(tasks, Jan1);
    assert Walk(tasks, [Jan1], Jan3) == 1;
  }

  /** The list of the last two cases: completed on the 1st and 3rd, not on
      the 2nd. */
  function GapList(): seq<Task>
  {
    [Item(1, Jan1, true), Item(2, Jan2, false), Item(3, Jan3, true)]
  }

  lemma GapListCompletion()
    ensures DayComplete(GapList(), Jan3) && !DayComplete(GapList(), Jan2) && DayComplete(GapList(), Jan1)
  {
    GapListFilters(GapList());
  }

  lemma GapListDates()
    ensures DatesNewestFirst(GapList()) == [Jan3, Jan2, Jan1]
  {
    var one := [Item(1, Jan1, true)];
    var two := one + [Item(2, Jan2, false)];
    OneDay(Item(1, Jan1, true));
    NewerLast(one, Item(2, Jan2, false), [Jan1]);
    NewerLast(two, Item(3, Jan3, true), [Jan2, Jan1]);
    assert two + [Item(3, Jan3, true)] == GapList();
  }

  lemma GapListFilters(tasks: seq<Task>)
    requires tasks == GapList()
    ensures Filter(tasks, OnDate(Jan3)) == [Item(3, Jan3, true)]
    ensures Filter(tasks, OnDate(Jan2)) == [Item(2, Jan2, false)]
    ensures Filter(tasks, OnDate(Jan1)) == [Item(1, Jan1, true)]
  {
    var t1, t2 := tasks[1..], tasks[2..];
    assert t1 == [Item(2, Jan2, false), Item(3, Jan3, true)];
    assert t2 == t1[1..] == [Item(3, Jan3, true)];
    assert t2[1..] == [];
    assert Filter(t2, OnDate(Jan3)) == [Item(3, Jan3, true)];
    assert Filter(t2, OnDate(Jan2)) == [];
    assert Filter(t2, OnDate(Jan1)) == [];
    assert Filter(t1, OnDate(Jan3)) == [Item(3, Jan3, true)];
    assert Filter(t1, OnDate(Jan2)) == [Item(2, Jan2, false)];
    assert Filter(t1, OnDate(Jan1)) == [];
  }

  /** A completed day after today counts and today's unfinished day is
      passed over. */
  lemma FutureDayCounts()
    ensures Streak(GapList(), Jan2) == 2
  {
    GapListDates();
    GapListCompletion();
    assert Walk(GapList(), [Jan1], Jan2) == 1;
    assert Walk(GapList(), [Jan2, Jan1], Jan2) == 1;
  }

  /** An unfinished day before today stops the walk: the completed day
      behind it is not reached. */
  lemma PastUnfinishedDayStops()
    ensures Streak(GapList(), Jan3) == 1
  {
    GapListDates();
    GapListCompletion();
    assert Walk(GapList(), [Jan2, Jan1], Jan3) == 0;
  }
}
