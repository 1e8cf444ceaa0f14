/** `calculateStreak`: the run of fully completed days, walking the days that
    have tasks from the newest to the oldest. */
module Streaks {
  import opened Seqs
  import opened Tasks

  predicate StrictlyDecreasing(ds: seq<Date>)
  {
    forall i, j :: 0 <= i < j < |ds| ==> ds[i] > ds[j]
  }

  /** The days on which at least one task is scheduled. */
  function DateSet(tasks: seq<Task>): set<Date>
  {
    set t | t in tasks :: t.date
  }

  /** Places `d` into a newest-first list of distinct days. */
  function InsertNewestFirst(ds: seq<Date>, d: Date): (r: seq<Date>)
    requires StrictlyDecreasing(ds)
    ensures StrictlyDecreasing(r)
    ensures forall x :: x in r <==> x in ds || x == d
    ensures |r| == if d in ds then |ds| else |ds| + 1
  {
    if |ds| == 0 then [d]
    else if d == ds[0] then ds
    else if d > ds[0] then [d] + ds
    else
      var rest := InsertNewestFirst(ds[1..], d);
      assert forall k :: 0 <= k < |rest| ==> rest[k] in rest;
      assert forall x :: x in ds[1..] ==> x < ds[0];
      var r := [ds[0]] + rest;
      assert forall j :: 0 < j < |r| ==> r[j] == rest[j - 1];
      r
  }

  /** `[...new Set(tasks.map(t => t.date))].sort().reverse()`: every day that
      has a task, once, newest first. */
  function DatesNewestFirst(tasks: seq<Task>): (r: seq<Date>)
    ensures StrictlyDecreasing(r)
    ensures forall d :: d in r <==> d in DateSet(tasks)
    ensures |r| == |DateSet(tasks)|
  {
    if |tasks| == 0 then []
    else
      var last := tasks[|tasks| - 1];
      var front := tasks[..|tasks| - 1];
      var r := InsertNewestFirst(DatesNewestFirst(front), last.date);
      DateSetSnoc(tasks);
      r
  }

  lemma DateSetSnoc(tasks: seq<Task>)
    requires |tasks| > 0
    ensures var front := DateSet(tasks[..|tasks| - 1]);
            var d := tasks[|tasks| - 1].date;
            && DateSet(tasks) == front + {d}
            && |DateSet(tasks)| == if d in front then |front| else |front| + 1
  {
    var last := tasks[|tasks| - 1];
    var front := tasks[..|tasks| - 1];
    assert tasks == front + [last];
    assert forall t :: t in tasks <==> t in front || t == last;
    assert DateSet(tasks) == DateSet(front) + {last.date};
  }

  /** The day counts toward the streak: it has tasks and all are completed. */
  predicate DayComplete(tasks: seq<Task>, d: Date)
  {
    var day := Filter(tasks, OnDate(d));
    |day| > 0 && forall i :: 0 <= i < |day| ==> day[i].completed
  }

  /** The day ends the walk: not fully completed and strictly before today.
      A day on or after today that is not fully completed is passed over. */
  predicate Breaks(tasks: seq<Task>, today: Date, d: Date)
  {
    !DayComplete(tasks, d) && d < today
  }

  function CompleteDay(tasks: seq<Task>): Date -> bool
  {
    d => DayComplete(tasks, d)
  }

  /** The loop of `calculateStreak` over the days `dates`. */
  function Walk(tasks: seq<Task>, dates: seq<Date>, today: Date): (n: nat)
    ensures n <= |dates|
  {
    if |dates| == 0 then 0
    else if DayComplete(tasks, dates[0]) then 1 + Walk(tasks, dates[1..], today)
    else if dates[0] < today then 0
    else Walk(tasks, dates[1..], today)
  }

  /** The streak shown on the dashboard. It never exceeds the number of days
      that have tasks, so it is 0 for an empty list. */
  function Streak(tasks: seq<Task>, today: Date): (n: nat)
    ensures n <= |DateSet(tasks)|
    ensures |tasks| == 0 ==> n == 0
  {
    Walk(tasks, DatesNewestFirst(tasks), today)
  }

  /** `calculateStreak` as written: a counting loop that leaves at the first
      day that breaks the streak. */
  method CalculateStreak(tasks: seq<Task>, today: Date) returns (streak: nat)
    ensures streak == Streak(tasks, today)
  {
    var dates := DatesNewestFirst(tasks);
    streak := 0;
    var i := 0;
    while i < |dates|
      invariant 0 <= i <= |dates|
      invariant streak + Walk(tasks, dates[i..], today) == Walk(tasks, dates, today)
    {
      var date := dates[i];
      var dayTasks := Filter(tasks, OnDate(date));
      var allCompleted := |dayTasks| > 0 && forall k :: 0 <= k < |dayTasks| ==> dayTasks[k].completed;
      WalkStep(tasks, dates, i, today);
      if allCompleted {
        streak := streak + 1;
      } else if date < today {
        break;
      }
      i := i + 1;
    }
  }

  /** One iteration of the walk from position `i`. */
  lemma WalkStep(tasks: seq<Task>, dates: seq<Date>, i: nat, today: Date)
    requires i < |dates|
    ensures Walk(tasks, dates[i..], today) ==
              if DayComplete(tasks, dates[i]) then 1 + Walk(tasks, dates[i + 1..], today)
              else if dates[i] < today then 0
              else Walk(tasks, dates[i + 1..], today)
  {
    assert dates[i..][0] == dates[i] && dates[i..][1..] == dates[i + 1..];
  }

  /** The walk in closed form: if `k` is the position of the first day that
      breaks the streak (or the end of the list), the walk counts the fully
      completed days before `k` and nothing from `k` on. */
  lemma {:induction false} WalkCountsUpToFirstBreak(tasks: seq<Task>, dates: seq<Date>, today: Date, k: nat)
    requires k <= |dates|
    requires forall j :: 0 <= j < k ==> !Breaks(tasks, today, dates[j])
    requires k == |dates| || Breaks(tasks, today, dates[k])
    ensures Walk(tasks, dates, today) == |Filter(dates[..k], CompleteDay(tasks))|
  {
    if k == 0 {
      assert dates[..0] == [];
    } else {
      WalkCountsUpToFirstBreak(tasks, dates[1..], today, k - 1);
      assert dates[1..][..k - 1] == dates[..k][1..];
    }
  }

  /** The streak in closed form over the newest-first days: it counts exactly
      the fully completed days newer than the first day strictly before today
      that is not fully completed. Days on or after today that are not fully
      completed do not stop the count, and days without tasks are never
      visited. */
  lemma StreakCountsUpToFirstBreak(tasks: seq<Task>, today: Date, ds: seq<Date>, k: nat)
    requires ds == DatesNewestFirst(tasks)
    requires k <= |ds|
    requires forall j :: 0 <= j < k ==> !Breaks(tasks, today, ds[j])
    requires k == |ds| || Breaks(tasks, today, ds[k])
    ensures Streak(tasks, today) == |Filter(ds[..k], CompleteDay(tasks))|
  {
    WalkCountsUpToFirstBreak(tasks, ds, today, k);
  }

  /** A day that has a task has at least one task on it. */
  lemma DayOfTask(tasks: seq<Task>, d: Date)
    requires d in DateSet(tasks)
    ensures |Filter(tasks, OnDate(d))| > 0
  {
    var t :| t in tasks && t.date == d;
    FilterMultiset(tasks, OnDate(d));
    assert multiset(Filter(tasks, OnDate(d)))[t] > 0;
  }

  /** When every task is completed, every day that has tasks counts. */
  lemma StreakAllCompleted(tasks: seq<Task>, today: Date)
    requires forall i :: 0 <= i < |tasks| ==> tasks[i].completed
    ensures Streak(tasks, today) == |DateSet(tasks)|
  {
    var ds := DatesNewestFirst(tasks);
    forall j | 0 <= j < |ds|
      ensures DayComplete(tasks, ds[j])
    {
      DayOfTask(tasks, ds[j]);
    }
    AllCompleteWalk(tasks, ds, today);
  }

  lemma {:induction false} AllCompleteWalk(tasks: seq<Task>, dates: seq<Date>, today: Date)
    requires forall j :: 0 <= j < |dates| ==> DayComplete(tasks, dates[j])
    ensures Walk(tasks, dates, today) == |dates|
  {
    if |dates| > 0 {
      AllCompleteWalk(tasks, dates[1..], today);
    }
  }
}
