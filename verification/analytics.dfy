/** `getAnalytics`: the dashboard figures derived from the task list. */
module Analytics {
  import opened Seqs
  import opened Tasks
  import opened Streaks

  /** `rate` is `completed / total` as a whole percentage rounded half up,
      the way `Math.round` rounds; an empty denominator gives 0. */
  predicate IsRoundedPercent(rate: int, completed: int, total: int)
  {
    if total == 0 then rate == 0
    else total * (2 * rate - 1) <= 200 * completed < total * (2 * rate + 1)
  }

  /** `total ? Math.round((completed / total) * 100) : 0`, in exact arithmetic. */
  function Rate(completed: nat, total: nat): (r: nat)
    ensures IsRoundedPercent(r, completed, total)
    ensures completed <= total ==> r <= 100
    ensures completed == 0 ==> r == 0
    ensures 0 < total && completed == total ==> r == 100
  {
    if total == 0 then 0
    else
      var r := (200 * completed + total) / (2 * total);
      RoundHalfUp(completed, total, r);
      RoundedPercentBounds(r, completed, total);
      r
  }

  /** Flooring `(200 * completed + total) / (2 * total)` rounds the
      percentage half up. */
  lemma RoundHalfUp(completed: nat, total: nat, q: int)
    requires total > 0 && q == (200 * completed + total) / (2 * total)
    ensures IsRoundedPercent(q, completed, total)
  {
    var n := 200 * completed + total;
    var d := 2 * total;
    assert d * q <= n < d * q + d by {
      assert n == d * q + n % d;
    }
    assert total * (2 * q - 1) == d * q - total;
    assert total * (2 * q + 1) == d * q + total;
  }

  /** A rounded percentage of a part of a whole lies in [0, 100]; it is 0 for
      an empty part and 100 for the whole. */
  lemma RoundedPercentBounds(r: int, completed: nat, total: nat)
    requires total > 0 && IsRoundedPercent(r, completed, total)
    ensures 0 <= r
    ensures completed <= total ==> r <= 100
    ensures completed == 0 ==> r == 0
    ensures completed == total ==> r == 100
  {
    assert total * (2 * r + 1) > 0;
    MultiplyCancel(total, 0, 2 * r + 1);
    if completed <= total {
      assert total * (2 * r - 1) <= total * 200;
      MultiplyCancel(total, 2 * r - 1, 200);
    }
    if completed == 0 {
      assert total * (2 * r - 1) <= total * 0;
      MultiplyCancel(total, 2 * r - 1, 0);
    }
    if completed == total {
      assert total * 200 < total * (2 * r + 1);
      MultiplyCancel(total, 200, 2 * r + 1);
    }
  }

  lemma MultiplyCancel(k: int, x: int, y: int)
    requires k > 0
    ensures k * x <= k * y ==> x <= y
    ensures k * x < k * y ==> x < y
  {
    if x > y {
      MultiplyMonotone(k, y + 1, x);
      assert k * (y + 1) == k * y + k;
    }
  }

  /** Only one whole percentage is the rounded one. */
  lemma RoundedPercentUnique(a: int, b: int, completed: int, total: int)
    requires total >= 0
    requires IsRoundedPercent(a, completed, total) && IsRoundedPercent(b, completed, total)
    ensures a == b
  {
    if total > 0 && a < b {
      assert total * (2 * a + 1) <= total * (2 * b - 1) by {
        assert 2 * a + 1 <= 2 * b - 1;
        MultiplyMonotone(total, 2 * a + 1, 2 * b - 1);
      }
    } else if total > 0 && b < a {
      assert total * (2 * b + 1) <= total * (2 * a - 1) by {
        MultiplyMonotone(total, 2 * b + 1, 2 * a - 1);
      }
    }
  }

  lemma MultiplyMonotone(k: int, x: int, y: int)
    requires k >= 0 && x <= y
    ensures k * x <= k * y
  {
  }

  /** One point of the seven-day chart. The component labels it with the
      short weekday name of `date`. */
  datatype DayStat = DayStat(date: Date, completed: nat, total: nat, rate: nat)

  /** One slice of the priority chart. */
  datatype PriorityStat = PriorityStat(name: string, value: nat, completed: nat)

  datatype Dashboard = Dashboard(
    dailyData: seq<DayStat>,
    priorityData: seq<PriorityStat>,
    totalTasks: nat,
    completedTasks: nat,
    completionRate: nat,
    streak: nat)

  /** The seven days ending today, oldest first. */
  function LastSevenDays(today: Date): (w: seq<Date>)
    ensures |w| == 7 && w[6] == today
    ensures forall i :: 0 < i < 7 ==> w[i] == w[i - 1] + 1
  {
    seq(7, i => today - (6 - i))
  }

  /** The chart point for day `d`. */
  function DayStats(tasks: seq<Task>, d: Date): (s: DayStat)
    ensures s.date == d
    ensures s.total == |Filter(tasks, OnDate(d))|
    ensures s.completed == |Filter(Filter(tasks, OnDate(d)), IsDone)|
    ensures s.completed <= s.total
    ensures s.completed == s.total <==> (forall i :: 0 <= i < |tasks| && tasks[i].date == d ==> tasks[i].completed)
    ensures IsRoundedPercent(s.rate, s.completed, s.total) && s.rate <= 100
  {
    var dayTasks := Filter(tasks, OnDate(d));
    var completed := |Filter(dayTasks, IsDone)|;
    AllSelectedIffNoneLeft(dayTasks, IsDone, IsPending);
    DayCompleteIff(tasks, d);
    DayStat(d, completed, |dayTasks|, Rate(completed, |dayTasks|))
  }

  /** A selection keeps every element exactly when no element fails it. */
  lemma AllSelectedIffNoneLeft<T(!new)>(s: seq<T>, p: T -> bool, notP: T -> bool)
    requires forall x :: notP(x) == !p(x)
    ensures |Filter(s, p)| == |s| <==> forall i :: 0 <= i < |s| ==> p(s[i])
  {
    FilterComplement(s, p, notP);
  }

  /** The tasks scheduled on `d` are all completed exactly when every task
      of the list on that day is. */
  lemma DayCompleteIff(tasks: seq<Task>, d: Date)
    ensures (forall i :: 0 <= i < |Filter(tasks, OnDate(d))| ==> Filter(tasks, OnDate(d))[i].completed)
            <==> (forall i :: 0 <= i < |tasks| && tasks[i].date == d ==> tasks[i].completed)
  {
    var day := Filter(tasks, OnDate(d));
    FilterMultiset(tasks, OnDate(d));
    if forall i :: 0 <= i < |day| ==> day[i].completed {
      forall i | 0 <= i < |tasks| && tasks[i].date == d
        ensures tasks[i].completed
      {
        assert multiset(day)[tasks[i]] > 0;
      }
    }
    if forall i :: 0 <= i < |tasks| && tasks[i].date == d ==> tasks[i].completed {
      forall i | 0 <= i < |day|
        ensures day[i].completed
      {
        assert day[i] in tasks && OnDate(d)(day[i]);
        var j :| 0 <= j < |tasks| && tasks[j] == day[i];
        assert tasks[j].date == d;
      }
    }
  }

  /** `dailyData`: one point per day of the window, in the window's order. */
  function DailyData(tasks: seq<Task>, window: seq<Date>): (r: seq<DayStat>)
    ensures |r| == |window|
    ensures forall i :: 0 <= i < |window| ==>
              && r[i].date == window[i]
              && r[i].total == |Filter(tasks, OnDate(window[i]))|
              && r[i].completed == |Filter(Filter(tasks, OnDate(window[i])), IsDone)|
              && r[i].completed <= r[i].total
              && IsRoundedPercent(r[i].rate, r[i].completed, r[i].total)
              && r[i].rate <= 100
  {
    seq(|window|, i requires 0 <= i < |window| => DayStats(tasks, window[i]))
  }

  function PriorityDone(p: string): Task -> bool
  {
    (t: Task) => t.priority == p && t.completed
  }

  function PriorityStats(tasks: seq<Task>, p: string): (s: PriorityStat)
    ensures s.name == p
    ensures s.value == |Filter(tasks, HasPriority(p))|
    ensures s.completed == |Filter(Filter(tasks, HasPriority(p)), IsDone)|
    ensures s.completed <= s.value
  {
    FilterMonotone(tasks, PriorityDone(p), HasPriority(p));
    FilterFilter(tasks, HasPriority(p), IsDone, PriorityDone(p));
    PriorityStat(p, |Filter(tasks, HasPriority(p))|, |Filter(tasks, PriorityDone(p))|)
  }

  /** The three priorities a task can be created with. */
  predicate KnownPriority(p: string)
  {
    p == "high" || p == "medium" || p == "low"
  }

  /** `priorityData`: high, medium and low, in that order, each with its
      count and completed count. The counts never exceed the list's length
      and add up to it exactly when every task has one of the three
      priorities. */
  function PriorityData(tasks: seq<Task>): (r: seq<PriorityStat>)
    ensures |r| == 3
    ensures r[0].name == "high" && r[1].name == "medium" && r[2].name == "low"
    ensures r[0].value == |Filter(tasks, HasPriority("high"))|
    ensures r[1].value == |Filter(tasks, HasPriority("medium"))|
    ensures r[2].value == |Filter(tasks, HasPriority("low"))|
    ensures r[0].completed == |Filter(Filter(tasks, HasPriority("high")), IsDone)|
    ensures r[1].completed == |Filter(Filter(tasks, HasPriority("medium")), IsDone)|
    ensures r[2].completed == |Filter(Filter(tasks, HasPriority("low")), IsDone)|
    ensures r[0].completed <= r[0].value && r[1].completed <= r[1].value && r[2].completed <= r[2].value
    ensures r[0].value + r[1].value + r[2].value <= |tasks|
    ensures (forall i :: 0 <= i < |tasks| ==> KnownPriority(tasks[i].priority)) <==>
              r[0].value + r[1].value + r[2].value == |tasks|
  {
    var high := PriorityStats(tasks, "high");
    var medium := PriorityStats(tasks, "medium");
    var low := PriorityStats(tasks, "low");
    PriorityTotals(tasks);
    [high, medium, low]
  }

  function UnknownPriority(): Task -> bool
  {
    (t: Task) => !KnownPriority(t.priority)
  }

  lemma PriorityTotals(tasks: seq<Task>)
    ensures var n := |Filter(tasks, HasPriority("high"))| + |Filter(tasks, HasPriority("medium"))|
                     + |Filter(tasks, HasPriority("low"))|;
            && n <= |tasks|
            && ((forall i :: 0 <= i < |tasks| ==> KnownPriority(tasks[i].priority)) <==> n == |tasks|)
  {
    PrioritySum(tasks);
    if forall i :: 0 <= i < |tasks| ==> KnownPriority(tasks[i].priority) {
      assert forall i :: 0 <= i < |tasks| ==> !UnknownPriority()(tasks[i]);
    }
    if |Filter(tasks, UnknownPriority())| == 0 {
      FilterMultiset(tasks, UnknownPriority());
      forall i | 0 <= i < |tasks|
        ensures KnownPriority(tasks[i].priority)
      {
        assert multiset(tasks)[tasks[i]] > 0;
      }
    }
  }

  /** The three known priorities and the rest partition the list. */
  lemma {:induction false} PrioritySum(tasks: seq<Task>)
    ensures |Filter(tasks, HasPriority("high"))| + |Filter(tasks, HasPriority("medium"))|
            + |Filter(tasks, HasPriority("low"))| + |Filter(tasks, UnknownPriority())| == |tasks|
  {
    if |tasks| > 0 {
      PrioritySum(tasks[1..]);
    }
  }

  /** The figure cards: how many tasks there are, how many are completed and
      the rounded completion percentage. */
  datatype Totals = Totals(totalTasks: nat, completedTasks: nat, completionRate: nat)

  /** `totalTasks`, `completedTasks` and `completionRate`: the completed count
      is the number of completed tasks, and the pending ones make up the rest
      of the total; it equals the total exactly when every task is completed;
      the rate is the rounded percentage, 0 for an empty list and 100 when a
      non-empty list is all completed. */
  function GlobalTotals(tasks: seq<Task>): (g: Totals)
    ensures g.totalTasks == |tasks|
    ensures g.completedTasks == |Filter(tasks, IsDone)|
    ensures g.completedTasks + |Filter(tasks, IsPending)| == g.totalTasks
    ensures g.completedTasks == g.totalTasks <==> forall i :: 0 <= i < |tasks| ==> tasks[i].completed
    ensures IsRoundedPercent(g.completionRate, g.completedTasks, g.totalTasks)
    ensures g.completionRate <= 100
    ensures |tasks| == 0 ==> g.completionRate == 0
    ensures 0 < |tasks| && (forall i :: 0 <= i < |tasks| ==> tasks[i].completed) ==> g.completionRate == 100
  {
    var completed := |Filter(tasks, IsDone)|;
    AllSelectedIffNoneLeft(tasks, IsDone, IsPending);
    FilterComplement(tasks, IsDone, IsPending);
    Totals(|tasks|, completed, Rate(completed, |tasks|))
  }

  /** `getAnalytics` for the day `today`: the chart over the seven days
      ending today, the three priority slices, the figure cards and the
      streak, each as its own part above computes it. */
  function GetAnalytics(tasks: seq<Task>, today: Date): (a: Dashboard)
    ensures |a.dailyData| == 7
    ensures forall i :: 0 <= i < 7 ==> a.dailyData[i].date == today - (6 - i)
    ensures a.dailyData == DailyData(tasks, LastSevenDays(today))
    ensures a.priorityData == PriorityData(tasks)
    ensures Totals(a.totalTasks, a.completedTasks, a.completionRate) == GlobalTotals(tasks)
    ensures a.totalTasks == |tasks| && a.completedTasks <= a.totalTasks
    ensures a.completionRate <= 100
    ensures a.streak == Streak(tasks, today)
  {
    var totals := GlobalTotals(tasks);
    Dashboard(
      DailyData(tasks, LastSevenDays(today)),
      PriorityData(tasks),
      totals.totalTasks,
      totals.completedTasks,
      totals.completionRate,
      Streak(tasks, today))
  }
}
