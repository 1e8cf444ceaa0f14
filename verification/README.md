# TaskFlow task-list logic in Dafny

TaskFlow is a single-page task tracker. The user adds dated tasks with a
priority, ticks them off, deletes them, filters the list of one day, and
reads a dashboard: a seven-day completion chart, a priority breakdown,
overall totals and a streak of fully completed days. All of that logic
lives in the `TaskFlow` component as pure operations over an array of task
records `{id, title, date, priority, completed, createdAt}`. This project
models those operations as Dafny functions over `seq<Task>` and proves
what they promise.

Modules, one per concern of the component:

- `Seqs` (`seqs.dfy`): `Filter`, the order-preserving selection that
  stands for JavaScript's `Array.prototype.filter`, with subsequence,
  fusion, complement and monotonicity lemmas.
- `Text` (`text.dfy`): the white-space set of JavaScript's `trim` and a
  model of `trim`, used by the blank-title guard.
- `Tasks` (`tasks.dfy`): the `Task` datatype, the selection tests used
  everywhere, and unique-id facts.
- `TaskStore` (`store.dfy`): `addTask`, `toggleTask` and `deleteTask`.
- `TaskFilter` (`filtering.dfy`): `getFilteredTasks`.
- `Analytics` (`analytics.dfy`): the daily series, the priority breakdown,
  the totals and the assembled dashboard of `getAnalytics`.
- `Streaks` (`streak.dfy`): `calculateStreak`, as a reference function and
  as the loop with its early exit.
- `StreakExamples` (`streak_examples.dfy`): worked streak cases on
  concrete lists.

Modelling choices:

- Dates are day numbers (`type Date = int`). The component stores
  `YYYY-MM-DD` strings. It only compares them for equality, sorts them and
  tests `date < today`, and for such strings lexicographic order is
  chronological order. "Today" is a parameter. The seven-day window is
  `today - 6 .. today`.
- A task's `priority` and the filter tag are strings, as in the component.
  The form only offers "low", "medium" and "high", but stored data is not
  checked. The filter compares any tag other than "all", "completed" and
  "pending" with the priority.
- The new task's `id` and `createdAt` come from the clock, so they are
  parameters of `AddTask`.
- Percentages use exact arithmetic: `Math.round(c / t * 100)` is modelled
  as `(200c + t) / (2t)`, which rounds half up. `IsRoundedPercent` states
  the rounding as a property independent of that formula.

The model follows the component's code as written. Three consequences a
reader might not expect:

- An unfinished task on today's date does not make the streak 0. Days on
  or after today that are not fully completed are passed over, and the walk
  goes on to older days. `StreakExamples.UnfinishedTodayIsSkipped` proves
  the streak is 1 for completed tasks on two days plus one unfinished task
  on the newer day, which is today.
- A calendar day with no tasks does not stop the streak, because the walk
  only visits days that have tasks. `StreakExamples.EmptyDayDoesNotBreak`
  proves this.
- Completed days after today count toward the streak
  (`StreakExamples.FutureDayCounts`).

## Model

| member | source | states |
|---|---|---|
| Seqs.Filter | src/TaskFlow.jsx:61-68 | a selection is never longer than its input, and every element it keeps passes the test and comes from the input |
| Seqs.FilterMultiset | src/TaskFlow.jsx:61-68 | a selection keeps every occurrence of each element that passes the test, and nothing else |
| Seqs.FilterAllOrNone | src/TaskFlow.jsx:57 | a test every element passes keeps the whole list; one no element passes keeps nothing |
| Seqs.FilterIsSubseq | src/TaskFlow.jsx:57 | a selection is a subsequence of its input, so relative order is kept |
| Seqs.FilterFilter | src/TaskFlow.jsx:61-68 | selecting by one test, then another, equals selecting once by both |
| Text.TrimIsSlice | src/TaskFlow.jsx:34 | `trim` returns one contiguous slice; only white space is cut on either side, and none is left at either end |
| Text.TrimEmptyIffBlank | src/TaskFlow.jsx:34 | the trimmed title is empty exactly when every character is white space |
| TaskStore.AddTask | src/TaskFlow.jsx:33-47 | a blank title leaves the list unchanged; any other title appends one pending task with the given date, priority and the title exactly as typed, untrimmed, and earlier tasks are untouched |
| TaskStore.AddKeepsUniqueIds | src/TaskFlow.jsx:36-45 | adding under an id no task has keeps ids distinct |
| TaskStore.AddCompletedCount | src/TaskFlow.jsx:41-45 | adding never changes how many tasks are completed |
| TaskStore.ToggleTask | src/TaskFlow.jsx:49-54 | length, order and every field but `completed` are kept; `completed` flips exactly on the tasks with that id; an absent id changes nothing |
| TaskStore.ToggleTwice | src/TaskFlow.jsx:49-54 | toggling the same id twice restores the list |
| TaskStore.ToggleKeepsUniqueIds | src/TaskFlow.jsx:50-52 | toggling keeps ids distinct |
| TaskStore.ToggleCompletedCount | src/TaskFlow.jsx:50-52 | the completed count falls by the completed tasks with that id and rises by the pending ones |
| TaskStore.ToggleUniqueCompletedCount | src/TaskFlow.jsx:50-52 | with distinct ids, toggling an existing task moves the completed count by exactly one toward its new state |
| TaskStore.DeleteTask | src/TaskFlow.jsx:56-58 | no remaining task has the id; every task with another id remains as often as before; an absent id leaves the list unchanged |
| TaskStore.DeleteKeepsOrder | src/TaskFlow.jsx:57 | the remaining tasks keep their original order |
| TaskStore.DeleteUnique | src/TaskFlow.jsx:57 | with distinct ids, deleting an existing id removes exactly one task and ids stay distinct |
| TaskFilter.FilteredTasks | src/TaskFlow.jsx:60-72 | the two-stage selection, day then tag, equals one selection by the day and the tag's test; every listed task is on the selected day |
| TaskFilter.FilteredMembers | src/TaskFlow.jsx:60-72 | "all" lists every task of the day, "completed" and "pending" its completed and unfinished ones, any other tag those with that priority; each as often as in the list and nothing else |
| TaskFilter.FilteredIsSubseq | src/TaskFlow.jsx:60-72 | the filtered list keeps the tasks' order |
| TaskFilter.CompletedPlusPending | src/TaskFlow.jsx:63-66 | on any day the completed and pending views together are as long as the "all" view |
| TaskFilter.PriorityViewWithinAll | src/TaskFlow.jsx:67-69 | no tag lists more than "all" on the same day |
| Analytics.Rate | src/TaskFlow.jsx:89 | the result is the completed share rounded half up to a whole percent; 0 for an empty total, in [0, 100] for a part, 0 for none and 100 for all |
| Analytics.RoundedPercentUnique | src/TaskFlow.jsx:101 | the rounded percentage is determined by its defining inequalities |
| Analytics.LastSevenDays | src/TaskFlow.jsx:76-80 | seven consecutive days, the last of them today |
| Analytics.DayStats | src/TaskFlow.jsx:83-90 | a day's total counts its tasks and its completed count counts the completed ones among them; completed equals total exactly when all of that day's tasks are completed; the rate is the rounded percentage, at most 100 |
| Analytics.DailyData | src/TaskFlow.jsx:82-91 | one entry per window day, in window order, each with that day's task count, its completed count and a rounded rate in [0, 100] |
| Analytics.PriorityStats | src/TaskFlow.jsx:94-96 | a slice counts the tasks of that priority, and its completed count is the number of completed tasks among them |
| Analytics.PriorityData | src/TaskFlow.jsx:93-97 | three slices high, medium, low, each with its count and the completed count among them; the counts add up to at most the list length, and to exactly the length if and only if every priority is one of the three |
| Analytics.GlobalTotals | src/TaskFlow.jsx:99-101 | the completed count is the number of completed tasks, and with the pending ones it makes up the total; it equals the total exactly when every task is completed; the rate is the rounded percentage in [0, 100], 0 for an empty list, 100 when a non-empty list is all completed |
| Analytics.GetAnalytics | src/TaskFlow.jsx:74-106 | the dashboard holds the daily points of the seven days ending today, the three priority slices, the figure cards and the streak, each equal to the part that computes it, so their contracts carry over |
| Streaks.DatesNewestFirst | src/TaskFlow.jsx:109 | every day that has a task appears once, strictly newest first, and no other |
| Streaks.Walk | src/TaskFlow.jsx:113-123 | the walk counts at most one per visited day |
| Streaks.Streak | src/TaskFlow.jsx:108-126 | the streak never exceeds the number of days with tasks, and is 0 for an empty list |
| Streaks.CalculateStreak | src/TaskFlow.jsx:108-126 | the loop with its early exit computes the walk over the newest-first days |
| Streaks.WalkCountsUpToFirstBreak | src/TaskFlow.jsx:113-123 | the walk counts the fully completed days before the first unfinished day older than today, and nothing after it |
| Streaks.StreakCountsUpToFirstBreak | src/TaskFlow.jsx:108-126 | the streak counts exactly the fully completed days newer than the first unfinished day before today; unfinished days on or after today do not stop it |
| Streaks.StreakAllCompleted | src/TaskFlow.jsx:113-123 | when every task is completed, every day with tasks counts |
| StreakExamples.TwoCompletedDays | src/TaskFlow.jsx:108-126 | two completed consecutive days ending today give 2 |
| StreakExamples.UnfinishedTodayIsSkipped | src/TaskFlow.jsx:118-122 | an unfinished task today is passed over; the completed day before still counts, giving 1 |
| StreakExamples.EmptyDayDoesNotBreak | src/TaskFlow.jsx:109 | completed days around a day without tasks both count |
| StreakExamples.FutureDayCounts | src/TaskFlow.jsx:118-122 | a completed day after today counts and an unfinished today is passed over |
| StreakExamples.PastUnfinishedDayStops | src/TaskFlow.jsx:120-121 | an unfinished day before today ends the walk |

## Left out

- `loadTasks` and `saveTasks` (src/TaskFlow.jsx:17-31) are left out. They read and write the browser's `localStorage` through JSON, which is browser I/O. Each mutation returns the new list where the component would save it. The store/reload round trip is therefore not modelled.
- Clearing the input field after an add (`setNewTask('')`) is left out. It is UI state, not part of the list.
- The clock is left out: `Date.now()` ids, `new Date().toISOString()` timestamps and the UTC day of "today". They are parameters.
- The calendar arithmetic of `setDate` is not modelled. Days are numbers, so the window is `today - 6 .. today`.
- Rate: computed in exact arithmetic. The component multiplies a floating-point quotient by 100 before `Math.round`, and that product can fall just below an exact half, so the shown percentage may be one lower in such cases.
- DailyData: each point carries its date. The component carries the short weekday name of that date, which is a locale-dependent display label.
- PriorityData: each slice is named by the lower-case priority key. The component displays the key with its first letter upper-cased.
- Rendering, styling tables, chart and icon components (src/TaskFlow.jsx:128-460) are left out. They are view code over external libraries.
- React hooks and state setters are left out. They are framework plumbing.
- `vite.config.js` is left out. It is build configuration with no logic.
