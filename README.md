# Todomaker progress analytics, modelled in Dafny

Todomaker is a personal task tracker: an Express/MongoDB CRUD API and a React client.
This project models the part of the client, `frontend/src/App.jsx`, that has logic
of its own. That part derives all of its progress figures from the task list and the
current time, and it keeps the task list up to date as the user works:

- **Grit scorer** (`gritStats`), in module `Grit`. It computes a priority-weighted
  score over all completed tasks. It also gives a behavioural style, taken from the
  creation hours of those tasks by a first-match-wins rule list.
- **Window statistics** (`stats` with `calcRate`), in module `Windows`. These are the
  completion rates for today, start-of-week..now and start-of-month..now, plus the
  month's trophy count.
- **Trend chart** (`chartData`) and the **daily trend** (`dailyTrend`), in module
  `Trend`. The chart has seven points, each comparing a day with the same weekday a
  week earlier. The daily trend is the change in rate from yesterday to today.
- **Day view and calendar tiles** (`dailyTasks`, its active/completed split, and
  `tileContent`), in module `DayView`.
- **Task list and entry form** (`addTask`, the server's confirmation, `toggleComplete`,
  `deleteTask`), in module `Board`. These are a class `TaskBoard` whose fields are the
  app's state variables. Its methods rewrite the list with the functions `ReplacedById`,
  `Toggled` and `WithoutId`, and the lemmas are proved about those functions.

Module `TaskModel` holds the shared pieces:
- the task record;
- the effective-date rule `dueDate || createdAt`, where an unparsable date falls on
  no day and in no interval;
- the order-preserving `Filter` that every view is built from.

Instants are integers: local wall-clock milliseconds since 1970-01-01. The calendar
day is `at / MsPerDay` and the hour is `getHours`. The day filters (`isSameDay`)
compare days. The week and month windows (`isWithinInterval`) compare instants up to
`now`. A task due later today therefore counts in the daily rate but not yet in the
weekly or monthly rate (`Windows.DueLaterTodayOnlyDaily`). The client reads the clock
separately in several places. Here the caller reads it once and passes `now`, so the
daily card and the chart's last point agree (`Trend.LastPointIsDailyRate`).

Rounding a share to a whole percentage has consequences that a quick reading of
`calcRate` misses. The rate is 100 exactly when at least 99.5% of the set is
completed, so 199 done out of 200 already shows 100% (`Windows.CalcRateFull`,
`Windows.AlmostAllShowsFull`). The rate is 0 exactly when less than 0.5% is
completed. The style rules share the hour 5 between "Midnight Hustler" (0..5) and
"Early Bird" (5..9). The first rule wins, so Early Bird in effect means hours 6..9
(`Grit.ClassifyCharacterized`).

## Model

| member | source | states |
|---|---|---|
| `TaskModel.HourOf` | frontend/src/App.jsx:128 | the creation hour is in 0..23 and is the hour of the day that contains the instant |
| `TaskModel.EffectiveInstant` | frontend/src/App.jsx:142-144 | the effective date is the due date when present and parseable, `createdAt` when the due date is absent or empty, and none when the due date cannot be parsed |
| `TaskModel.OnDay` | frontend/src/App.jsx:142 | `isSameDay` on the effective date: a task is on a day exactly when its parseable due date, or failing a due date its creation instant, falls on that day; an unparsable due date is on no day |
| `TaskModel.Within` | frontend/src/App.jsx:143-144 | `isWithinInterval` on the effective date, both ends included; an interval inside one day holds only tasks on that day |
| `Grit.CompletionHours` | frontend/src/App.jsx:128 | one hour per completed task, each in 0..23, and an hour occurs in the list exactly when some completed task was created in it |
| `Grit.Score` | frontend/src/App.jsx:120-126 | the score of `n` completed tasks lies between `10*n` (no bonus) and `70*n` (all top priority) |
| `Grit.Classify` | frontend/src/App.jsx:129-132 | Midnight Hustler exactly when some hour is in 0..5; Consistent Worker only when there are at most 5 hours or at least 3 distinct ones, and always for no hours |
| `Grit.ComputeGritStats` | frontend/src/App.jsx:119-135 | the score lies between 10 and 70 times `totalTrophies`; with no trophies the stats are score 0, Consistent Worker; its values are pinned by `Grit.GritStatsOfTasks` and `Grit.StyleOfTasks` |
| `Grit.ScoreIsSumOfPoints` | frontend/src/App.jsx:120-126 | the score `10*completed + 25*high + 60*top` equals the sum over completed tasks of 70 (top), 35 (high) or 10 (any other priority string, such as the server default "normal") |
| `Grit.ScoreAfterCompleting` | frontend/src/App.jsx:120-126 | marking one more task completed raises the score by exactly 10, 35 or 70, according to its priority |
| `Grit.GritStatsOfTasks` | frontend/src/App.jsx:120-134 | the card's score is the sum over the completed tasks of 70, 35 or 10 points by priority, and `totalTrophies` is the number of completed tasks |
| `Grit.StyleOfTasks` | frontend/src/App.jsx:128-131 | the card's style, read off the tasks: Midnight Hustler exactly when some completed task was created in hours 0..5; otherwise Early Bird exactly when some completed task was created in hours 6..9 |
| `Grit.StyleLabelsDistinct` | frontend/src/App.jsx:129-132 | the card shows `StyleLabel` of the style (line 304), and the four labels are pairwise different, so the text determines the style |
| `Grit.ClassifyCharacterized` | frontend/src/App.jsx:129-132 | each style holds exactly when its rule matches and no earlier rule does: Midnight Hustler for any hour 0..5, else Early Bird for any hour 6..9, else Deep Focus Master for more than 5 completions over fewer than 3 distinct hours, else Consistent Worker |
| `Grit.MidnightBeatsEarlyBird` | frontend/src/App.jsx:130-131 | one completion at hours 0..5, hour 5 included, gives Midnight Hustler whatever the other hours are |
| `Grit.OneTopTaskAtTwo` | frontend/src/App.jsx:119-134 | one completed top-priority task created at 02:xx gives score 70, Midnight Hustler, one trophy |
| `Grit.SameLateHourIsDeepFocus` | frontend/src/App.jsx:132 | more than five completions all created in one hour from 10 on give Deep Focus Master |
| `Grit.NothingCompleted` | frontend/src/App.jsx:119-134 | with nothing completed (the empty list included) the stats are score 0, Consistent Worker, 0 trophies |
| `Windows.RoundedPercent` | frontend/src/App.jsx:146 | the result is the nearest integer to `100*part/whole`, a half rounded up, and is at most 100 when `part <= whole` |
| `Windows.CalcRate` | frontend/src/App.jsx:146 | the rate is 0 for an empty set; otherwise it is the whole percentage nearest to the completed share, `r - 1/2 <= 100*completed/total < r + 1/2`, and at most 100 |
| `Windows.CalcRateFull` | frontend/src/App.jsx:146 | the rate is 100 exactly when the set is non-empty and at least 99.5% of it is completed; an all-completed set gives 100 |
| `Windows.CalcRateZero` | frontend/src/App.jsx:146 | the rate is 0 exactly when the set is empty or less than 0.5% of it is completed |
| `Windows.AlmostAllShowsFull` | frontend/src/App.jsx:146 | 199 completions out of 200 round to 100 |
| `Windows.StartOfWeek` | frontend/src/App.jsx:139 | the week start is the midnight of the latest day no later than today whose weekday is the locale's first day, at most six days back |
| `Windows.Stats` | frontend/src/App.jsx:137-154 | the three rates are in 0..100, and the monthly trophies are at most the size of the monthly window; each figure is pinned to its window by `Windows.StatsOfWindows` |
| `Windows.DailyWindowIsToday` | frontend/src/App.jsx:142 | the daily window holds exactly the tasks whose effective day is today, each as often as in the list |
| `Windows.WeeklyWithinMonthly` | frontend/src/App.jsx:143-144 | when the month starts no later than the week, the weekly window is a sub-multiset of the monthly one, and its completions are at most `monthlyTrophies` |
| `Windows.WeeklyWindowIsThisWeek` | frontend/src/App.jsx:139-143 | with `startOfWeek(today)` as the start, a task is in the weekly window exactly when it is in the list and its effective date lies on or after the week's first day and no later than `now` |
| `Windows.StatsOfWindows` | frontend/src/App.jsx:146-153 | `daily`, `weekly` and `monthly` are the rates of the day, week and month windows, and `monthlyTrophies` is the number of completed tasks in the month window |
| `Windows.WeekCanStartBeforeMonth` | frontend/src/App.jsx:139-144 | when the week began in the previous month, a task dated between the week start and the month start is in the weekly window but not in the monthly one |
| `Windows.DueLaterTodayOnlyDaily` | frontend/src/App.jsx:142-144 | a task due later today than `now` is in the daily window but in neither the weekly nor the monthly one |
| `Windows.MonthlyTrophiesAtMostTotal` | frontend/src/App.jsx:152 | `monthlyTrophies` never exceeds the all-time `totalTrophies` |
| `Windows.NoTasksNoStats` | frontend/src/App.jsx:146-153 | no tasks give rates 0, 0, 0 and no trophies |
| `Trend.PointFor` | frontend/src/App.jsx:158-177 | a point for `daysAgo` describes day `today - daysAgo`: its total and completed counts are those of the tasks dated that day, completed <= total, and its previous rate is that of the day seven days earlier |
| `Trend.ChartData` | frontend/src/App.jsx:156-179 | exactly seven points for any task list, for days today-6 .. today in that order, each the point of its offset 6, 5, ..., 0 |
| `Trend.PrevRateIsolated` | frontend/src/App.jsx:161-174 | a point's previous-period rate depends only on the tasks dated seven days before it: adding tasks dated on other days, before or after, leaves it unchanged |
| `Trend.NoTasksFlatChart` | frontend/src/App.jsx:170-177 | an empty task list gives seven all-zero points |
| `Trend.LastPointIsDailyRate` | frontend/src/App.jsx:164-173 | the last point's rate is the daily rate of the statistics cards |
| `Trend.DailyTrend` | frontend/src/App.jsx:181-184 | the intended trend is 0 for fewer than two points and lies in -100..100 when every rate is at most 100 |
| `Trend.DailyTrendAsWritten` | frontend/src/App.jsx:181-184 | as written, the trend is the number 0 for fewer than two points and NaN otherwise |
| `Trend.DailyTrendIsTodayMinusYesterday` | frontend/src/App.jsx:181-184 | the intended trend on the chart is today's rate minus yesterday's, between -100 and 100 |
| `Trend.AsWrittenTrendIsNaN` | frontend/src/App.jsx:181-184 | as written, the trend reads the absent property `rate` and is NaN for every task list, so the indicator never shows a rise |
| `Trend.AsWrittenDisagreesOnEmptyList` | frontend/src/App.jsx:312-313 | with no tasks the intended trend is 0 and shows as a rise, while the code as written shows a decline |
| `DayView.DailyTasks` | frontend/src/App.jsx:275-277 | a task is in the day view exactly when it is in the list and its effective date is the selected day |
| `DayView.ActiveTasks` | frontend/src/App.jsx:417 | a task is in the upper list exactly when it is one of the day's tasks and not completed |
| `DayView.ShowsDivider` | frontend/src/App.jsx:448 | the divider needs at least two tasks on the day |
| `DayView.DaySplitIsPartition` | frontend/src/App.jsx:417-459 | the active and completed lists partition the selected day's tasks: each task dated that day is in exactly one, as often as in the list |
| `DayView.DividerIffBothLists` | frontend/src/App.jsx:448 | the "Completed Mastery" divider shows exactly when both lists are non-empty |
| `DayView.FindFirst` | frontend/src/App.jsx:191-192 | `find` returns nothing exactly when no element matches, and otherwise the matching element with no match before it |
| `DayView.TileContent` | frontend/src/App.jsx:186-207 | a tile has no content outside the month view or on a day without tasks, and is styled urgent exactly when it shows the top-priority dot |
| `DayView.TileShowsFirstTopTask` | frontend/src/App.jsx:191-201 | a day with a top-priority task shows the text of the first one, styled urgent |
| `DayView.TileShowsFirstHighTask` | frontend/src/App.jsx:192-201 | without a top-priority task, the first high-priority task's text is shown |
| `DayView.TileCountsPlainDay` | frontend/src/App.jsx:201 | with neither kind of priority task, the hint is the day's task count |
| `Board.Trim` | frontend/src/App.jsx:227 | the trimmed draft is empty or starts and ends with a character that is not white space |
| `Board.OptimisticTask` | frontend/src/App.jsx:229-231 | the optimistic task carries the temporary id, the draft text and priority, is not completed, and is dated on the selected day |
| `Board.WithoutId` | frontend/src/App.jsx:271 | the list after a delete is no longer and holds no task with the deleted id |
| `Board.BlankIffAllWhitespace` | frontend/src/App.jsx:227 | `trim()` yields the empty string exactly when every character is ECMAScript white space or a line terminator |
| `Board.ReplacedById` | frontend/src/App.jsx:238 | same length; elements carrying the temporary id become the saved task, every other element is unchanged |
| `Board.Toggled` | frontend/src/App.jsx:243 | same length and order; every element equals the old one except for `completed`, which becomes `!completed` on the elements with the id and stays on the others |
| `Board.ConfirmAfterAdd` | frontend/src/App.jsx:231-238 | adding then confirming, with a temporary id no other task carries, gives the saved task followed by the old list |
| `Board.ToggleFlips` | frontend/src/App.jsx:243 | called with the task's own flag, as the checkbox does, the toggle flips that task's `completed` |
| `Board.ToggleTwiceRestores` | frontend/src/App.jsx:243 | toggling back with the new flag restores the list |
| `Board.CompletingRaisesScore` | frontend/src/App.jsx:243 | completing a task with a unique id raises the grit score by its points |
| `Board.DeleteRemovesExactly` | frontend/src/App.jsx:271 | after a delete, a task is in the list exactly when it was before and has another id, each as often as before |
| `Board.DeleteKeepsOrder` | frontend/src/App.jsx:271 | deleting from a concatenation deletes from each part, so the survivors keep their relative order |
| `Board.DeleteAbsentId` | frontend/src/App.jsx:271 | deleting an id that no task has leaves the list unchanged |
| `Board.DeleteNeverRaisesScore` | frontend/src/App.jsx:271 | a delete never raises the grit score |
| `Board.TaskBoard.constructor` | frontend/src/App.jsx:100-104 | the app starts with no tasks, an empty draft, the standard priority, and today selected |
| `Board.TaskBoard.SetDraft` | frontend/src/App.jsx:372 | typing sets the draft text |
| `Board.TaskBoard.SetPriority` | frontend/src/App.jsx:396 | a priority button sets one of the three priorities |
| `Board.TaskBoard.SelectDate` | frontend/src/App.jsx:633 | clicking a calendar day sets the selected date |
| `Board.TaskBoard.AddTask` | frontend/src/App.jsx:225-234 | a draft made only of white space changes nothing; any other draft puts the optimistic task first (not completed, due on the selected day, with the temporary id) and clears the draft |
| `Board.TaskBoard.ConfirmAdd` | frontend/src/App.jsx:236-238 | the server's saved task replaces every task carrying the temporary id |
| `Board.TaskBoard.ToggleComplete` | frontend/src/App.jsx:242-243 | the list becomes `Toggled` of the old list |
| `Board.TaskBoard.DeleteTask` | frontend/src/App.jsx:270-271 | the list becomes `WithoutId` of the old list |

## Findings

| source | as written | input that shows it | evidently intended | confidence | as-written member | corrected member |
|---|---|---|---|---|---|---|
| frontend/src/App.jsx:183 | `chartData[6].rate - chartData[5].rate` reads a property the chart points do not carry (they have `currentRate`), so the trend is `undefined - undefined`, which is NaN; the card then always shows a red down arrow and "NaN%" | any task list, for example the empty one, where the intended trend is 0, shown as an up arrow | `chartData[6].currentRate - chartData[5].currentRate`: today's rate minus yesterday's | high; not executed | `Trend.AsWrittenTrendIsNaN` | `Trend.DailyTrendIsTodayMinusYesterday` |

## Left out

- Windows.RoundedPercent: the rate is computed in exact integer arithmetic, `(200*c + n) / (2*n)`. JavaScript computes `Math.round(c / n * 100)` in IEEE doubles, and some exact halves come out just below the tie. The smallest such case is 23 of 40, which shows 57 where the model gives 58.
- Windows.WeeklyWithinMonthly: requires `monthStart <= weekStart`, which fails in the first days of a month whose week began in the previous month; `Windows.WeekCanStartBeforeMonth` shows the weekly window then holds tasks the monthly one does not.
- Windows.Stats: the start of the month is a parameter. Calendar month arithmetic (`startOfMonth`) is not modelled. The start of the week is a parameter too, and `Windows.StartOfWeek` models date-fns `startOfWeek` for a given first day of the week.
- Trend.DailyTrendAsWritten: requires a length below 2 or at least 7. Lengths 2 to 6 would throw in `chartData[6]`, and the chart always has 7 points.
- Board.TaskBoard.SetPriority: requires one of the three priorities, the only values the radio buttons offer. Tasks themselves may carry any priority string.
- Dates: instants are local wall-clock milliseconds. Time zones, daylight-saving shifts and ISO string parsing are not modelled. An unparsable due date is a `DueDate` value of its own. `createdAt` is always a valid instant.
- Clock reads: the client reads `new Date()` separately for the statistics and for each chart point. The model takes a single `now`, so it does not capture a recomputation that straddles midnight.
- Chart labels: the weekday abbreviation and long date (`format(date, 'EEE')` and `'MMMM do'`) are locale formatting. A point carries its day number instead.
- Tile rendering: the "N tasks" text is the `TaskCount(n)` hint. The dots and the hint's markup are rendering.
- Network and storage: `fetchTasks`, the axios calls, the `localStorage` fallback and the server in `backend/index.js` are not part of this model. A failed POST, PUT or DELETE is swallowed by the client, so for the list it is the same as no answer. `TaskBoard.ConfirmAdd` is the successful POST answer.
- Stale closures: `toggleComplete` and `deleteTask` rewrite the `tasks` value captured at render rather than the latest state. The model applies each operation to the current list, which is the same whenever operations do not overlap.
- The temporary id is `Date.now().toString()`, a clock read. Here it is a parameter. Two adds in the same millisecond would share it, and `ReplacedById` then replaces both.
- User interface: confetti, audio, animation, drag and drop (its handler does nothing) and the random quote are not modelled. The cosmetic counts (flames, trophy shelf, progress bar width, mastery multiplier) are floating-point display values and are not modelled either.
