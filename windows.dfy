/** The completion rates behind the "Daily Success" and "Reliability Score" cards and
    the monthly trophy count: rates over today, start-of-week..now and
    start-of-month..now (the monthly rate is computed but not displayed). */
module Windows {
  import opened TaskModel
  import Grit

  /** `Math.round(part / whole * 100)` in exact arithmetic: the percentage
      rounded to the nearest integer, a half rounded up. */
  function RoundedPercent(part: nat, whole: nat): (r: nat)
    requires 0 < whole
    ensures whole * (2 * r - 1) <= 200 * part < whole * (2 * r + 1)
    ensures part <= whole ==> r <= 100
  {
    QuotientBounds(200 * part + whole, 2 * whole);
    var r := (200 * part + whole) / (2 * whole);
    if r > 100 then MulMonotone(2 * whole, 101, r); r else r
  }

  lemma QuotientBounds(a: nat, b: nat)
    requires 0 < b
    ensures b * (a / b) <= a < b * (a / b) + b
  {
  }

  lemma MulMonotone(k: nat, a: int, b: int)
    requires a <= b
    ensures k * a <= k * b
  {
  }

  /** `calcRate`: 0 for an empty set, else the rounded share of completed tasks. */
  function CalcRate(arr: seq<Task>): (r: nat)
    ensures r <= 100
    ensures arr == [] ==> r == 0
    ensures arr != [] ==> |arr| * (2 * r - 1) <= 200 * |CompletedTasks(arr)| < |arr| * (2 * r + 1)
  {
    if |arr| == 0 then 0 else RoundedPercent(|CompletedTasks(arr)|, |arr|)
  }

  /** The rate reads 100 exactly when at least 99.5% of the set is completed, which
      includes, but is wider than, "every task completed". */
  lemma CalcRateFull(arr: seq<Task>)
    ensures CalcRate(arr) == 100 <==> arr != [] && 200 * |CompletedTasks(arr)| >= 199 * |arr|
    ensures arr != [] && |CompletedTasks(arr)| == |arr| ==> CalcRate(arr) == 100
  {
    if arr != [] {
      var c, n, r := |CompletedTasks(arr)|, |arr|, CalcRate(arr);
      if r <= 99 {
        MulMonotone(n, 2 * r + 1, 199);
      }
    }
  }

  /** The rate reads 0 exactly when the set is empty or less than 0.5% of it is completed. */
  lemma CalcRateZero(arr: seq<Task>)
    ensures CalcRate(arr) == 0 <==> arr == [] || 200 * |CompletedTasks(arr)| < |arr|
  {
    if arr != [] {
      var c, n, r := |CompletedTasks(arr)|, |arr|, CalcRate(arr);
      if r >= 1 {
        MulMonotone(n, 1, 2 * r - 1);
      }
    }
  }

  /** 199 completions out of 200 already show as 100%. */
  lemma AlmostAllShowsFull()
    ensures RoundedPercent(199, 200) == 100
  {
  }

  datatype WindowStats = WindowStats(daily: nat, weekly: nat, monthly: nat, monthlyTrophies: nat)

  /** Day of the week of a day number, 0 for Sunday (day 0 was a Thursday). */
  function Weekday(day: int): int
  {
    (day + 4) % 7
  }

  /** date-fns `startOfWeek(now, {weekStartsOn})`: midnight of the latest day on or
      before today whose weekday is `weekStartsOn` (0 = Sunday, the default locale's). */
  function StartOfWeek(now: Instant, weekStartsOn: int): (start: Instant)
    requires 0 <= weekStartsOn < 7
    ensures start % MsPerDay == 0 && start <= now
    ensures DayOf(now) - 6 <= DayOf(start) <= DayOf(now)
    ensures Weekday(DayOf(start)) == weekStartsOn
  {
    var today := DayOf(now);
    var day := Weekday(today);
    var diff := (if day < weekStartsOn then 7 else 0) + day - weekStartsOn;
    (today - diff) * MsPerDay
  }

  function DailyWindow(tasks: seq<Task>, now: Instant): seq<Task>
  {
    DayTasks(tasks, DayOf(now))
  }

  /** `stats`, with today, start of week and start of month read once by the caller. */
  function Stats(tasks: seq<Task>, now: Instant, weekStart: Instant, monthStart: Instant): (s: WindowStats)
    ensures s.daily <= 100 && s.weekly <= 100 && s.monthly <= 100
    ensures s.monthlyTrophies <= |IntervalTasks(tasks, monthStart, now)|
  {
    var monthly := IntervalTasks(tasks, monthStart, now);
    WindowStats(
      CalcRate(DailyWindow(tasks, now)),
      CalcRate(IntervalTasks(tasks, weekStart, now)),
      CalcRate(monthly),
      |CompletedTasks(monthly)|)
  }

  /** The daily window holds exactly the tasks dated today, each as often as in the list. */
  lemma DailyWindowIsToday(tasks: seq<Task>, now: Instant)
    ensures forall t :: t in DailyWindow(tasks, now) <==> t in tasks && OnDay(t, DayOf(now))
    ensures forall t :: OnDay(t, DayOf(now)) ==> multiset(DailyWindow(tasks, now))[t] == multiset(tasks)[t]
  {
    FilterMultiset(tasks, t => OnDay(t, DayOf(now)));
  }

  /** When the month began no later than the week, the weekly window is part of the
      monthly one, and so are its completions. */
  lemma WeeklyWithinMonthly(tasks: seq<Task>, now: Instant, weekStart: Instant, monthStart: Instant)
    requires monthStart <= weekStart
    ensures multiset(IntervalTasks(tasks, weekStart, now)) <= multiset(IntervalTasks(tasks, monthStart, now))
    ensures |CompletedTasks(IntervalTasks(tasks, weekStart, now))|
         <= Stats(tasks, now, weekStart, monthStart).monthlyTrophies
  {
    var weekly, monthly := IntervalTasks(tasks, weekStart, now), IntervalTasks(tasks, monthStart, now);
    FilterMonotone(tasks, t => Within(t, weekStart, now), t => Within(t, monthStart, now));
    FilterMultiset(weekly, IsCompleted);
    FilterMultiset(monthly, IsCompleted);
    var a, b := multiset(CompletedTasks(weekly)), multiset(CompletedTasks(monthly));
    assert forall x :: a[x] <= b[x];
    SubMultisetSize(a, b);
  }

  /** With the locale's week start, the weekly window holds exactly the tasks of the
      list dated from the week's first day up to the current instant. */
  lemma WeeklyWindowIsThisWeek(tasks: seq<Task>, now: Instant, weekStartsOn: int)
    requires 0 <= weekStartsOn < 7
    ensures forall t :: t in IntervalTasks(tasks, StartOfWeek(now, weekStartsOn), now) <==>
      t in tasks && EffectiveInstant(t).Some? &&
      DayOf(StartOfWeek(now, weekStartsOn)) <= DayOf(EffectiveInstant(t).value) &&
      EffectiveInstant(t).value <= now
  {
    var start := StartOfWeek(now, weekStartsOn);
    FilterMultiset(tasks, t => Within(t, start, now));
    forall t | EffectiveInstant(t).Some?
      ensures start <= EffectiveInstant(t).value <==> DayOf(start) <= DayOf(EffectiveInstant(t).value)
    {
      var v := EffectiveInstant(t).value;
      assert start == DayOf(start) * MsPerDay;
      if start <= v {
        DayOfMonotone(start, v);
      }
      if DayOf(start) <= DayOf(v) {
        MulMonotone(MsPerDay, DayOf(start), DayOf(v));
      }
    }
  }

  /** Each figure of `stats` is read off its own window: the three rates of the day,
      week and month windows, and the completions of the month window. */
  lemma StatsOfWindows(tasks: seq<Task>, now: Instant, weekStart: Instant, monthStart: Instant)
    ensures Stats(tasks, now, weekStart, monthStart).daily == CalcRate(DailyWindow(tasks, now))
    ensures Stats(tasks, now, weekStart, monthStart).weekly == CalcRate(IntervalTasks(tasks, weekStart, now))
    ensures Stats(tasks, now, weekStart, monthStart).monthly == CalcRate(IntervalTasks(tasks, monthStart, now))
    ensures Stats(tasks, now, weekStart, monthStart).monthlyTrophies
         == |CompletedTasks(IntervalTasks(tasks, monthStart, now))|
  {
  }

  lemma DayOfMonotone(a: Instant, b: Instant)
    requires a <= b
    ensures DayOf(a) <= DayOf(b)
  {
  }

  /** At the start of a month whose week began in the previous month, the weekly window
      can hold a task the monthly one does not: `monthStart <= weekStart` does not always hold. */
  lemma WeekCanStartBeforeMonth(tasks: seq<Task>, t: Task, now: Instant, weekStart: Instant, monthStart: Instant)
    requires t in tasks && t.dueDate.Due? && weekStart <= t.dueDate.at < monthStart && t.dueDate.at <= now
    ensures t in IntervalTasks(tasks, weekStart, now) && t !in IntervalTasks(tasks, monthStart, now)
  {
    FilterMultiset(tasks, t => Within(t, weekStart, now));
    FilterMultiset(tasks, t => Within(t, monthStart, now));
  }

  /** A task due later today is counted by the daily rate but not yet by the weekly
      or monthly ones, whose windows end at the current instant. */
  lemma DueLaterTodayOnlyDaily(tasks: seq<Task>, t: Task, now: Instant, weekStart: Instant, monthStart: Instant)
    requires t in tasks && t.dueDate.Due? && now < t.dueDate.at && DayOf(t.dueDate.at) == DayOf(now)
    ensures t in DailyWindow(tasks, now)
    ensures t !in IntervalTasks(tasks, weekStart, now) && t !in IntervalTasks(tasks, monthStart, now)
  {
    FilterMultiset(tasks, t => OnDay(t, DayOf(now)));
    FilterMultiset(tasks, t => Within(t, weekStart, now));
    FilterMultiset(tasks, t => Within(t, monthStart, now));
  }

  /** The month's trophies are some of the all-time trophies. */
  lemma MonthlyTrophiesAtMostTotal(tasks: seq<Task>, now: Instant, weekStart: Instant, monthStart: Instant)
    ensures Stats(tasks, now, weekStart, monthStart).monthlyTrophies <= Grit.ComputeGritStats(tasks).totalTrophies
  {
    FilterOfFilter(tasks, t => Within(t, monthStart, now), IsCompleted);
  }

  /** No tasks: every rate and the trophy count are 0. */
  lemma NoTasksNoStats(now: Instant, weekStart: Instant, monthStart: Instant)
    ensures Stats([], now, weekStart, monthStart) == WindowStats(0, 0, 0, 0)
  {
  }
}
