/** What the day view and the month calendar show for a day: the selected day's
    tasks split into active and completed, and the hint under each calendar tile. */
module DayView {
  import opened TaskModel

  /** `dailyTasks`: the tasks whose effective date is the selected day. */
  function DailyTasks(tasks: seq<Task>, selected: Instant): (daily: seq<Task>)
    ensures forall t :: t in daily <==> t in tasks && OnDay(t, DayOf(selected))
  {
    FilterMultiset(tasks, t => OnDay(t, DayOf(selected)));
    DayTasks(tasks, DayOf(selected))
  }

  /** The upper list of the day view, `dailyTasks.filter(t => !t.completed)`. */
  function ActiveTasks(daily: seq<Task>): (active: seq<Task>)
    ensures forall t :: t in active <==> t in daily && !t.completed
  {
    FilterMultiset(daily, IsActive);
    Filter(daily, IsActive)
  }

  /** The "Completed Mastery" divider shows when the day has both kinds of task. */
  function ShowsDivider(daily: seq<Task>): (shown: bool)
    ensures shown ==> |daily| >= 2
  {
    (exists i :: 0 <= i < |daily| && daily[i].completed) && (exists i :: 0 <= i < |daily| && !daily[i].completed)
  }

  /** The two lists of the day view partition the selected day's tasks: every task
      of that day appears in exactly one of them, as often as in the whole list. */
  lemma DaySplitIsPartition(tasks: seq<Task>, selected: Instant)
    ensures multiset(ActiveTasks(DailyTasks(tasks, selected))) + multiset(CompletedTasks(DailyTasks(tasks, selected)))
         == multiset(DailyTasks(tasks, selected))
    ensures |ActiveTasks(DailyTasks(tasks, selected))| + |CompletedTasks(DailyTasks(tasks, selected))|
         == |DailyTasks(tasks, selected)|
    ensures forall t :: t in ActiveTasks(DailyTasks(tasks, selected)) ==> !t.completed && t in tasks && OnDay(t, DayOf(selected))
    ensures forall t :: t in CompletedTasks(DailyTasks(tasks, selected)) ==> t.completed && t in tasks && OnDay(t, DayOf(selected))
  {
    var daily := DailyTasks(tasks, selected);
    FilterMultiset(tasks, t => OnDay(t, DayOf(selected)));
    FilterMultiset(daily, IsActive);
    FilterMultiset(daily, IsCompleted);
    var a, c := multiset(ActiveTasks(daily)), multiset(CompletedTasks(daily));
    assert forall x :: (a + c)[x] == multiset(daily)[x];
    assert a + c == multiset(daily);
    assert |a + c| == |multiset(daily)|;
  }

  /** The divider shows exactly when neither list is empty. */
  lemma DividerIffBothLists(daily: seq<Task>)
    ensures ShowsDivider(daily) <==> ActiveTasks(daily) != [] && CompletedTasks(daily) != []
  {
    var active, done := ActiveTasks(daily), CompletedTasks(daily);
    FilterMultiset(daily, IsCompleted);
    var hasDone := exists i :: 0 <= i < |daily| && daily[i].completed;
    var hasActive := exists i :: 0 <= i < |daily| && !daily[i].completed;
    assert ShowsDivider(daily) == (hasDone && hasActive);
    if done != [] {
      assert done[0] in daily && done[0].completed;
      var i :| 0 <= i < |daily| && daily[i] == done[0];
    }
    if active != [] {
      assert active[0] in daily && !active[0].completed;
      var i :| 0 <= i < |daily| && daily[i] == active[0];
    }
    if hasDone {
      var i :| 0 <= i < |daily| && daily[i].completed;
      assert daily[i] in done;
    }
    if hasActive {
      var j :| 0 <= j < |daily| && !daily[j].completed;
      assert daily[j] in active;
    }
  }

  /** `Array.prototype.find`: the first element satisfying `p`, if any. */
  function FindFirst(s: seq<Task>, p: Task -> bool): (r: Option<Task>)
    ensures r.None? <==> forall i :: 0 <= i < |s| ==> !p(s[i])
    ensures r.Some? ==> exists i :: 0 <= i < |s| && s[i] == r.value && p(s[i]) && forall j :: 0 <= j < i ==> !p(s[j])
  {
    if s == [] then None
    else if p(s[0]) then Some(s[0])
    else
      var r := FindFirst(s[1..], p);
      if r.Some? then
        var k :| 0 <= k < |s| - 1 && s[1..][k] == r.value && p(s[1..][k]) && forall j :: 0 <= j < k ==> !p(s[1..][j]);
        assert s[k + 1] == r.value && forall j :: 0 <= j < k + 1 ==> !p(s[j]);
        r
      else r
  }

  /** The text under a calendar tile: a task's text, or the "N tasks" count. */
  datatype Hint = TaskText(text: string) | TaskCount(count: nat)

  /** A calendar tile's decoration: the two priority dots, the urgent style, and the hint. */
  datatype Tile = Tile(topDot: bool, highDot: bool, urgent: bool, hint: Hint)

  /** `tileContent` for the tile of `date`: nothing outside the month view or on a day
      without tasks; otherwise the first top-priority task's text, else the first
      high-priority task's text, else the number of tasks. */
  function TileContent(tasks: seq<Task>, date: Instant, monthView: bool): (r: Option<Tile>)
    ensures r.None? <==> !monthView || DayTasks(tasks, DayOf(date)) == []
    ensures r.Some? ==> r.value.urgent == r.value.topDot
  {
    if !monthView then None
    else
      var dayTasks := DayTasks(tasks, DayOf(date));
      if |dayTasks| == 0 then None
      else
        var topTask := FindFirst(dayTasks, IsTop);
        var highTask := FindFirst(dayTasks, IsHigh);
        var hint :=
          if topTask.Some? then TaskText(topTask.value.text)
          else if highTask.Some? then TaskText(highTask.value.text)
          else TaskCount(|dayTasks|);
        Some(Tile(topTask.Some?, highTask.Some?, topTask.Some?, hint))
  }

  /** A day with a top-priority task shows the first such task's text, in list order,
      and is styled urgent. */
  lemma TileShowsFirstTopTask(tasks: seq<Task>, date: Instant, i: nat)
    requires i < |DayTasks(tasks, DayOf(date))|
    requires IsTop(DayTasks(tasks, DayOf(date))[i])
    requires forall j :: 0 <= j < i ==> !IsTop(DayTasks(tasks, DayOf(date))[j])
    ensures TileContent(tasks, date, true) == Some(Tile(true, TileContent(tasks, date, true).value.highDot,
      true, TaskText(DayTasks(tasks, DayOf(date))[i].text)))
  {
    var d := DayTasks(tasks, DayOf(date));
    var r := FindFirst(d, IsTop);
    var k :| 0 <= k < |d| && d[k] == r.value && IsTop(d[k]) && forall j :: 0 <= j < k ==> !IsTop(d[j]);
    assert k == i;
  }

  /** Without a top-priority task, the first high-priority task's text is shown. */
  lemma TileShowsFirstHighTask(tasks: seq<Task>, date: Instant, i: nat)
    requires i < |DayTasks(tasks, DayOf(date))|
    requires forall j :: 0 <= j < |DayTasks(tasks, DayOf(date))| ==> !IsTop(DayTasks(tasks, DayOf(date))[j])
    requires IsHigh(DayTasks(tasks, DayOf(date))[i])
    requires forall j :: 0 <= j < i ==> !IsHigh(DayTasks(tasks, DayOf(date))[j])
    ensures TileContent(tasks, date, true) == Some(Tile(false, true, false, TaskText(DayTasks(tasks, DayOf(date))[i].text)))
  {
    var d := DayTasks(tasks, DayOf(date));
    var r := FindFirst(d, IsHigh);
    var k :| 0 <= k < |d| && d[k] == r.value && IsHigh(d[k]) && forall j :: 0 <= j < k ==> !IsHigh(d[j]);
    assert k == i;
  }

  /** With neither kind of priority task, the hint counts the day's tasks. */
  lemma TileCountsPlainDay(tasks: seq<Task>, date: Instant)
    requires DayTasks(tasks, DayOf(date)) != []
    requires forall j :: 0 <= j < |DayTasks(tasks, DayOf(date))| ==>
      !IsTop(DayTasks(tasks, DayOf(date))[j]) && !IsHigh(DayTasks(tasks, DayOf(date))[j])
    ensures TileContent(tasks, date, true) == Some(Tile(false, false, false, TaskCount(|DayTasks(tasks, DayOf(date))|)))
  {
  }
}
