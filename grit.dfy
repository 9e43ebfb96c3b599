/** The "Grit Prediction" card: an all-time, priority-weighted score over the
    completed tasks and a behavioural style read from their creation hours. */
module Grit {
  import opened TaskModel

  datatype Style = MidnightHustler | EarlyBird | DeepFocusMaster | ConsistentWorker

  datatype GritStats = GritStats(score: nat, style: Style, totalTrophies: nat)

  /** The text the card shows for each style. */
  function StyleLabel(style: Style): string
  {
    match style
    case MidnightHustler => "Midnight Hustler 🌙"
    case EarlyBird => "Early Bird ☀️"
    case DeepFocusMaster => "Deep Focus Master 🧠"
    case ConsistentWorker => "Consistent Worker"
  }

  /** The score as the card computes it: a base of 10 per completed task, plus 25 per
      completed high-priority task and 60 per completed top-priority task. */
  function Score(tasks: seq<Task>): (score: nat)
    ensures 10 * |CompletedTasks(tasks)| <= score <= 70 * |CompletedTasks(tasks)|
  {
    var done := CompletedTasks(tasks);
    DisjointFilters(done);
    10 * |done| + 25 * |Filter(done, IsHigh)| + 60 * |Filter(done, IsTop)|
  }

  /** What one task is worth once completed: 70, 35, or 10 for any other priority string. */
  function Points(priority: string): nat
  {
    if priority == TopPriority then 70
    else if priority == HighPriority then 35
    else 10
  }

  /** Reference definition: the sum of the points of the completed tasks, task by task. */
  function SumOfPoints(tasks: seq<Task>): nat
  {
    if tasks == [] then 0
    else (if tasks[0].completed then Points(tasks[0].priority) else 0) + SumOfPoints(tasks[1..])
  }

  /** Creation hour of every completed task, in list order. */
  function CompletionHours(tasks: seq<Task>): (hours: seq<int>)
    ensures |hours| == |CompletedTasks(tasks)|
    ensures forall i :: 0 <= i < |hours| ==> 0 <= hours[i] < 24
    ensures forall h :: h in hours <==> exists t :: t in tasks && t.completed && HourOf(t.createdAt) == h
  {
    var done := CompletedTasks(tasks);
    FilterMultiset(tasks, IsCompleted);
    var hours := seq(|done|, i requires 0 <= i < |done| => HourOf(done[i].createdAt));
    assert forall h :: h in hours ==> exists t :: t in tasks && t.completed && HourOf(t.createdAt) == h by {
      forall h | h in hours
        ensures exists t :: t in tasks && t.completed && HourOf(t.createdAt) == h
      {
        var i :| 0 <= i < |hours| && hours[i] == h;
        assert done[i] in done;
      }
    }
    assert forall t :: t in tasks && t.completed ==> HourOf(t.createdAt) in hours by {
      forall t | t in tasks && t.completed
        ensures HourOf(t.createdAt) in hours
      {
        var i :| 0 <= i < |done| && done[i] == t;
        assert hours[i] == HourOf(t.createdAt);
      }
    }
    hours
  }

  /** Number of distinct hours, `new Set(hours).size`. */
  function DistinctCount(hours: seq<int>): nat
  {
    |set h | h in hours|
  }

  /** The first-match-wins rule list: hours 0..5, then 5..9, then more than five
      completions over fewer than three distinct hours. */
  function Classify(hours: seq<int>): (style: Style)
    ensures style == MidnightHustler <==> exists h :: h in hours && 0 <= h <= 5
    ensures style == ConsistentWorker ==> |hours| <= 5 || DistinctCount(hours) >= 3
    ensures hours == [] ==> style == ConsistentWorker
  {
    assert forall i :: 0 <= i < |hours| ==> hours[i] in hours;
    if exists i :: 0 <= i < |hours| && 0 <= hours[i] <= 5 then MidnightHustler
    else if exists i :: 0 <= i < |hours| && 5 <= hours[i] <= 9 then EarlyBird
    else if |hours| > 5 && DistinctCount(hours) < 3 then DeepFocusMaster
    else ConsistentWorker
  }

  function ComputeGritStats(tasks: seq<Task>): (stats: GritStats)
    ensures 10 * stats.totalTrophies <= stats.score <= 70 * stats.totalTrophies
    ensures stats.totalTrophies == 0 ==> stats == GritStats(0, ConsistentWorker, 0)
  {
    var done := CompletedTasks(tasks);
    GritStats(Score(tasks), Classify(CompletionHours(tasks)), |done|)
  }

  /** Removing the head of a list removes exactly its contribution from the score. */
  lemma ScoreUnfold(tasks: seq<Task>)
    requires tasks != []
    ensures Score(tasks) == (if tasks[0].completed then Points(tasks[0].priority) else 0) + Score(tasks[1..])
  {
    var t, rest := tasks[0], tasks[1..];
    var head := if t.completed then [t] else [];
    assert CompletedTasks(tasks) == head + CompletedTasks(rest);
    FilterAppend(head, CompletedTasks(rest), IsHigh);
    FilterAppend(head, CompletedTasks(rest), IsTop);
  }

  /** The three counts are not a partition: a completed top-priority task is
      counted in the base and in the bonus, so it is worth 70 in all. */
  lemma {:induction false} ScoreIsSumOfPoints(tasks: seq<Task>)
    ensures Score(tasks) == SumOfPoints(tasks)
  {
    if tasks != [] {
      ScoreUnfold(tasks);
      ScoreIsSumOfPoints(tasks[1..]);
    }
  }

  lemma {:induction false} SumOfPointsAfterUpdate(tasks: seq<Task>, i: nat, t: Task)
    requires i < |tasks|
    ensures SumOfPoints(tasks[i := t]) + (if tasks[i].completed then Points(tasks[i].priority) else 0)
         == SumOfPoints(tasks) + (if t.completed then Points(t.priority) else 0)
  {
    if i > 0 {
      assert tasks[i := t][1..] == tasks[1..][i - 1 := t];
      SumOfPointsAfterUpdate(tasks[1..], i - 1, t);
    }
  }

  /** Completing one more task raises the score by exactly its points: 10, 35 or 70. */
  lemma ScoreAfterCompleting(tasks: seq<Task>, i: nat)
    requires i < |tasks| && !tasks[i].completed
    ensures Score(tasks[i := tasks[i].(completed := true)]) == Score(tasks) + Points(tasks[i].priority)
    ensures Score(tasks[i := tasks[i].(completed := true)]) - Score(tasks) in {10, 35, 70}
  {
    ScoreIsSumOfPoints(tasks);
    ScoreIsSumOfPoints(tasks[i := tasks[i].(completed := true)]);
    SumOfPointsAfterUpdate(tasks, i, tasks[i].(completed := true));
  }

  /** What the card shows: the score is the task-by-task sum of points over the
      completed tasks, and the trophy count is the number of completed tasks. */
  lemma GritStatsOfTasks(tasks: seq<Task>)
    ensures ComputeGritStats(tasks).score == SumOfPoints(tasks)
    ensures ComputeGritStats(tasks).totalTrophies == |CompletedTasks(tasks)|
  {
    ScoreIsSumOfPoints(tasks);
  }

  /** The card's style read off the tasks themselves: Midnight Hustler exactly when some
      completed task was created between 00:00 and 05:59, and otherwise Early Bird exactly
      when some completed task was created between 06:00 and 09:59. */
  lemma StyleOfTasks(tasks: seq<Task>)
    ensures ComputeGritStats(tasks).style == MidnightHustler <==>
      exists t :: t in tasks && t.completed && HourOf(t.createdAt) <= 5
    ensures ComputeGritStats(tasks).style == EarlyBird <==>
      (forall t :: t in tasks && t.completed ==> HourOf(t.createdAt) > 5) &&
      exists t :: t in tasks && t.completed && 6 <= HourOf(t.createdAt) <= 9
  {
    var hours := CompletionHours(tasks);
    ClassifyCharacterized(hours);
    if exists t :: t in tasks && t.completed && HourOf(t.createdAt) <= 5 {
      var t :| t in tasks && t.completed && HourOf(t.createdAt) <= 5;
      assert HourOf(t.createdAt) in hours;
    }
    if exists t :: t in tasks && t.completed && 6 <= HourOf(t.createdAt) <= 9 {
      var t :| t in tasks && t.completed && 6 <= HourOf(t.createdAt) <= 9;
      assert HourOf(t.createdAt) in hours;
    }
  }

  /** The card's text tells the styles apart: two styles show the same label only if
      they are the same style. */
  lemma StyleLabelsDistinct(a: Style, b: Style)
    ensures StyleLabel(a) == StyleLabel(b) <==> a == b
  {
  }

  /** No task is both high- and top-priority, so the two bonus counts fit in the completed count. */
  lemma {:induction false} DisjointFilters(s: seq<Task>)
    ensures |Filter(s, IsHigh)| + |Filter(s, IsTop)| <= |s|
  {
    if s != [] {
      DisjointFilters(s[1..]);
    }
  }

  /** The style rules read as a decision table: each style holds exactly when its
      rule matches and no earlier rule does. */
  lemma ClassifyCharacterized(hours: seq<int>)
    ensures Classify(hours) == MidnightHustler <==> exists h :: h in hours && 0 <= h <= 5
    ensures Classify(hours) == EarlyBird <==>
      (forall h :: h in hours ==> h < 0 || h > 5) && exists h :: h in hours && 6 <= h <= 9
    ensures Classify(hours) == DeepFocusMaster <==>
      (forall h :: h in hours ==> h < 0 || h > 9) && |hours| > 5 && DistinctCount(hours) < 3
    ensures Classify(hours) == ConsistentWorker <==>
      (forall h :: h in hours ==> h < 0 || h > 9) && (|hours| <= 5 || DistinctCount(hours) >= 3)
  {
    assert forall i :: 0 <= i < |hours| ==> hours[i] in hours;
    if exists h :: h in hours && 0 <= h <= 5 {
      var h :| h in hours && 0 <= h <= 5;
      var i :| 0 <= i < |hours| && hours[i] == h;
      assert Classify(hours) == MidnightHustler;
    } else if exists h :: h in hours && 6 <= h <= 9 {
      var h :| h in hours && 6 <= h <= 9;
      var i :| 0 <= i < |hours| && hours[i] == h;
      assert Classify(hours) == EarlyBird;
    } else {
      assert Classify(hours) != MidnightHustler && Classify(hours) != EarlyBird;
    }
  }

  /** Precedence: one completion in the small hours outweighs any number in the morning,
      and hour 5, in both ranges, goes to the first. */
  lemma MidnightBeatsEarlyBird(hours: seq<int>, i: nat)
    requires i < |hours| && 0 <= hours[i] <= 5
    ensures Classify(hours) == MidnightHustler
  {
  }

  /** One completed top-priority task created at 02:xx: 70 points, a Midnight Hustler, one trophy. */
  lemma OneTopTaskAtTwo(t: Task)
    requires t.completed && t.priority == TopPriority && HourOf(t.createdAt) == 2
    ensures ComputeGritStats([t]) == GritStats(70, MidnightHustler, 1)
  {
    FilterAll([t], IsCompleted);
    FilterAll([t], IsTop);
    assert Filter([t], IsHigh) == [];
    assert CompletionHours([t])[0] == 2;
  }

  /** More than five completions, all created in the same hour after 09:xx: Deep Focus Master. */
  lemma SameLateHourIsDeepFocus(tasks: seq<Task>, hour: int)
    requires |tasks| > 5 && 10 <= hour < 24
    requires forall i :: 0 <= i < |tasks| ==> tasks[i].completed && HourOf(tasks[i].createdAt) == hour
    ensures ComputeGritStats(tasks).style == DeepFocusMaster
  {
    FilterAll(tasks, IsCompleted);
    var hours := CompletionHours(tasks);
    assert forall i :: 0 <= i < |hours| ==> hours[i] == hour;
    assert hours[0] == hour;
    assert forall h :: h in hours <==> h == hour;
    assert (set h | h in hours) == {hour};
    ClassifyCharacterized(hours);
  }

  /** An empty or nothing-completed list scores 0 and is a Consistent Worker. */
  lemma NothingCompleted(tasks: seq<Task>)
    requires forall i :: 0 <= i < |tasks| ==> !tasks[i].completed
    ensures ComputeGritStats(tasks) == GritStats(0, ConsistentWorker, 0)
  {
    FilterNone(tasks, IsCompleted);
  }
}
