/** The seven-day "Momentum" chart: each of the last seven days against the same
    weekday one week earlier, and the day-over-day trend shown beside the daily rate. */
module Trend {
  import opened TaskModel
  import opened Windows

  /** One chart point. `day` stands for the two labels the chart formats from the date. */
  datatype TrendPoint = TrendPoint(day: int, currentRate: nat, prevRate: nat, completed: nat, total: nat)

  /** The point `daysAgo` days before `today`; its previous-period rate is that of the
      same weekday one week earlier, `daysAgo + 7` days before today. */
  function PointFor(tasks: seq<Task>, today: int, daysAgo: int): (p: TrendPoint)
    ensures p.day == today - daysAgo
    ensures p.total == |DayTasks(tasks, p.day)| && p.completed == |CompletedTasks(DayTasks(tasks, p.day))|
    ensures p.completed <= p.total
    ensures p.currentRate == CalcRate(DayTasks(tasks, p.day)) && p.prevRate == CalcRate(DayTasks(tasks, p.day - 7))
    ensures p.currentRate <= 100 && p.prevRate <= 100
  {
    var dayTasks := DayTasks(tasks, today - daysAgo);
    var prevDayTasks := DayTasks(tasks, today - (daysAgo + 7));
    TrendPoint(today - daysAgo, CalcRate(dayTasks), CalcRate(prevDayTasks), |CompletedTasks(dayTasks)|, |dayTasks|)
  }

  /** `chartData`: the map over the offsets 6, 5, ..., 0, so seven consecutive days
      ending today, oldest first. */
  function ChartData(tasks: seq<Task>, now: Instant): (points: seq<TrendPoint>)
    ensures |points| == 7
    ensures forall i :: 0 <= i < 7 ==> points[i].day == DayOf(now) - 6 + i
    ensures forall i :: 0 <= i < 7 ==> points[i] == PointFor(tasks, DayOf(now), 6 - i)
  {
    seq(7, i requires 0 <= i < 7 => PointFor(tasks, DayOf(now), 6 - i))
  }

  /** The previous-period rate of a point depends only on the tasks dated seven days
      before it: tasks dated on any other day, added before or after, leave it alone. */
  lemma PrevRateIsolated(tasks: seq<Task>, before: seq<Task>, after: seq<Task>, now: Instant, i: nat)
    requires i < 7
    requires forall j :: 0 <= j < |before| ==> !OnDay(before[j], DayOf(now) - 13 + i)
    requires forall j :: 0 <= j < |after| ==> !OnDay(after[j], DayOf(now) - 13 + i)
    ensures ChartData(before + tasks + after, now)[i].prevRate == ChartData(tasks, now)[i].prevRate
  {
    var all := before + tasks + after;
    DayTasksIgnoresOtherDays(tasks, before, after, DayOf(now) - 13 + i);
    var p, q := PointFor(all, DayOf(now), 6 - i), PointFor(tasks, DayOf(now), 6 - i);
    assert p.day - 7 == q.day - 7 == DayOf(now) - 13 + i;
    assert ChartData(all, now)[i] == p && ChartData(tasks, now)[i] == q;
  }

  /** With no tasks every point of the chart is zero. */
  lemma NoTasksFlatChart(now: Instant)
    ensures forall i :: 0 <= i < 7 ==>
      var p := ChartData([], now)[i];
      p.currentRate == 0 && p.prevRate == 0 && p.completed == 0 && p.total == 0
  {
  }

  /** The last point is today: its rate is the daily rate of the statistics cards. */
  lemma LastPointIsDailyRate(tasks: seq<Task>, now: Instant, weekStart: Instant, monthStart: Instant)
    ensures ChartData(tasks, now)[6].currentRate == Stats(tasks, now, weekStart, monthStart).daily
  {
  }

  /** The day-over-day trend: the last point's rate minus the one before, 0 when
      there are fewer than two points. */
  function DailyTrend(points: seq<TrendPoint>): (delta: int)
    ensures |points| < 2 ==> delta == 0
    ensures (forall i :: 0 <= i < |points| ==> points[i].currentRate <= 100) ==> -100 <= delta <= 100
  {
    if |points| < 2 then 0 else points[|points| - 1].currentRate - points[|points| - 2].currentRate
  }

  /** On the chart, the trend is today's rate minus yesterday's, a change of at most 100 points. */
  lemma DailyTrendIsTodayMinusYesterday(tasks: seq<Task>, now: Instant, weekStart: Instant, monthStart: Instant)
    ensures DailyTrend(ChartData(tasks, now))
         == Stats(tasks, now, weekStart, monthStart).daily - CalcRate(DayTasks(tasks, DayOf(now) - 1))
    ensures -100 <= DailyTrend(ChartData(tasks, now)) <= 100
  {
    var points := ChartData(tasks, now);
    assert points[5].day == DayOf(now) - 1;
  }

  /** A JavaScript number as the trend arithmetic can produce it. */
  datatype JsNumber = Finite(value: int) | NaN

  /** Reading a property of a chart point: the numeric properties it carries, and
      `undefined` (None) for any other name. */
  function NumericField(p: TrendPoint, name: string): Option<int>
  {
    if name == "currentRate" then Some(p.currentRate)
    else if name == "prevRate" then Some(p.prevRate)
    else if name == "completed" then Some(p.completed)
    else if name == "total" then Some(p.total)
    else None
  }

  /** JavaScript `a - b`: `undefined` converts to NaN, and NaN absorbs. */
  function Minus(a: Option<int>, b: Option<int>): JsNumber
  {
    if a.Some? && b.Some? then Finite(a.value - b.value) else NaN
  }

  /** `dailyTrend` as written: it reads a `rate` property that no point carries.
      Lengths 2 to 6 would throw on `chartData[6]`; the chart always has 7. */
  function DailyTrendAsWritten(points: seq<TrendPoint>): (trend: JsNumber)
    requires |points| < 2 || 7 <= |points|
    ensures |points| < 2 ==> trend == Finite(0)
    ensures |points| >= 2 ==> trend == NaN
  {
    if |points| < 2 then Finite(0) else Minus(NumericField(points[6], "rate"), NumericField(points[5], "rate"))
  }

  /** The indicator shows a rise (green, up arrow) when `dailyTrend >= 0`; NaN compares false. */
  predicate ShowsRise(trend: JsNumber)
  {
    trend.Finite? && trend.value >= 0
  }

  /** As written, the trend is NaN for every task list, so the indicator always shows a
      decline of "NaN%". */
  lemma AsWrittenTrendIsNaN(tasks: seq<Task>, now: Instant)
    ensures DailyTrendAsWritten(ChartData(tasks, now)) == NaN
    ensures !ShowsRise(DailyTrendAsWritten(ChartData(tasks, now)))
  {
  }

  /** With no tasks at all the intended trend is a flat 0, shown as a rise, while the
      code as written shows a decline. */
  lemma AsWrittenDisagreesOnEmptyList(now: Instant)
    ensures DailyTrend(ChartData([], now)) == 0 && ShowsRise(Finite(DailyTrend(ChartData([], now))))
    ensures !ShowsRise(DailyTrendAsWritten(ChartData([], now)))
  {
  }
}
