/** Task records as the client holds them, the effective-date rule, and the
    order-preserving filter every view and statistic is built from. */
module TaskModel {

  datatype Option<T> = None | Some(value: T)

  /** A local-time instant, in milliseconds since 1970-01-01T00:00 (a Thursday). */
  type Instant = int

  const MsPerHour: int := 3_600_000
  const MsPerDay: int := 24 * MsPerHour

  /** Calendar day number of an instant; Dafny's division floors, as a calendar does. */
  function DayOf(at: Instant): int
  {
    at / MsPerDay
  }

  /** Hour of the day of an instant, as `getHours` reports it. */
  function HourOf(at: Instant): (h: int)
    ensures 0 <= h < 24
    ensures DayOf(at) * MsPerDay + h * MsPerHour <= at < DayOf(at) * MsPerDay + (h + 1) * MsPerHour
  {
    (at % MsPerDay) / MsPerHour
  }

  /** The priorities the client offers; the server stores whatever string it is sent
      and defaults to "normal", which the client treats like any other non-bonus value. */
  const StandardPriority: string := "standard"
  const HighPriority: string := "high-priority"
  const TopPriority: string := "top-priority"

  /** The `dueDate` field: absent or empty, an ISO timestamp, or text that does not parse. */
  datatype DueDate = NoDue | Due(at: Instant) | Unparsable

  datatype Task = Task(
    id: string,
    text: string,
    completed: bool,
    dueDate: DueDate,
    priority: string,
    createdAt: Instant)

  predicate IsCompleted(t: Task) { t.completed }
  predicate IsActive(t: Task) { !t.completed }
  predicate IsHigh(t: Task) { t.priority == HighPriority }
  predicate IsTop(t: Task) { t.priority == TopPriority }

  /** `dueDate || createdAt`, parsed: None when the date cannot be parsed. */
  function EffectiveInstant(t: Task): (r: Option<Instant>)
    ensures t.dueDate.NoDue? ==> r == Some(t.createdAt)
    ensures t.dueDate.Due? ==> r == Some(t.dueDate.at)
    ensures r.None? <==> t.dueDate.Unparsable?
  {
    match t.dueDate
    case NoDue => Some(t.createdAt)
    case Due(at) => Some(at)
    case Unparsable => None
  }

  /** `isSameDay(effective date, day)`; an unparsable date is on no day. */
  predicate OnDay(t: Task, day: int)
    ensures OnDay(t, day) <==>
      (t.dueDate.NoDue? && DayOf(t.createdAt) == day) || (t.dueDate.Due? && DayOf(t.dueDate.at) == day)
  {
    EffectiveInstant(t).Some? && DayOf(EffectiveInstant(t).value) == day
  }

  /** `isWithinInterval(effective date, {start, end})`; an unparsable date is in no interval. */
  predicate Within(t: Task, start: Instant, end: Instant)
    ensures Within(t, start, end) <==>
      (t.dueDate.NoDue? && start <= t.createdAt <= end) || (t.dueDate.Due? && start <= t.dueDate.at <= end)
    ensures Within(t, start, end) && DayOf(start) == DayOf(end) ==> OnDay(t, DayOf(end))
  {
    EffectiveInstant(t).Some? && start <= EffectiveInstant(t).value <= end
  }

  /** `Array.prototype.filter`: the elements satisfying `p`, in their original order. */
  function Filter(s: seq<Task>, p: Task -> bool): (r: seq<Task>)
    ensures |r| <= |s|
    ensures forall i :: 0 <= i < |r| ==> p(r[i])
  {
    if s == [] then [] else (if p(s[0]) then [s[0]] else []) + Filter(s[1..], p)
  }

  /** The filter keeps every occurrence of an element satisfying `p` and no other element. */
  lemma {:induction false} FilterMultiset(s: seq<Task>, p: Task -> bool)
    ensures forall x :: multiset(Filter(s, p))[x] == if p(x) then multiset(s)[x] else 0
    ensures forall x :: x in Filter(s, p) <==> x in s && p(x)
  {
    if s != [] {
      FilterMultiset(s[1..], p);
      assert s == [s[0]] + s[1..];
    }
  }

  /** Filtering a concatenation filters each part: the kept elements keep their order. */
  lemma {:induction false} FilterAppend(a: seq<Task>, b: seq<Task>, p: Task -> bool)
    ensures Filter(a + b, p) == Filter(a, p) + Filter(b, p)
  {
    if a != [] {
      var head := if p(a[0]) then [a[0]] else [];
      assert (a + b)[0] == a[0] && (a + b)[1..] == a[1..] + b;
      calc {
        Filter(a + b, p);
        head + Filter(a[1..] + b, p);
        { FilterAppend(a[1..], b, p); }
        head + (Filter(a[1..], p) + Filter(b, p));
        (head + Filter(a[1..], p)) + Filter(b, p);
        Filter(a, p) + Filter(b, p);
      }
    } else {
      assert a + b == b;
    }
  }

  /** A weaker filter keeps at least what a stronger one keeps, element by element. */
  lemma FilterMonotone(s: seq<Task>, p: Task -> bool, q: Task -> bool)
    requires forall x :: p(x) ==> q(x)
    ensures multiset(Filter(s, p)) <= multiset(Filter(s, q))
    ensures |Filter(s, p)| <= |Filter(s, q)|
  {
    FilterMultiset(s, p);
    FilterMultiset(s, q);
    var mp, mq := multiset(Filter(s, p)), multiset(Filter(s, q));
    assert forall x :: mp[x] <= mq[x];
    SubMultisetSize(mp, mq);
  }

  /** Filtering a filtered sequence again keeps no more than filtering the whole. */
  lemma FilterOfFilter(s: seq<Task>, p: Task -> bool, q: Task -> bool)
    ensures multiset(Filter(Filter(s, p), q)) <= multiset(Filter(s, q))
    ensures |Filter(Filter(s, p), q)| <= |Filter(s, q)|
  {
    FilterMultiset(s, p);
    FilterMultiset(Filter(s, p), q);
    FilterMultiset(s, q);
    var m1, m2 := multiset(Filter(Filter(s, p), q)), multiset(Filter(s, q));
    assert forall x :: m1[x] <= m2[x];
    SubMultisetSize(m1, m2);
  }

  /** A filter that rejects every element of `s` yields nothing. */
  lemma {:induction false} FilterNone(s: seq<Task>, p: Task -> bool)
    requires forall i :: 0 <= i < |s| ==> !p(s[i])
    ensures Filter(s, p) == []
  {
    if s != [] {
      FilterNone(s[1..], p);
    }
  }

  /** A filter that accepts every element of `s` yields `s` itself. */
  lemma {:induction false} FilterAll(s: seq<Task>, p: Task -> bool)
    requires forall i :: 0 <= i < |s| ==> p(s[i])
    ensures Filter(s, p) == s
  {
    if s != [] {
      FilterAll(s[1..], p);
      assert s == [s[0]] + s[1..];
    }
  }

  lemma SubMultisetSize(a: multiset<Task>, b: multiset<Task>)
    requires a <= b
    ensures |a| <= |b|
  {
    assert b == a + (b - a);
  }

  /** The tasks whose effective date falls on `day`, in list order. */
  function DayTasks(tasks: seq<Task>, day: int): seq<Task>
  {
    Filter(tasks, t => OnDay(t, day))
  }

  /** Tasks dated on other days, added before or after, do not change a day's tasks. */
  lemma DayTasksIgnoresOtherDays(tasks: seq<Task>, before: seq<Task>, after: seq<Task>, day: int)
    requires forall j :: 0 <= j < |before| ==> !OnDay(before[j], day)
    requires forall j :: 0 <= j < |after| ==> !OnDay(after[j], day)
    ensures DayTasks(before + tasks + after, day) == DayTasks(tasks, day)
  {
    var p := t => OnDay(t, day);
    FilterAppend(before + tasks, after, p);
    FilterAppend(before, tasks, p);
    FilterNone(before, p);
    FilterNone(after, p);
  }

  /** The tasks whose effective instant lies in `[start, end]`, in list order. */
  function IntervalTasks(tasks: seq<Task>, start: Instant, end: Instant): seq<Task>
  {
    Filter(tasks, t => Within(t, start, end))
  }

  /** `filter(t => t.completed)`. */
  function CompletedTasks(tasks: seq<Task>): seq<Task>
  {
    Filter(tasks, IsCompleted)
  }
}
