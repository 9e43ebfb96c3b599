/** The client's task list and the entry form: the state the app keeps, and the
    list rewrites behind adding, confirming, completing and deleting a task. */
module Board {
  import opened TaskModel
  import Grit

  /** Characters `String.prototype.trim` removes: ECMAScript white space and line terminators. */
  predicate IsJsWhitespace(c: char)
  {
    ('\U{9}' <= c <= '\U{D}') || c == ' ' || c == '\U{A0}' || c == '\U{1680}' ||
    ('\U{2000}' <= c <= '\U{200A}') || c == '\U{2028}' || c == '\U{2029}' ||
    c == '\U{202F}' || c == '\U{205F}' || c == '\U{3000}' || c == '\U{FEFF}'
  }

  function TrimStart(s: string): (r: string)
    ensures r == [] || !IsJsWhitespace(r[0])
  {
    if s != [] && IsJsWhitespace(s[0]) then TrimStart(s[1..]) else s
  }

  function TrimEnd(s: string): (r: string)
    ensures r == [] || !IsJsWhitespace(r[|r| - 1])
    ensures |r| <= |s| && r == s[..|r|]
  {
    if s != [] && IsJsWhitespace(s[|s| - 1]) then TrimEnd(s[..|s| - 1]) else s
  }

  /** `s.trim()`. */
  function Trim(s: string): (r: string)
    ensures r == [] || (!IsJsWhitespace(r[0]) && !IsJsWhitespace(r[|r| - 1]))
  {
    TrimEnd(TrimStart(s))
  }

  lemma {:induction false} TrimStartEmpty(s: string)
    ensures TrimStart(s) == [] <==> forall i :: 0 <= i < |s| ==> IsJsWhitespace(s[i])
  {
    if s != [] && IsJsWhitespace(s[0]) {
      TrimStartEmpty(s[1..]);
      assert forall i :: 1 <= i < |s| ==> s[i] == s[1..][i - 1];
    }
  }

  /** `!text.trim()` holds exactly for text made of white space only, the empty text included. */
  lemma BlankIffAllWhitespace(s: string)
    ensures Trim(s) == [] <==> forall i :: 0 <= i < |s| ==> IsJsWhitespace(s[i])
  {
    TrimStartEmpty(s);
    var t := TrimStart(s);
    if t != [] {
      assert TrimEnd(t) != [] by { TrimEndKeepsHead(t); }
    }
  }

  lemma {:induction false} TrimEndKeepsHead(t: string)
    requires t != [] && !IsJsWhitespace(t[0])
    ensures TrimEnd(t) != []
  {
    if IsJsWhitespace(t[|t| - 1]) {
      assert |t| > 1;
      TrimEndKeepsHead(t[..|t| - 1]);
    }
  }

  /** The task shown at once, before the server answers: the form's text, due on the
      selected date, not completed, identified by the temporary id. */
  function OptimisticTask(text: string, selected: Instant, priority: string, tempId: string, now: Instant): (t: Task)
    ensures t.id == tempId && t.text == text && t.priority == priority && !t.completed
    ensures EffectiveInstant(t) == Some(selected) && OnDay(t, DayOf(selected))
  {
    Task(tempId, text, false, Due(selected), priority, now)
  }

  /** `prev.map(t => t._id === tempId ? saved : t)`. */
  function ReplacedById(tasks: seq<Task>, tempId: string, saved: Task): (r: seq<Task>)
    ensures |r| == |tasks|
    ensures forall i :: 0 <= i < |r| && tasks[i].id != tempId ==> r[i] == tasks[i]
    ensures forall i :: 0 <= i < |r| && tasks[i].id == tempId ==> r[i] == saved
  {
    seq(|tasks|, i requires 0 <= i < |tasks| => if tasks[i].id == tempId then saved else tasks[i])
  }

  /** `tasks.map(t => t._id === id ? {...t, completed: !completed} : t)`. */
  function Toggled(tasks: seq<Task>, id: string, completed: bool): (r: seq<Task>)
    ensures |r| == |tasks|
    ensures forall i :: 0 <= i < |r| ==> r[i].(completed := tasks[i].completed) == tasks[i]
    ensures forall i :: 0 <= i < |r| ==> r[i].completed == if tasks[i].id == id then !completed else tasks[i].completed
  {
    seq(|tasks|, i requires 0 <= i < |tasks| => if tasks[i].id == id then tasks[i].(completed := !completed) else tasks[i])
  }

  /** `tasks.filter(t => t._id !== id)`. */
  function WithoutId(tasks: seq<Task>, id: string): (r: seq<Task>)
    ensures |r| <= |tasks|
    ensures forall i :: 0 <= i < |r| ==> r[i].id != id
  {
    Filter(tasks, (t: Task) => t.id != id)
  }

  /** Confirming an optimistic task whose temporary id no other task carries puts the
      saved task in its place and leaves the rest of the list as it was. */
  lemma ConfirmAfterAdd(tasks: seq<Task>, text: string, selected: Instant, priority: string,
                        tempId: string, now: Instant, saved: Task)
    requires forall i :: 0 <= i < |tasks| ==> tasks[i].id != tempId
    ensures ReplacedById([OptimisticTask(text, selected, priority, tempId, now)] + tasks, tempId, saved) == [saved] + tasks
  {
    var before := [OptimisticTask(text, selected, priority, tempId, now)] + tasks;
    var r := ReplacedById(before, tempId, saved);
    assert forall i :: 1 <= i < |before| ==> before[i] == tasks[i - 1];
    assert forall i :: 0 <= i < |r| ==> r[i] == ([saved] + tasks)[i];
  }

  /** The checkbox passes the task's own flag, so the matching task is flipped. */
  lemma ToggleFlips(tasks: seq<Task>, i: nat)
    requires i < |tasks|
    ensures Toggled(tasks, tasks[i].id, tasks[i].completed)[i] == tasks[i].(completed := !tasks[i].completed)
  {
  }

  /** Toggling back with the new flag restores the list. */
  lemma ToggleTwiceRestores(tasks: seq<Task>, id: string, completed: bool)
    requires forall i :: 0 <= i < |tasks| && tasks[i].id == id ==> tasks[i].completed == completed
    ensures Toggled(Toggled(tasks, id, completed), id, !completed) == tasks
  {
    var r := Toggled(Toggled(tasks, id, completed), id, !completed);
    assert forall i :: 0 <= i < |tasks| ==> r[i] == tasks[i];
  }

  /** Completing a task whose id is unique raises the grit score by its points: 10, 35 or 70. */
  lemma CompletingRaisesScore(tasks: seq<Task>, i: nat)
    requires i < |tasks| && !tasks[i].completed
    requires forall j :: 0 <= j < |tasks| && j != i ==> tasks[j].id != tasks[i].id
    ensures Grit.Score(Toggled(tasks, tasks[i].id, false)) == Grit.Score(tasks) + Grit.Points(tasks[i].priority)
  {
    assert Toggled(tasks, tasks[i].id, false) == tasks[i := tasks[i].(completed := true)];
    Grit.ScoreAfterCompleting(tasks, i);
  }

  /** Deleting removes every task with that id and no other, each other task as often
      as before. */
  lemma DeleteRemovesExactly(tasks: seq<Task>, id: string)
    ensures forall t :: t in WithoutId(tasks, id) <==> t in tasks && t.id != id
    ensures forall t: Task :: t.id != id ==> multiset(WithoutId(tasks, id))[t] == multiset(tasks)[t]
  {
    FilterMultiset(tasks, (t: Task) => t.id != id);
  }

  /** Deleting keeps the survivors' order: it deletes from each part of a list separately. */
  lemma DeleteKeepsOrder(a: seq<Task>, b: seq<Task>, id: string)
    ensures WithoutId(a + b, id) == WithoutId(a, id) + WithoutId(b, id)
  {
    FilterAppend(a, b, (t: Task) => t.id != id);
  }

  /** Deleting an id that is not in the list changes nothing. */
  lemma DeleteAbsentId(tasks: seq<Task>, id: string)
    requires forall i :: 0 <= i < |tasks| ==> tasks[i].id != id
    ensures WithoutId(tasks, id) == tasks
  {
    FilterAll(tasks, (t: Task) => t.id != id);
  }

  lemma {:induction false} SumOfPointsOfFilter(tasks: seq<Task>, p: Task -> bool)
    ensures Grit.SumOfPoints(Filter(tasks, p)) <= Grit.SumOfPoints(tasks)
  {
    if tasks != [] {
      SumOfPointsOfFilter(tasks[1..], p);
      var rest := Filter(tasks[1..], p);
      if p(tasks[0]) {
        assert Filter(tasks, p) == [tasks[0]] + rest;
        assert ([tasks[0]] + rest)[1..] == rest;
      } else {
        assert Filter(tasks, p) == [] + rest == rest;
      }
    }
  }

  /** Deleting a task never raises the grit score. */
  lemma DeleteNeverRaisesScore(tasks: seq<Task>, id: string)
    ensures Grit.Score(WithoutId(tasks, id)) <= Grit.Score(tasks)
  {
    Grit.ScoreIsSumOfPoints(tasks);
    Grit.ScoreIsSumOfPoints(WithoutId(tasks, id));
    SumOfPointsOfFilter(tasks, (t: Task) => t.id != id);
  }

  /** The app's state: the task list and the entry form (its text, its priority
      choice, and the day picked on the calendar). */
  class TaskBoard {
    var tasks: seq<Task>
    var draft: string
    var priority: string
    var selected: Instant

    constructor (now: Instant)
      ensures tasks == [] && draft == "" && priority == StandardPriority && selected == now
    {
      tasks := [];
      draft := "";
      priority := StandardPriority;
      selected := now;
    }

    /** Typing in the entry field. */
    method SetDraft(text: string)
      modifies this`draft
      ensures draft == text
    {
      draft := text;
    }

    /** Choosing one of the three priority buttons. */
    method SetPriority(p: string)
      requires p == StandardPriority || p == HighPriority || p == TopPriority
      modifies this`priority
      ensures priority == p
    {
      priority := p;
    }

    /** Clicking a day on the calendar. */
    method SelectDate(date: Instant)
      modifies this`selected
      ensures selected == date
    {
      selected := date;
    }

    /** Submitting the form: a blank draft is ignored; otherwise the optimistic task is
        put first and the field is cleared. */
    method AddTask(tempId: string, now: Instant) returns (added: bool)
      modifies this`tasks, this`draft
      ensures added <==> exists i :: 0 <= i < |old(draft)| && !IsJsWhitespace(old(draft)[i])
      ensures added ==> tasks == [OptimisticTask(old(draft), selected, priority, tempId, now)] + old(tasks) && draft == ""
      ensures !added ==> tasks == old(tasks) && draft == old(draft)
    {
      BlankIffAllWhitespace(draft);
      if Trim(draft) == [] {
        return false;
      }
      tasks := [OptimisticTask(draft, selected, priority, tempId, now)] + tasks;
      draft := "";
      added := true;
    }

    /** The server's answer to an add: the saved task takes the temporary one's place. */
    method ConfirmAdd(tempId: string, saved: Task)
      modifies this`tasks
      ensures tasks == ReplacedById(old(tasks), tempId, saved)
    {
      tasks := ReplacedById(tasks, tempId, saved);
    }

    /** Clicking a checkbox: every task with that id gets the flag `!completed`. */
    method ToggleComplete(id: string, completed: bool)
      modifies this`tasks
      ensures tasks == Toggled(old(tasks), id, completed)
    {
      tasks := Toggled(tasks, id, completed);
    }

    /** Clicking the delete button. */
    method DeleteTask(id: string)
      modifies this`tasks
      ensures tasks == WithoutId(old(tasks), id)
    {
      tasks := WithoutId(tasks, id);
    }
  }
}
