/**
 * The task store: the app's `state` record (the task list and the three
 * view selections) and the operations that change it: load at start-up,
 * addTask, toggleTask, deleteTask and the three selection handlers.
 */
module Store {
  import opened Wrappers
  import opened Text
  import opened JsValues
  import opened Lists
  import opened Tasks
  import opened Projection

  /** The longest text, in UTF-16 code units, addTask accepts. */
  const MaxTextLength: nat := 200

  /** Why addTask refused its input. */
  datatype AddError = EmptyText | TextTooLong

  /** `tasks.find(t => t.id === id)`, as the index of the first match. */
  function FirstIndexOf(tasks: seq<Task>, id: JsValue): (r: Option<nat>)
    ensures r.Some? ==> r.value < |tasks| && tasks[r.value].id == id
    ensures r.Some? ==> forall j :: 0 <= j < r.value ==> tasks[j].id != id
    ensures r.None? ==> forall j :: 0 <= j < |tasks| ==> tasks[j].id != id
  {
    if tasks == [] then None
    else if tasks[0].id == id then Some(0)
    else match FirstIndexOf(tasks[1..], id)
      case None => None
      case Some(k) => Some(k + 1)
  }

  /** The task with its completion flag flipped. */
  function Flipped(t: Task): Task {
    t.(completed := !t.completed)
  }

  /** What toggleTask does to the list, stated independently of the search:
      walk to the first task with the id and flip it. */
  function Toggle(tasks: seq<Task>, id: JsValue): (r: seq<Task>)
    ensures |r| == |tasks|
  {
    if tasks == [] then []
    else if tasks[0].id == id then [Flipped(tasks[0])] + tasks[1..]
    else [tasks[0]] + Toggle(tasks[1..], id)
  }

  /** Toggle changes nothing when no task has the id, and otherwise flips
      the completion flag of the first task with the id and nothing else. */
  predicate TogglesFirst(tasks: seq<Task>, id: JsValue) {
    match FirstIndexOf(tasks, id)
    case None => Toggle(tasks, id) == tasks
    case Some(i) => Toggle(tasks, id) == tasks[i := Flipped(tasks[i])]
  }

  lemma {:induction false} ToggleAt(tasks: seq<Task>, id: JsValue)
    ensures FirstIndexOf(tasks, id).None? ==> Toggle(tasks, id) == tasks
    ensures FirstIndexOf(tasks, id).Some? ==>
      var i := FirstIndexOf(tasks, id).value;
      Toggle(tasks, id) == tasks[i := Flipped(tasks[i])]
  {
    if tasks == [] {
    } else if tasks[0].id == id {
      ToggleHead(tasks, id);
    } else {
      ToggleAt(tasks[1..], id);
      ToggleStep(tasks, id);
    }
  }

  /** The base case: the first task has the id. */
  lemma ToggleHead(tasks: seq<Task>, id: JsValue)
    requires tasks != [] && tasks[0].id == id
    ensures TogglesFirst(tasks, id)
  {
    assert Toggle(tasks, id) == [Flipped(tasks[0])] + tasks[1..];
    assert [Flipped(tasks[0])] + tasks[1..] == tasks[0 := Flipped(tasks[0])];
  }

  /** The step: a first task without the id is kept and the rest toggled. */
  lemma ToggleStep(tasks: seq<Task>, id: JsValue)
    requires tasks != [] && tasks[0].id != id
    requires TogglesFirst(tasks[1..], id)
    ensures TogglesFirst(tasks, id)
  {
    var rest := tasks[1..];
    assert Toggle(tasks, id) == [tasks[0]] + Toggle(rest, id);
    match FirstIndexOf(rest, id)
    case None =>
      assert [tasks[0]] + rest == tasks;
    case Some(k) =>
      assert FirstIndexOf(tasks, id) == Some(k + 1);
      UpdateTail(tasks, k, Flipped(rest[k]));
  }

  /** Updating the tail of a list at k updates the list at k + 1. */
  lemma UpdateTail(tasks: seq<Task>, k: nat, t: Task)
    requires k + 1 < |tasks|
    ensures [tasks[0]] + tasks[1..][k := t] == tasks[k + 1 := t]
  {
  }

  /** Toggling the same id twice restores the list. */
  lemma {:induction false} ToggleInvolution(tasks: seq<Task>, id: JsValue)
    ensures Toggle(Toggle(tasks, id), id) == tasks
  {
    if tasks != [] {
      var r := Toggle(tasks, id);
      assert r[0].id == tasks[0].id;
      if tasks[0].id == id {
        assert r[1..] == tasks[1..];
      } else {
        assert r[1..] == Toggle(tasks[1..], id);
        ToggleInvolution(tasks[1..], id);
      }
    }
  }

  /** Toggling a present id moves the active count by one, the other way
      round from the flag it flips; an absent id leaves it alone. */
  lemma {:induction false} ToggleActiveCount(tasks: seq<Task>, id: JsValue)
    ensures FirstIndexOf(tasks, id).None? ==> ActiveCount(Toggle(tasks, id)) == ActiveCount(tasks)
    ensures FirstIndexOf(tasks, id).Some? ==>
      var t := tasks[FirstIndexOf(tasks, id).value];
      ActiveCount(Toggle(tasks, id)) == if t.completed then ActiveCount(tasks) + 1 else ActiveCount(tasks) - 1
  {
    if tasks != [] {
      var r := Toggle(tasks, id);
      if tasks[0].id == id {
        assert r[1..] == tasks[1..];
      } else {
        assert r[1..] == Toggle(tasks[1..], id);
        ToggleActiveCount(tasks[1..], id);
      }
    }
  }

  /** deleteTask's `tasks.filter(t => t.id !== id)`: no task with the id is
      left, every other task is. */
  function Delete(tasks: seq<Task>, id: JsValue): (r: seq<Task>)
    ensures forall t :: t in r <==> t in tasks && t.id != id
    ensures forall i :: 0 <= i < |r| ==> r[i].id != id
  {
    var r := Filter(tasks, (t: Task) => t.id != id);
    forall i | 0 <= i < |r| ensures r[i].id != id {
      assert r[i] in r;
    }
    r
  }

  /** Deleting keeps the remaining tasks in their order. */
  lemma DeleteAppend(a: seq<Task>, b: seq<Task>, id: JsValue)
    ensures Delete(a + b, id) == Delete(a, id) + Delete(b, id)
  {
    FilterAppend(a, b, (t: Task) => t.id != id);
  }

  /** Deleting an id no task has changes nothing. */
  lemma DeleteAbsent(tasks: seq<Task>, id: JsValue)
    requires forall i :: 0 <= i < |tasks| ==> tasks[i].id != id
    ensures Delete(tasks, id) == tasks
  {
    FilterAll(tasks, (t: Task) => t.id != id);
  }

  /** Deleting twice is deleting once. */
  lemma DeleteIdempotent(tasks: seq<Task>, id: JsValue)
    ensures Delete(Delete(tasks, id), id) == Delete(tasks, id)
  {
    FilterIdempotent(tasks, (t: Task) => t.id != id);
  }

  /** Sorting newest first puts in front a task no older than the rest. */
  lemma SortNewestFirst(t: Task, rest: seq<Task>)
    requires forall i :: 0 <= i < |rest| ==> rest[i].createdAt <= t.createdAt
    ensures var r := SortBy(ByCreatedAt, [t] + rest); r != [] && r[0] == t
  {
    var s := [t] + rest;
    assert s[0] == t && s[1..] == rest;
    var sortedRest := SortBy(ByCreatedAt, rest);
    assert SortBy(ByCreatedAt, s) == Insert(ByCreatedAt, t, sortedRest);
    if sortedRest != [] {
      assert sortedRest[0] in multiset(rest);
      assert sortedRest[0] in rest;
      assert Compare(ByCreatedAt, t, sortedRest[0]) <= 0;
    }
  }

  /** A new task with a timestamp no older than any stored one is the first
      task of the newest-first view whenever the filters let it through. */
  lemma NewestFirst(t: Task, tasks: seq<Task>, filter: string, priorityFilter: string)
    requires Passes(filter, priorityFilter, t)
    requires forall i :: 0 <= i < |tasks| ==> tasks[i].createdAt <= t.createdAt
    ensures var view := FilteredTasks([t] + tasks, filter, priorityFilter, "createdAt");
      view != [] && view[0] == t
  {
    var keep := (u: Task) => Passes(filter, priorityFilter, u);
    FilterAppend([t], tasks, keep);
    var rest := Filter(tasks, keep);
    assert Filter([t], keep) == [t];
    SelectedIsOneFilter([t] + tasks, filter, priorityFilter);
    assert Selected([t] + tasks, filter, priorityFilter) == [t] + rest;
    forall i | 0 <= i < |rest| ensures rest[i].createdAt <= t.createdAt {
      assert rest[i] in rest;
    }
    SortNewestFirst(t, rest);
  }

  /** The app's state record. */
  class TodoStore {
    var tasks: seq<Task>
    var filter: string
    var priorityFilter: string
    var sort: string

    /** Stored text is never empty and never starts or ends with whitespace. */
    ghost predicate Valid()
      reads this
    {
      forall i :: 0 <= i < |tasks| ==> IsNormalText(tasks[i].text)
    }

    /** The initial state: no tasks, every task shown, newest first. */
    constructor ()
      ensures Valid()
      ensures tasks == [] && filter == "all" && priorityFilter == "all" && sort == "createdAt"
    {
      tasks := [];
      filter := "all";
      priorityFilter := "all";
      sort := "createdAt";
    }

    /** Start-up: the task list becomes what load() returns. */
    method Load(parsed: Option<JsValue>, stamps: nat -> Stamp)
      modifies this
      ensures Valid()
      ensures tasks == LoadParsed(parsed, stamps)
      ensures filter == old(filter) && priorityFilter == old(priorityFilter) && sort == old(sort)
    {
      tasks := LoadParsed(parsed, stamps);
    }

    /** addTask: trims the text, refuses it when blank or longer than 200
        code units, and otherwise puts a new open task in front of the list. */
    method AddTask(text: string, priority: JsValue, freshId: string, now: int) returns (err: Option<AddError>)
      requires Valid()
      modifies this
      ensures Valid()
      ensures Trim(text) == [] ==> err == Some(EmptyText) && tasks == old(tasks)
      ensures Trim(text) != [] && Utf16Length(Trim(text)) > MaxTextLength ==>
        err == Some(TextTooLong) && tasks == old(tasks)
      ensures Trim(text) != [] && Utf16Length(Trim(text)) <= MaxTextLength ==>
        err == None && tasks == [Task(Str(freshId), Trim(text), false, now, SanitizePriority(priority))] + old(tasks)
      ensures filter == old(filter) && priorityFilter == old(priorityFilter) && sort == old(sort)
    {
      var trimmed := Trim(text);
      var validPriority := SanitizePriority(priority);
      if trimmed == [] {
        return Some(EmptyText);
      }
      if Utf16Length(trimmed) > MaxTextLength {
        return Some(TextTooLong);
      }
      tasks := [Task(Str(freshId), trimmed, false, now, validPriority)] + tasks;
      return None;
    }

    /** toggleTask: finds the first task with the id and flips its flag. */
    method ToggleTask(id: JsValue)
      requires Valid()
      modifies this
      ensures Valid()
      ensures tasks == Toggle(old(tasks), id)
      ensures filter == old(filter) && priorityFilter == old(priorityFilter) && sort == old(sort)
    {
      ToggleAt(tasks, id);
      var found := FirstIndexOf(tasks, id);
      if found.None? {
        return;
      }
      var i := found.value;
      tasks := tasks[i := Flipped(tasks[i])];
    }

    /** deleteTask: keeps the tasks with another id. */
    method DeleteTask(id: JsValue)
      requires Valid()
      modifies this
      ensures Valid()
      ensures tasks == Delete(old(tasks), id)
      ensures filter == old(filter) && priorityFilter == old(priorityFilter) && sort == old(sort)
    {
      var next := Delete(tasks, id);
      forall i | 0 <= i < |next| ensures IsNormalText(next[i].text) {
        assert next[i] in tasks;
      }
      tasks := next;
    }

    /** The completion-filter handler; refreshed says whether it re-renders. */
    method SetFilter(value: string) returns (refreshed: bool)
      modifies this
      ensures refreshed == (value != old(filter))
      ensures !refreshed ==> unchanged(this)
      ensures filter == value
      ensures tasks == old(tasks) && priorityFilter == old(priorityFilter) && sort == old(sort)
    {
      if value == filter {
        return false;
      }
      filter := value;
      return true;
    }

    /** The priority-filter handler. */
    method SetPriorityFilter(value: string) returns (refreshed: bool)
      modifies this
      ensures refreshed == (value != old(priorityFilter))
      ensures !refreshed ==> unchanged(this)
      ensures priorityFilter == value
      ensures tasks == old(tasks) && filter == old(filter) && sort == old(sort)
    {
      if value == priorityFilter {
        return false;
      }
      priorityFilter := value;
      return true;
    }

    /** The sort handler. */
    method SetSort(value: string) returns (refreshed: bool)
      modifies this
      ensures refreshed == (value != old(sort))
      ensures !refreshed ==> unchanged(this)
      ensures sort == value
      ensures tasks == old(tasks) && filter == old(filter) && priorityFilter == old(priorityFilter)
    {
      if value == sort {
        return false;
      }
      sort := value;
      return true;
    }
  }
}
