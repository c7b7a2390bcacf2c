/**
 * The view projection getFilteredTasks: the completion filter, the priority
 * filter, then a sort of a copy, by creation time or by priority; and the
 * active count shown under the list.
 */
module Projection {
  import opened JsValues
  import opened Tasks
  import opened Lists

  /** The completion filter: "active" keeps open tasks, "completed" keeps
      done ones, any other selection keeps everything. */
  predicate PassesCompletion(filter: string, t: Task)
    ensures PassesCompletion(filter, t) <==>
      (filter == "active" ==> !t.completed) && (filter == "completed" ==> t.completed)
  {
    if filter == "active" then !t.completed
    else if filter == "completed" then t.completed
    else true
  }

  /** The priority filter: "all" keeps everything, any other selection keeps
      the tasks whose priority has that name, so a selection that names no
      priority keeps nothing. */
  predicate PassesPriority(priorityFilter: string, t: Task)
    ensures priorityFilter != "all" ==>
      (PassesPriority(priorityFilter, t) <==>
        IsPriorityName(Str(priorityFilter)) && SanitizePriority(Str(priorityFilter)) == t.priority)
  {
    priorityFilter == "all" || PriorityName(t.priority) == priorityFilter
  }

  /** The two sort orders the projection knows. */
  datatype SortKey = ByCreatedAt | ByPriority

  /** The comparators handed to Array.prototype.sort: a negative result puts
      a before b. By creation time, newest first; by priority, lower rank
      first and then newest first. */
  function Compare(key: SortKey, a: Task, b: Task): (r: int)
    ensures key == ByCreatedAt ==>
      (r < 0 <==> a.createdAt > b.createdAt) && (r == 0 <==> a.createdAt == b.createdAt)
    ensures key == ByPriority ==>
      && (r < 0 <==> Rank(a.priority) < Rank(b.priority)
                     || (a.priority == b.priority && a.createdAt > b.createdAt))
      && (r == 0 <==> a.priority == b.priority && a.createdAt == b.createdAt)
  {
    match key
    case ByCreatedAt => b.createdAt - a.createdAt
    case ByPriority =>
      var byRank := Rank(a.priority) - Rank(b.priority);
      if byRank != 0 then byRank else b.createdAt - a.createdAt
  }

  /** Swapping the arguments negates the comparison. */
  lemma CompareAntisymmetric(key: SortKey, a: Task, b: Task)
    ensures Compare(key, a, b) == -Compare(key, b, a)
  {
  }

  /** "may come before" is transitive. */
  lemma CompareTransitive(key: SortKey, a: Task, b: Task, c: Task)
    requires Compare(key, a, b) <= 0 && Compare(key, b, c) <= 0
    ensures Compare(key, a, c) <= 0
  {
  }

  /** Every element may come before every later one. */
  predicate Sorted(key: SortKey, s: seq<Task>) {
    forall i, j :: 0 <= i < j < |s| ==> Compare(key, s[i], s[j]) <= 0
  }

  /** Inserts x in front of the first element it may precede. */
  function Insert(key: SortKey, x: Task, s: seq<Task>): (r: seq<Task>)
    ensures multiset(r) == multiset(s) + multiset{x}
    ensures |r| == |s| + 1
  {
    if s == [] || Compare(key, x, s[0]) <= 0 then [x] + s
    else
      assert s == [s[0]] + s[1..];
      [s[0]] + Insert(key, x, s[1..])
  }

  /** An element that may precede every element of a sorted list may be put
      in front of it. */
  lemma SortedCons(key: SortKey, y: Task, s: seq<Task>)
    requires Sorted(key, s)
    requires forall j :: 0 <= j < |s| ==> Compare(key, y, s[j]) <= 0
    ensures Sorted(key, [y] + s)
  {
    var r := [y] + s;
    forall i, j | 0 <= i < j < |r| ensures Compare(key, r[i], r[j]) <= 0 {
      assert r[j] == s[j - 1];
      if i > 0 {
        assert r[i] == s[i - 1];
      }
    }
  }

  lemma {:induction false} InsertSorted(key: SortKey, x: Task, s: seq<Task>)
    requires Sorted(key, s)
    ensures Sorted(key, Insert(key, x, s))
  {
    if s == [] || Compare(key, x, s[0]) <= 0 {
      forall j | 0 <= j < |s| ensures Compare(key, x, s[j]) <= 0 {
        if j > 0 {
          CompareTransitive(key, x, s[0], s[j]);
        }
      }
      SortedCons(key, x, s);
    } else {
      var rest := Insert(key, x, s[1..]);
      InsertSorted(key, x, s[1..]);
      forall j | 0 <= j < |rest| ensures Compare(key, s[0], rest[j]) <= 0 {
        InsertedFrom(key, x, s[1..], j);
        if rest[j] == x {
          CompareAntisymmetric(key, x, s[0]);
        } else {
          var k :| 0 <= k < |s[1..]| && s[1..][k] == rest[j];
          assert s[k + 1] == rest[j];
        }
      }
      SortedCons(key, s[0], rest);
    }
  }

  /** Every element of Insert(key, x, s) is x or an element of s. */
  lemma InsertedFrom(key: SortKey, x: Task, s: seq<Task>, j: nat)
    requires j < |Insert(key, x, s)|
    ensures Insert(key, x, s)[j] == x || Insert(key, x, s)[j] in s
  {
    var r := Insert(key, x, s);
    assert r[j] in multiset(r);
  }

  /** `[...s].sort(comparator)`. The engine's sort is stable, and a stable
      sort under a consistent comparator has one result: the one this
      insertion sort, which keeps earlier elements in front on ties, gives. */
  function SortBy(key: SortKey, s: seq<Task>): (r: seq<Task>)
    ensures multiset(r) == multiset(s)
    ensures |r| == |s|
    ensures Sorted(key, r)
  {
    if s == [] then []
    else
      assert s == [s[0]] + s[1..];
      InsertSorted(key, s[0], SortBy(key, s[1..]));
      Insert(key, s[0], SortBy(key, s[1..]))
  }

  /** The tasks that compare equal to x: same timestamp, and for the
      priority order also the same priority. */
  function TiedWith(key: SortKey, x: Task): Task -> bool {
    (u: Task) => Compare(key, u, x) == 0
  }

  /** Comparing equal is an equivalence: two tasks tied with x are tied. */
  lemma TiedTogether(key: SortKey, x: Task, y: Task, z: Task)
    requires Compare(key, y, x) == 0 && Compare(key, z, x) == 0
    ensures Compare(key, y, z) == 0
  {
  }

  /** Inserting y adds it to the tasks tied with x exactly when it is tied
      with x, and then in front of them. */
  lemma InsertTies(key: SortKey, y: Task, s: seq<Task>, x: Task)
    ensures Filter(Insert(key, y, s), TiedWith(key, x)) ==
      (if TiedWith(key, x)(y) then [y] else []) + Filter(s, TiedWith(key, x))
  {
    InsertFiltersAsCons(key, y, s, x);
    FilterCons(y, s, TiedWith(key, x));
  }

  /** Among the tasks tied with x, inserting y looks like putting it first. */
  lemma {:induction false} InsertFiltersAsCons(key: SortKey, y: Task, s: seq<Task>, x: Task)
    ensures Filter(Insert(key, y, s), TiedWith(key, x)) == Filter([y] + s, TiedWith(key, x))
  {
    var tied := TiedWith(key, x);
    if s != [] && Compare(key, y, s[0]) > 0 {
      var rest := s[1..];
      assert s == [s[0]] + rest;
      assert Insert(key, y, s) == [s[0]] + Insert(key, y, rest);
      NotBothTied(key, x, y, s[0]);
      calc {
        Filter(Insert(key, y, s), tied);
        { FilterCons(s[0], Insert(key, y, rest), tied); }
        (if tied(s[0]) then [s[0]] else []) + Filter(Insert(key, y, rest), tied);
        { InsertFiltersAsCons(key, y, rest, x); }
        (if tied(s[0]) then [s[0]] else []) + Filter([y] + rest, tied);
        { FilterCons(s[0], [y] + rest, tied); }
        Filter([s[0]] + ([y] + rest), tied);
        { FilterSwap(s[0], y, rest, tied); }
        Filter([y] + ([s[0]] + rest), tied);
      }
    }
  }

  /** Two tasks that do not compare equal are not both tied with x. */
  lemma NotBothTied(key: SortKey, x: Task, y: Task, z: Task)
    requires Compare(key, y, z) != 0
    ensures !(TiedWith(key, x)(y) && TiedWith(key, x)(z))
  {
    if TiedWith(key, x)(y) && TiedWith(key, x)(z) {
      TiedTogether(key, x, y, z);
    }
  }

  /** The sort is stable: the tasks tied with any x come out in the order
      they went in. */
  lemma {:induction false} SortStable(key: SortKey, s: seq<Task>, x: Task)
    ensures Filter(SortBy(key, s), TiedWith(key, x)) == Filter(s, TiedWith(key, x))
  {
    if s != [] {
      SortStable(key, s[1..], x);
      InsertTies(key, s[0], SortBy(key, s[1..]), x);
      FilterAppend([s[0]], s[1..], TiedWith(key, x));
      assert s == [s[0]] + s[1..];
    }
  }

  /** A list already in order is left as it is. */
  lemma {:induction false} SortSorted(key: SortKey, s: seq<Task>)
    requires Sorted(key, s)
    ensures SortBy(key, s) == s
  {
    if s != [] {
      SortSorted(key, s[1..]);
      assert s == [s[0]] + s[1..];
    }
  }

  /** Both filters: the tasks the projection shows. */
  predicate Passes(filter: string, priorityFilter: string, t: Task) {
    PassesCompletion(filter, t) && PassesPriority(priorityFilter, t)
  }

  /** The first stage of getFilteredTasks, the completion filter. */
  function CompletionStage(tasks: seq<Task>, filter: string): seq<Task> {
    if filter == "active" then Filter(tasks, (t: Task) => !t.completed)
    else if filter == "completed" then Filter(tasks, (t: Task) => t.completed)
    else tasks
  }

  /** The second stage of getFilteredTasks, the priority filter. */
  function PriorityStage(tasks: seq<Task>, priorityFilter: string): seq<Task> {
    if priorityFilter != "all" then Filter(tasks, (t: Task) => PriorityName(t.priority) == priorityFilter)
    else tasks
  }

  /** The two filter stages of getFilteredTasks, in storage order: they keep
      exactly the stored tasks that pass both filters. */
  function Selected(tasks: seq<Task>, filter: string, priorityFilter: string): (r: seq<Task>)
    ensures forall t :: t in r <==> t in tasks && Passes(filter, priorityFilter, t)
  {
    PriorityStage(CompletionStage(tasks, filter), priorityFilter)
  }

  /** The two stages are one filter on both conditions: same tasks, same
      multiplicities, same order. */
  lemma SelectedIsOneFilter(tasks: seq<Task>, filter: string, priorityFilter: string)
    ensures Selected(tasks, filter, priorityFilter) == Filter(tasks, (t: Task) => Passes(filter, priorityFilter, t))
  {
    var both := (t: Task) => Passes(filter, priorityFilter, t);
    var complete := (t: Task) => PassesCompletion(filter, t);
    var ranked := (t: Task) => PriorityName(t.priority) == priorityFilter;
    if filter == "active" {
      FilterCongruent(tasks, (t: Task) => !t.completed, complete);
    } else if filter == "completed" {
      FilterCongruent(tasks, (t: Task) => t.completed, complete);
    } else {
      FilterAll(tasks, complete);
    }
    assert CompletionStage(tasks, filter) == Filter(tasks, complete);
    if priorityFilter != "all" {
      FilterFilter(tasks, complete, ranked, both);
    } else {
      FilterCongruent(tasks, complete, both);
    }
  }

  /** getFilteredTasks: exactly the tasks that pass both filters, each as
      often as it is stored, ordered as the sort selection asks; an unknown
      sort selection leaves them in storage order. */
  function FilteredTasks(tasks: seq<Task>, filter: string, priorityFilter: string, sort: string): (r: seq<Task>)
    ensures forall t :: multiset(r)[t] == if Passes(filter, priorityFilter, t) then multiset(tasks)[t] else 0
    ensures sort == "createdAt" ==>
      forall i, j :: 0 <= i < j < |r| ==> r[i].createdAt >= r[j].createdAt
    ensures sort == "priority" ==>
      forall i, j :: 0 <= i < j < |r| ==>
        Rank(r[i].priority) < Rank(r[j].priority)
        || (Rank(r[i].priority) == Rank(r[j].priority) && r[i].createdAt >= r[j].createdAt)
    ensures sort != "createdAt" && sort != "priority" ==> r == Filter(tasks, (t: Task) => Passes(filter, priorityFilter, t))
  {
    var selected := Selected(tasks, filter, priorityFilter);
    SelectedIsOneFilter(tasks, filter, priorityFilter);
    FilterMultiset(tasks, (t: Task) => Passes(filter, priorityFilter, t));
    if sort == "createdAt" then
      var r := SortBy(ByCreatedAt, selected);
      SortedMeaning(ByCreatedAt, r);
      r
    else if sort == "priority" then
      var r := SortBy(ByPriority, selected);
      SortedMeaning(ByPriority, r);
      r
    else selected
  }

  /** What the comparators' order says about the fields. */
  lemma SortedMeaning(key: SortKey, r: seq<Task>)
    requires Sorted(key, r)
    ensures key == ByCreatedAt ==>
      forall i, j :: 0 <= i < j < |r| ==> r[i].createdAt >= r[j].createdAt
    ensures key == ByPriority ==>
      forall i, j :: 0 <= i < j < |r| ==>
        Rank(r[i].priority) < Rank(r[j].priority)
        || (Rank(r[i].priority) == Rank(r[j].priority) && r[i].createdAt >= r[j].createdAt)
  {
    forall i, j | 0 <= i < j < |r| ensures Compare(key, r[i], r[j]) <= 0 {
    }
  }

  /** The count renderCount shows: the tasks not completed. */
  function ActiveCount(tasks: seq<Task>): (n: nat)
    ensures n <= |tasks|
  {
    |Filter(tasks, (t: Task) => !t.completed)|
  }

  /** The active count is the length of the "active" view under any priority
      "all" and any sort. */
  lemma ActiveCountIsActiveView(tasks: seq<Task>, sort: string)
    ensures ActiveCount(tasks) == |FilteredTasks(tasks, "active", "all", sort)|
  {
    var r := FilteredTasks(tasks, "active", "all", sort);
    FilterCongruent(tasks, (t: Task) => !t.completed, (t: Task) => Passes("active", "all", t));
    var sel := Filter(tasks, (t: Task) => Passes("active", "all", t));
    FilterMultiset(tasks, (t: Task) => Passes("active", "all", t));
    assert multiset(r) == multiset(sel);
    assert |r| == |multiset(r)| == |multiset(sel)| == |sel|;
  }

  /** Open and completed tasks add up to all tasks. */
  lemma {:induction false} ActiveCountComplement(tasks: seq<Task>)
    ensures ActiveCount(tasks) + |Filter(tasks, (t: Task) => t.completed)| == |tasks|
  {
    if tasks != [] {
      ActiveCountComplement(tasks[1..]);
    }
  }
}
