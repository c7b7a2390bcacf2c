/**
 * Two sessions against the store, checked from the operations' contracts
 * alone: sorting by priority, and the completion filter after a toggle;
 * and a stored list that load() resets because one record throws.
 */
module Scenarios {
  import opened Wrappers
  import opened Text
  import opened JsValues
  import opened Lists
  import opened Tasks
  import opened Projection
  import opened Store

  /** Adding a high-priority task and then a low-priority one, and sorting by
      priority, shows the high one first whatever the timestamps. */
  method PrioritySortSession(first: string, second: string, id1: string, id2: string, t1: int, t2: int)
    requires IsNormalText(first) && IsNormalText(second)
    requires |first| <= 100 && |second| <= 100
  {
    NormalTextIsTrimmed(first);
    NormalTextIsTrimmed(second);
    var store := new TodoStore();
    var e1 := store.AddTask(first, Str("high"), id1, t1);
    var e2 := store.AddTask(second, Str("low"), id2, t2);
    assert e1 == None && e2 == None;
    var high := Task(Str(id1), first, false, t1, High);
    var low := Task(Str(id2), second, false, t2, Low);
    assert store.tasks == [low, high];
    var refreshed := store.SetSort("priority");
    assert refreshed;
    HighBeforeLow(high, low);
    assert FilteredTasks(store.tasks, store.filter, store.priorityFilter, store.sort) == [high, low];
  }

  /** Unfiltered and sorted by priority, a high task comes before a low one
      wherever it is stored. */
  lemma HighBeforeLow(high: Task, low: Task)
    requires high.priority == High && low.priority == Low
    ensures FilteredTasks([low, high], "all", "all", "priority") == [high, low]
  {
    var stored := [low, high];
    FilterAll(stored, (t: Task) => Passes("all", "all", t));
    assert Selected(stored, "all", "all") == stored;
    assert stored[1..] == [high];
    assert SortBy(ByPriority, [high]) == [high];
    assert Compare(ByPriority, low, high) > 0;
    assert Insert(ByPriority, low, [high]) == [high, low];
  }

  /** A toggled task leaves the active view and shows in the completed one. */
  method CompletionFilterSession(text: string, id: string, now: int)
    requires IsNormalText(text) && |text| <= 100
  {
    NormalTextIsTrimmed(text);
    var store := new TodoStore();
    var e := store.AddTask(text, Str("medium"), id, now);
    assert e == None;
    var a := Task(Str(id), text, false, now, Medium);
    assert store.tasks == [a];
    store.ToggleTask(Str(id));
    var done := a.(completed := true);
    assert store.tasks == [done];
    var r1 := store.SetFilter("active");
    var activeView := FilteredTasks(store.tasks, store.filter, store.priorityFilter, store.sort);
    assert multiset(activeView) == multiset{};
    assert activeView == [];
    var r2 := store.SetFilter("completed");
    var doneView := FilteredTasks(store.tasks, store.filter, store.priorityFilter, store.sort);
    assert multiset(doneView) == multiset{done};
    assert doneView == [done];
  }

  /** One record whose createdAt is an object with its own "toString" key
      makes normalizeTask throw, and load() then resets to the empty list,
      whatever the other records hold. */
  lemma ThrowingRecordResetsLoad(good: seq<JsValue>, text: string, stamps: nat -> Stamp)
    requires Trim(text) != []
    ensures
      var record := Obj(map["text" := Str(text), "createdAt" := Obj(map["toString" := Num(1)])]);
      LoadParsed(Some(Arr(good + [record])), stamps) == []
  {
    var record := Obj(map["text" := Str(text), "createdAt" := Obj(map["toString" := Num(1)])]);
    var records := good + [record];
    assert Get(record, "text") == Str(text);
    assert Get(record, "createdAt") == Obj(map["toString" := Num(1)]);
    assert ConversionThrows(Get(record, "createdAt"));
    assert records[|good|] == record;
    assert NormalizeTask(records[|good|], stamps(|good|)).Threw?;
    assert LoadTasks(records, stamps).Threw?;
  }
}
