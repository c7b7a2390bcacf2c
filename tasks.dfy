/**
 * The task record and the sanitiser that turns decoded records into tasks:
 * sanitizePriority, normalizeTask and the load step that maps normalizeTask
 * over the decoded array and keeps the non-null results.
 */
module Tasks {
  import opened Wrappers
  import opened Text
  import opened JsValues
  import opened Lists

  datatype Priority = High | Medium | Low

  /** PRIORITY_ORDER: high before medium before low. */
  function Rank(p: Priority): (r: nat)
    ensures r <= 2
    ensures r == 0 <==> p == High
    ensures r == 2 <==> p == Low
  {
    match p
    case High => 0
    case Medium => 1
    case Low => 2
  }

  /** The string a priority is stored and compared as. */
  function PriorityName(p: Priority): string {
    match p
    case High => "high"
    case Medium => "medium"
    case Low => "low"
  }

  /** A task. The id is whatever value the record carried, or a generated
      string; createdAt is a millisecond timestamp. */
  datatype Task = Task(id: JsValue, text: string, completed: bool, createdAt: int, priority: Priority)

  /** The values generateId() and Date.now() return at one call site, which
      the model takes as inputs. */
  datatype Stamp = Stamp(id: string, now: int)

  predicate IsPriorityName(v: JsValue) {
    v == Str("high") || v == Str("medium") || v == Str("low")
  }

  /** sanitizePriority: a valid name is kept, anything else becomes medium. */
  function SanitizePriority(v: JsValue): (p: Priority)
    ensures IsPriorityName(v) ==> Str(PriorityName(p)) == v
    ensures !IsPriorityName(v) ==> p == Medium
  {
    match v
    case Str(s) => if s == "high" then High else if s == "low" then Low else Medium
    case _ => Medium
  }

  /** Sanitising an already sanitised priority changes nothing. */
  lemma SanitizePriorityIdempotent(v: JsValue)
    ensures SanitizePriority(Str(PriorityName(SanitizePriority(v)))) == SanitizePriority(v)
  {
  }

  /** `Number(v) || Date.now()`: a non-zero number is kept, NaN and 0 are
      replaced by the clock, and a conversion that throws propagates. */
  function CreatedAt(v: JsValue, now: int): (r: Outcome<int>)
    ensures r.Threw? <==> ToNumber(v).Threw?
    ensures ToNumber(v).Returned? && ToNumber(v).value.Some? && ToNumber(v).value.value != 0 ==>
      r == Returned(ToNumber(v).value.value)
    ensures ToNumber(v) == Returned(None) || ToNumber(v) == Returned(Some(0)) ==> r == Returned(now)
    ensures r.Returned? && r.value == 0 ==> now == 0
  {
    match ToNumber(v)
    case Threw => Threw
    case Returned(Some(n)) => Returned(if n != 0 then n else now)
    case Returned(None) => Returned(now)
  }

  /** Whether normalizeTask rejects the record (returns null) before it
      converts anything: not an object, no string text, or blank text. */
  predicate Rejected(v: JsValue) {
    !IsObject(v) || !Get(v, "text").Str? || Trim(Get(v, "text").s) == []
  }

  /** normalizeTask: rejects what is not an object, has no string text, or
      has blank text; otherwise keeps the trimmed text and an existing id and
      coerces the other fields, throwing when `Number(createdAt)` does. */
  function NormalizeTask(v: JsValue, stamp: Stamp): (r: Outcome<Option<Task>>)
    ensures r == Returned(None) <==> Rejected(v)
    ensures r.Threw? <==> !Rejected(v) && ConversionThrows(Get(v, "createdAt"))
    ensures r.Returned? && r.value.Some? ==>
      var t := r.value.value;
      && IsNormalText(t.text) && t.text == Trim(Get(v, "text").s)
      && t.priority == SanitizePriority(Get(v, "priority"))
      && t.completed == Truthy(Get(v, "completed"))
      && t.id == (if IsNullish(Get(v, "id")) then Str(stamp.id) else Get(v, "id"))
      && Returned(t.createdAt) == CreatedAt(Get(v, "createdAt"), stamp.now)
  {
    if !IsObject(v) then Returned(None)
    else
      var text := if Get(v, "text").Str? then Trim(Get(v, "text").s) else "";
      if text == [] then Returned(None)
      else
        var id := Get(v, "id");
        var priority := SanitizePriority(Get(v, "priority"));
        match CreatedAt(Get(v, "createdAt"), stamp.now)
        case Threw => Threw
        case Returned(createdAt) =>
          Returned(Some(Task(
            id := if IsNullish(id) then Str(stamp.id) else id,
            text := text,
            completed := Truthy(Get(v, "completed")),
            createdAt := createdAt,
            priority := priority)))
  }

  /** `records.map(normalizeTask)`, the i-th call drawing stamps(i) for its generateId() and Date.now(). */
  function NormalizeAll(records: seq<JsValue>, stamps: nat -> Stamp): (r: seq<Outcome<Option<Task>>>)
    ensures |r| == |records|
    ensures forall i :: 0 <= i < |records| ==> r[i] == NormalizeTask(records[i], stamps(i))
  {
    MapIndexed(records, Normalizer(stamps))
  }

  /** normalizeTask as the i-th call of the map sees it. */
  function Normalizer(stamps: nat -> Stamp): (JsValue, nat) -> Outcome<Option<Task>> {
    (v: JsValue, i: nat) => NormalizeTask(v, stamps(i))
  }

  /** The load step `parsed.map(normalizeTask).filter(Boolean)`: it throws
      when normalizeTask throws on some record, and otherwise keeps the
      non-null results. */
  function LoadTasks(records: seq<JsValue>, stamps: nat -> Stamp): (r: Outcome<seq<Task>>)
    ensures r.Threw? <==> exists i :: 0 <= i < |records| && NormalizeTask(records[i], stamps(i)).Threw?
    ensures r.Returned? ==> |r.value| <= |records|
    ensures r.Returned? ==> forall i :: 0 <= i < |r.value| ==> IsNormalText(r.value[i].text)
  {
    var all := NormalizeAll(records, stamps);
    match Collect(all)
    case Threw => Threw
    case Returned(results) =>
      var r := Compact(results);
      forall i | 0 <= i < |r| ensures IsNormalText(r[i].text) {
        assert r[i] in r;
        var j :| 0 <= j < |results| && results[j] == Some(r[i]);
        assert all[j] == Returned(Some(r[i]));
      }
      Returned(r)
  }

  /** load() once JSON.parse has run: None is an unavailable store, a missing
      or empty key, or a payload that does not decode; a payload that is not
      an array is corruption, and so is a record normalizeTask throws on. All
      of these give the empty list. */
  function LoadParsed(parsed: Option<JsValue>, stamps: nat -> Stamp): (r: seq<Task>)
    ensures parsed.Some? && parsed.value.Arr? && LoadTasks(parsed.value.elems, stamps).Returned? ==>
      r == LoadTasks(parsed.value.elems, stamps).value
    ensures parsed.Some? && parsed.value.Arr? && LoadTasks(parsed.value.elems, stamps).Threw? ==> r == []
    ensures !(parsed.Some? && parsed.value.Arr?) ==> r == []
    ensures forall i :: 0 <= i < |r| ==> IsNormalText(r[i].text)
  {
    if parsed.Some? && parsed.value.Arr? then
      match LoadTasks(parsed.value.elems, stamps)
      case Returned(tasks) => tasks
      case Threw => []
    else []
  }

  /** Shifts the stamps past the first k calls. */
  function Skip(stamps: nat -> Stamp, k: nat): nat -> Stamp {
    (i: nat) => stamps(k + i)
  }

  /** Normalising a + b normalises a, then b with the stamps that follow a's. */
  lemma NormalizeAllAppend(a: seq<JsValue>, b: seq<JsValue>, stamps: nat -> Stamp)
    ensures NormalizeAll(a + b, stamps) == NormalizeAll(a, stamps) + NormalizeAll(b, Skip(stamps, |a|))
  {
    MapIndexedAppend(a, b, Normalizer(stamps), Normalizer(Skip(stamps, |a|)));
  }

  /** The load step keeps the order of the records: loading a + b throws
      when either part throws, and otherwise loads a, then b with the stamps
      that follow a's. */
  lemma LoadTasksAppend(a: seq<JsValue>, b: seq<JsValue>, stamps: nat -> Stamp)
    ensures LoadTasks(a + b, stamps) ==
      var front, back := LoadTasks(a, stamps), LoadTasks(b, Skip(stamps, |a|));
      if front.Threw? || back.Threw? then Threw else Returned(front.value + back.value)
  {
    var front, back := NormalizeAll(a, stamps), NormalizeAll(b, Skip(stamps, |a|));
    NormalizeAllAppend(a, b, stamps);
    CollectAppend(front, back);
    if Collect(front).Returned? && Collect(back).Returned? {
      CompactAppend(Collect(front).value, Collect(back).value);
    }
  }

  /** A single record loads to its normalised task, to nothing when it is
      rejected, and throws when normalizeTask throws on it. */
  lemma LoadTasksOne(v: JsValue, stamps: nat -> Stamp)
    ensures LoadTasks([v], stamps) ==
      match NormalizeTask(v, stamps(0))
      case Threw => Threw
      case Returned(Some(t)) => Returned([t])
      case Returned(None) => Returned([])
  {
    var all := NormalizeAll([v], stamps);
    assert all == [NormalizeTask(v, stamps(0))];
    assert all[1..] == [];
    assert Collect(all[1..]) == Returned([]);
    match NormalizeTask(v, stamps(0))
    case Threw =>
      assert all[0] == Threw;
    case Returned(x) =>
      assert all[0] == Returned(x);
      assert [x] + [] == [x];
      assert Collect(all) == Returned([x]);
      assert [x][1..] == [];
      assert Compact([x][1..]) == [];
      assert Compact([x]) == if x.Some? then [x.value] else [];
      assert LoadTasks([v], stamps) == Returned(Compact([x]));
  }

  /** The record save() writes for a task, as JSON.parse reads it back. */
  function ToRecord(t: Task): JsValue {
    Obj(map[
      "id" := t.id,
      "text" := Str(t.text),
      "completed" := Bool(t.completed),
      "createdAt" := Num(t.createdAt),
      "priority" := Str(PriorityName(t.priority))])
  }

  /** The array save() writes for a task list. */
  function Saved(tasks: seq<Task>): (r: seq<JsValue>)
    ensures |r| == |tasks| && forall i :: 0 <= i < |tasks| ==> r[i] == ToRecord(tasks[i])
  {
    seq(|tasks|, i requires 0 <= i < |tasks| => ToRecord(tasks[i]))
  }

  /** A task that survives a save and a load unchanged: its text is trimmed
      and not blank, its timestamp is not 0, and its id is neither null nor
      undefined and holds nothing JSON.stringify would drop or turn into null. */
  predicate Persistable(t: Task) {
    IsNormalText(t.text) && t.createdAt != 0 && !IsNullish(t.id) && IsJsonValue(t.id)
  }

  /** The saved record of a persistable task normalises back to the task. */
  lemma NormalizeRecord(t: Task, stamp: Stamp)
    requires Persistable(t)
    ensures NormalizeTask(ToRecord(t), stamp) == Returned(Some(t))
  {
    var v := ToRecord(t);
    assert Get(v, "text") == Str(t.text);
    assert Get(v, "id") == t.id;
    assert Get(v, "completed") == Bool(t.completed);
    assert Get(v, "createdAt") == Num(t.createdAt);
    assert Get(v, "priority") == Str(PriorityName(t.priority));
    NormalTextIsTrimmed(t.text);
    assert !Rejected(v);
    assert CreatedAt(Num(t.createdAt), stamp.now) == Returned(t.createdAt);
    var r := NormalizeTask(v, stamp);
    assert r.Returned? && r.value.Some?;
    assert r.value.value.priority == t.priority;
  }

  /** Saving then loading gives back the same tasks, in the same order. */
  lemma LoadSaved(tasks: seq<Task>, stamps: nat -> Stamp)
    requires forall i :: 0 <= i < |tasks| ==> Persistable(tasks[i])
    ensures LoadTasks(Saved(tasks), stamps) == Returned(tasks)
  {
    var all := NormalizeAll(Saved(tasks), stamps);
    forall i | 0 <= i < |tasks| ensures all[i] == Returned(Some(tasks[i])) {
      NormalizeRecord(tasks[i], stamps(i));
    }
    var results := Collect(all).value;
    assert forall i :: 0 <= i < |results| ==> results[i] == Some(tasks[i]);
    CompactAllPresent(results);
    assert Compact(results) == tasks;
  }

  /** With a clock that never reads 0, every task loaded from decoded JSON
      is persistable, so a save and a reload return exactly what was loaded. */
  lemma LoadedPersistable(records: seq<JsValue>, stamps: nat -> Stamp)
    requires forall i: nat :: stamps(i).now != 0
    requires forall i :: 0 <= i < |records| ==> IsJsonValue(records[i])
    ensures LoadTasks(records, stamps).Returned? ==>
      forall i :: 0 <= i < |LoadTasks(records, stamps).value| ==> Persistable(LoadTasks(records, stamps).value[i])
  {
    var all := NormalizeAll(records, stamps);
    if Collect(all).Returned? {
      var results := Collect(all).value;
      var r := Compact(results);
      assert LoadTasks(records, stamps) == Returned(r);
      forall i | 0 <= i < |r| ensures Persistable(r[i]) {
        assert r[i] in r;
        var j :| 0 <= j < |results| && results[j] == Some(r[i]);
        assert all[j] == Returned(Some(r[i]));
        NormalizedPersistable(records[j], stamps(j));
      }
    }
  }

  /** A task normalised from a decoded record with a non-zero clock is
      persistable. */
  lemma NormalizedPersistable(v: JsValue, stamp: Stamp)
    requires stamp.now != 0 && IsJsonValue(v)
    ensures NormalizeTask(v, stamp).Returned? && NormalizeTask(v, stamp).value.Some? ==>
      Persistable(NormalizeTask(v, stamp).value.value)
  {
    var r := NormalizeTask(v, stamp);
    if r.Returned? && r.value.Some? {
      var t := r.value.value;
      var id := Get(v, "id");
      assert IsJsonValue(id) || id == Undefined;
      assert Returned(t.createdAt) == CreatedAt(Get(v, "createdAt"), stamp.now);
    }
  }
}
