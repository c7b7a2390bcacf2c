# To-do app task store, in Dafny

A model of the logic of a single-page to-do list (`tutorial-1-todo-app/app.js`):
the sanitiser that turns decoded records into tasks, the load step that runs it
over the stored array, the `state` record with its mutations (add, toggle,
delete and the three view selections), the view projection that filters and
sorts a copy of the list, and the count of open tasks.

Modules, leaf first:

- `Wrappers` (`wrappers.dfy`): `Option`, and `Outcome` for a call that either
  returns or throws.
- `Text` (`text.dfy`): `String.prototype.trim` over the ECMAScript whitespace
  and line-terminator characters, and `length` in UTF-16 code units.
- `JsValues` (`js_values.dfy`): a decoded JSON value (`Undefined` for a missing
  property), `Boolean(v)` and `Number(v)`. `Number(v)` throws a TypeError for an
  object with its own `"toString"` key, directly or inside an array, since
  such an object has no usable conversion to a primitive; otherwise it returns
  a number or NaN (`None`).
- `Lists` (`lists.dfy`): `Array.prototype.filter` and `.filter(Boolean)` with
  their order and multiplicity lemmas, `map` with the index, and `Collect`, a
  run of calls that throws as soon as one of them throws.
- `Tasks` (`tasks.dfy`): `Priority`, `Task`, `PRIORITY_ORDER`,
  `sanitizePriority`, `normalizeTask`, the load step, and the save/load round trip.
- `Projection` (`projection.dfy`): `getFilteredTasks` (completion filter,
  priority filter, stable sort of a copy) and the active count.
- `Store` (`store.dfy`): the `state` record as class `TodoStore`, whose methods
  change it in place; the list operations they are proved against.
- `Scenarios` (`scenarios.dfy`): two sessions against `TodoStore` whose
  outcome follows from the contracts alone.

Inputs the app draws from the environment are parameters: `Date.now()` and
`generateId()` are the `now` and `freshId` arguments of `AddTask`, and one
`Stamp(id, now)` per record during load. The view selections are kept as the
strings the app stores (`"all"`, `"active"`, `"completed"`, `"high"`, ...); a
value the code does not test for behaves as the code makes it behave (an
unknown completion filter shows everything, an unknown priority filter shows
nothing, an unknown sort leaves storage order). `TodoStore.Valid()` (every
stored text is non-empty and trimmed) holds after the constructor and after
`Load`, and every method keeps it.

Where the code differs from the app's documented behaviour, the model follows
the code:

- `createdAt` is replaced by the clock only when `Number(...)` is NaN or 0
  (app.js:73); a negative or any other non-zero number is kept.
- The 200-character cap is applied only by `addTask` (app.js:93); loaded texts
  are not capped.
- The cap counts UTF-16 code units, as `length` does, so a character outside
  the basic multilingual plane counts twice.
- `toggleTask` flips only the first task with the id, while `deleteTask`
  removes every task with it.
- A record whose `createdAt` conversion throws (app.js:73) is not skipped. The
  exception leaves the `map` of the load step and reaches `load`'s catch
  (app.js:48-51), so the whole stored list loads as empty.

## Model

| member | source | states |
|---|---|---|
| `Text.Trim` | tutorial-1-todo-app/app.js:87 | an all-whitespace input trims to empty; otherwise the result is the infix that remains after the maximal whitespace prefix (`Leading`) and suffix (`Trailing`) are dropped, and it starts and ends with a non-whitespace character |
| `Text.TrimIdempotent` | tutorial-1-todo-app/app.js:87 | trimming trimmed text changes nothing |
| `Text.TrimEmptyIff` | tutorial-1-todo-app/app.js:89 | trimmed text is empty exactly when every character of the input is whitespace |
| `Text.NormalTextIsTrimmed` | tutorial-1-todo-app/app.js:66-67 | non-empty text without surrounding whitespace is exactly the non-empty text trim leaves unchanged |
| `Text.Utf16Length` | tutorial-1-todo-app/app.js:93 | the length counts between one and two units per character, exactly one when no character lies outside the basic multilingual plane |
| `JsValues.IsObject` | tutorial-1-todo-app/app.js:65 | a value passes the object test exactly when it is truthy and not a primitive |
| `JsValues.Truthy` | tutorial-1-todo-app/app.js:72 | `Boolean(v)` is false exactly for undefined, null, false, 0 and the empty string |
| `JsValues.ToNumber` | tutorial-1-todo-app/app.js:73 | `Number(v)` throws exactly when the value is an object with its own "toString" key, or an array with such an object among its elements or those of its nested arrays; otherwise it is a number's own value, a string's parsed value, NaN for a plain object and for an array of two or more elements, and never throws for a primitive |
| `Tasks.Rank` | tutorial-1-todo-app/app.js:3 | the ranks are 0 for high, 1 for medium and 2 for low |
| `Tasks.SanitizePriority` | tutorial-1-todo-app/app.js:82-84 | a valid priority name is returned as itself; any other value, of any type, becomes medium |
| `Tasks.SanitizePriorityIdempotent` | tutorial-1-todo-app/app.js:82-84 | sanitising the name of a sanitised priority returns the same priority |
| `Tasks.CreatedAt` | tutorial-1-todo-app/app.js:73 | a non-zero converted number is kept; NaN and 0 give the clock; the conversion's TypeError propagates; a returned 0 means the clock read 0 |
| `Tasks.NormalizeTask` | tutorial-1-todo-app/app.js:64-76 | returns null exactly for the non-objects, the records whose text is not a string and those whose text is blank; throws exactly when the record passes those tests and its createdAt cannot be converted; otherwise the text is the trimmed non-empty string, the priority is sanitised, completed is the truthiness of the field, an id that is neither null nor undefined is kept and a missing one is generated, and createdAt follows `CreatedAt` |
| `Tasks.NormalizeAll` | tutorial-1-todo-app/app.js:47 | the map step normalises the i-th record with the i-th fresh values, one result per record |
| `Lists.Collect` | tutorial-1-todo-app/app.js:47 | a run of calls throws exactly when one of them throws, and otherwise returns every call's value in order |
| `Lists.CollectAppend` | tutorial-1-todo-app/app.js:47 | a run over a + b throws when either part does, and otherwise returns a's values followed by b's |
| `Lists.Compact` | tutorial-1-todo-app/app.js:47 | `.filter(Boolean)` keeps exactly the present values and never lengthens the sequence |
| `Lists.CompactAppend` | tutorial-1-todo-app/app.js:47 | `.filter(Boolean)` distributes over concatenation, so kept values stay in order |
| `Tasks.LoadTasks` | tutorial-1-todo-app/app.js:47 | the load step throws exactly when normalizeTask throws on some record; otherwise it returns at most as many tasks as records, each with non-empty trimmed text |
| `Tasks.NormalizeAllAppend` | tutorial-1-todo-app/app.js:47 | mapping normalizeTask over a + b maps over a, then over b with the id and clock values that follow a's |
| `Tasks.LoadTasksAppend` | tutorial-1-todo-app/app.js:47 | loading a + b throws when loading either part throws, and is otherwise loading a followed by loading b: relative order is kept |
| `Tasks.LoadTasksOne` | tutorial-1-todo-app/app.js:47 | one record loads to its normalised task, to nothing if rejected, and throws if normalizeTask throws on it |
| `Tasks.LoadParsed` | tutorial-1-todo-app/app.js:42-52 | a payload that is absent, undecodable or not an array loads as the empty list; an array loads as the load step's result, or as the empty list when the load step throws |
| `Tasks.NormalizeRecord` | tutorial-1-todo-app/app.js:58 | the record saved for a task with trimmed text, a non-zero timestamp and an id that is a non-null JSON value normalises back to that task |
| `Tasks.LoadSaved` | tutorial-1-todo-app/app.js:47 | loading what save wrote does not throw and returns the same tasks in the same order |
| `Tasks.LoadedPersistable` | tutorial-1-todo-app/app.js:64-76 | with a clock that never reads 0, every task loaded from decoded JSON survives a further save and load |
| `Tasks.NormalizedPersistable` | tutorial-1-todo-app/app.js:64-76 | with a non-zero clock, a task normalised from decoded JSON is persistable |
| `Scenarios.ThrowingRecordResetsLoad` | tutorial-1-todo-app/app.js:42-52 | a stored array ending in a record with non-blank text and a createdAt object with its own "toString" key loads as the empty list, whatever the other records are |
| `Projection.PassesCompletion` | tutorial-1-todo-app/app.js:129-133 | "active" passes only open tasks, "completed" only done ones, any other selection every task |
| `Projection.PassesPriority` | tutorial-1-todo-app/app.js:135-137 | a priority selection other than "all" passes exactly the tasks of the priority it names, and nothing when it names none |
| `Projection.Compare` | tutorial-1-todo-app/app.js:141-143 | by creation time, a sorts before b exactly when it is newer; by priority, exactly when its rank is lower, or the rank is the same and it is newer; equal exactly for the same timestamp (and priority) |
| `Projection.CompareAntisymmetric` | tutorial-1-todo-app/app.js:140-144 | swapping the arguments of either comparator negates its result |
| `Projection.CompareTransitive` | tutorial-1-todo-app/app.js:140-144 | "may come before" under either comparator is transitive |
| `Projection.Insert` | tutorial-1-todo-app/app.js:139-144 | insertion adds exactly one occurrence of the element |
| `Projection.InsertSorted` | tutorial-1-todo-app/app.js:139-144 | insertion into a sorted list gives a sorted list |
| `Projection.SortBy` | tutorial-1-todo-app/app.js:139-144 | the sorted copy is a permutation of the list and every element may come before every later one |
| `Projection.SortStable` | tutorial-1-todo-app/app.js:139-144 | tasks that compare equal leave the sort in the order they entered it |
| `Projection.SortSorted` | tutorial-1-todo-app/app.js:139-144 | a list already in order is returned unchanged |
| `Projection.SortedMeaning` | tutorial-1-todo-app/app.js:140-144 | sorted by creation time means non-increasing timestamps; sorted by priority means non-decreasing rank with non-increasing timestamps within a rank |
| `Projection.Selected` | tutorial-1-todo-app/app.js:127-137 | the completion filter followed by the priority filter keeps exactly the stored tasks that pass both filters |
| `Projection.SelectedIsOneFilter` | tutorial-1-todo-app/app.js:127-137 | for each combination of selections, the two stages equal a single filter on both conditions: same tasks, same multiplicities, storage order |
| `Projection.FilteredTasks` | tutorial-1-todo-app/app.js:126-147 | the view holds exactly the tasks passing both filters, each as often as stored; it is newest first for "createdAt", by rank then newest first for "priority", and in storage order for any other sort value |
| `Projection.ActiveCount` | tutorial-1-todo-app/app.js:216 | the open-task count never exceeds the number of tasks |
| `Projection.ActiveCountIsActiveView` | tutorial-1-todo-app/app.js:216 | the count equals the length of the "active" view under any sort |
| `Projection.ActiveCountComplement` | tutorial-1-todo-app/app.js:216 | open and completed tasks add up to all tasks |
| `Scenarios.HighBeforeLow` | tutorial-1-todo-app/app.js:143 | sorted by priority, a high task shows before a low one stored in front of it |
| `Store.FirstIndexOf` | tutorial-1-todo-app/app.js:112 | the search returns the first index holding the id, or reports that no task has it |
| `Store.Toggle` | tutorial-1-todo-app/app.js:111-117 | toggling keeps the number of tasks |
| `Store.ToggleAt` | tutorial-1-todo-app/app.js:111-117 | with no matching id nothing changes; otherwise only the first matching task changes, and only its completed flag, which flips |
| `Store.ToggleInvolution` | tutorial-1-todo-app/app.js:111-117 | toggling the same id twice restores the list |
| `Store.ToggleActiveCount` | tutorial-1-todo-app/app.js:114 | toggling a present id moves the open count by one against the flag it flips; an absent id leaves it unchanged |
| `Store.Delete` | tutorial-1-todo-app/app.js:120 | after deletion no task has the id, and every task with another id remains |
| `Store.DeleteAppend` | tutorial-1-todo-app/app.js:120 | deletion distributes over concatenation, so the remaining tasks keep their order |
| `Store.DeleteAbsent` | tutorial-1-todo-app/app.js:120 | deleting an id no task has changes nothing |
| `Store.DeleteIdempotent` | tutorial-1-todo-app/app.js:120 | deleting twice equals deleting once |
| `Store.SortNewestFirst` | tutorial-1-todo-app/app.js:141 | a task no older than the others comes first when sorted newest first |
| `Store.NewestFirst` | tutorial-1-todo-app/app.js:98-104 | a task put in front with a timestamp no older than any stored one is the first task of the newest-first view whenever the filters let it through |
| `Store.TodoStore.constructor` | tutorial-1-todo-app/app.js:5-11 | the initial state: no tasks, filter "all", priority filter "all", sort "createdAt" |
| `Store.TodoStore.Load` | tutorial-1-todo-app/app.js:281 | the task list becomes the loaded list; the selections are untouched |
| `Store.TodoStore.AddTask` | tutorial-1-todo-app/app.js:86-109 | blank text is refused, then text over 200 code units, both leaving the list unchanged; otherwise exactly one task (fresh id, trimmed text, not completed, the clock's time, sanitised priority) is put in front of the old list |
| `Store.TodoStore.ToggleTask` | tutorial-1-todo-app/app.js:111-117 | the list becomes its toggled version; the selections are untouched |
| `Store.TodoStore.DeleteTask` | tutorial-1-todo-app/app.js:119-124 | the list becomes the list without the id; the selections are untouched |
| `Store.TodoStore.SetFilter` | tutorial-1-todo-app/app.js:253-260 | the filter becomes the value; re-rendering happens exactly when it differs from the old one, and otherwise nothing changes |
| `Store.TodoStore.SetPriorityFilter` | tutorial-1-todo-app/app.js:262-269 | as SetFilter, for the priority filter |
| `Store.TodoStore.SetSort` | tutorial-1-todo-app/app.js:271-278 | as SetFilter, for the sort selection |

## Left out

- Browser storage: `isLocalStorageAvailable`, the `storageAvailable` flag, the
  reads and writes in `load` and `save`, the removal of a corrupted key, and
  the save after every mutation (app.js:24-62). The payload reaches the model
  already decoded, as `LoadParsed`'s argument.
- `JSON.parse` and `JSON.stringify`: records are decoded values, and
  `ToRecord` is the record a saved task reads back as when its id is a JSON
  value. An id holding `undefined` somewhere would be written as `null` or
  dropped; `Persistable` excludes such ids, and the round trip is not claimed
  for them.
- `Date.now()` and `Math.random()` in `generateId`, `normalizeTask` and
  `addTask`: passed in as parameters. Id uniqueness rests on randomness and is
  not modelled.
- Rendering and wiring: `render`, `renderFilters`, `renderTasks`, the text of
  `renderCount`, `clearInput`, the handlers' `closest`/`dataset` lookups and
  `init`'s listener registration; `showError` and its timer; `priorityLabel`.
- Numbers are integers: fractional and non-finite numbers are not modelled, and
  `StringToNumber` reads strings with a fraction, an exponent, a hex, octal or
  binary prefix, or `Infinity` as NaN.
- Integers stay exact beyond 2^53, unlike JavaScript numbers. For example,
  `Number("9007199254740993")` is 9007199254740992 in JavaScript, so two
  timestamps the app treats as tied are ordered in the model.
- Strings are sequences of Unicode scalar values. A JavaScript string can hold
  a lone UTF-16 surrogate, and a Dafny `char` cannot, so such texts are not
  modelled.
- Ids that are arrays or objects compare structurally here; `===` compares them
  by reference.
- `toggleTask` assigns `completed` on the task object in place; the model
  replaces that element of the list, so aliasing of task objects is not captured.
- The engine's sort algorithm: the model sorts by insertion, which is stable,
  and a stable sort under these comparators has only one possible result.
- `Store.Toggle`: its own contract states only the length; what toggling does
  is stated by `ToggleAt` and `ToggleInvolution`.
