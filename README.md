# To-do list with an undo stack — a Dafny model

`to_do.py` is a command-line to-do list. It keeps its tasks in a JSON file (`todos.json`).
Each task is a record with `text`, `done`, `created` and `done_at`.

`add`, `list`, `done` and `delete` reload the whole file. `add`, `done <i>` and `delete <i>` each push a deep
copy of the collection they loaded onto a process-local undo stack. They then edit the
collection and write the whole file back. A bad index aborts the command before anything
is pushed or saved. `undo` pops the latest copy and writes it back, and pushes nothing
itself. `list` shows the tasks in display order: unfinished tasks first, then by
lower-cased text, with Python's stable `sorted`. The indices taken by `done` and
`delete` are positions in storage order, not in display order.

The model has three modules:

- `Tasks` (`tasks.dfy`) holds the task record and the file as found on disk
  (`Missing | Malformed | Holds(items)`). It also holds `Load`, `Save` and the two
  positional edits: marking a task done and removing one.
- `Listing` (`listing.dfy`) holds the sort key (`done`, ASCII-lowercased text), Python's
  string order, and the listing as a stable insertion sort. It proves that the listing
  is key-sorted, is a permutation of the stored tasks, and keeps storage order among
  equal keys. It also proves that these three properties determine the listing uniquely.
- `TodoApp` (`todo_app.dfy`) holds the class `TodoList`, whose fields are the file
  (`disk`) and the undo stack (`undoStack`). Its methods are the commands. Each method
  states the complete new state. It also states that this state equals a pure transition
  (`Apply` or `UndoStep`) applied to the old state. The multi-step undo properties are
  proved on those transitions.

The model keeps the file rather than just the loaded list, because `load` runs again on
every command except `undo`. A `done` or `delete` that is rejected against a malformed file leaves the
file malformed. An accepted command overwrites it.

On these points the model follows what `to_do.py` does:

- Task text is not validated: empty text is accepted.
- `done_at` is re-stamped when an already-done task is marked done again.
- The undo stack has any depth; it is not limited to one level.
- The stack starts empty in every process and is never saved. A separate `undo`
  invocation therefore always reports that there is nothing to undo; the constructor
  states this.

## Model

| member | source | states |
|---|---|---|
| `Tasks.NewTask` | to_do.py:24 | the appended record has the given text, is not done, has no completion stamp and was created at the clock reading |
| `Tasks.Load` | to_do.py:8-12 | no contract of its own: the stored list, or `[]` for a missing or malformed file; its properties are `Tasks.LoadFallsBackToEmpty` and `Tasks.SaveLoadRoundTrip` |
| `Tasks.Save` | to_do.py:14-16 | no contract of its own: the file afterwards holds exactly the collection; `Tasks.SaveLoadRoundTrip` states the round trip |
| `Tasks.LoadFallsBackToEmpty` | to_do.py:8-12 | a missing or malformed file loads as the empty collection; a well-formed one loads as exactly what it holds |
| `Tasks.SaveLoadRoundTrip` | to_do.py:8-16 | loading what `save` wrote gives back the same collection |
| `Tasks.MarkDone` | to_do.py:40-41 | the marked task is done and stamped with the clock reading, and its text and creation time are unchanged |
| `Tasks.MarkedDone` | to_do.py:40-41 | marking position k keeps the length, sets done and `done_at` at k, keeps text and creation time at k, and leaves every other position unchanged |
| `Tasks.RemovedAt` | to_do.py:48 | removing position k shortens the list by one, keeps the records before k, shifts the later ones down by one, and removes exactly one copy of the k-th record |
| `Listing.LowerChar` | to_do.py:30 | lower-casing maps `A`..`Z` to `a`..`z` and leaves every other character alone |
| `Listing.Lower` | to_do.py:30 | the lowered text has the same length and lowers each character |
| `Listing.TextLe` | to_do.py:30 | no contract of its own: Python's `<=` on `str`, lexicographic by code point with a proper prefix first; its order properties are the lemmas below |
| `Listing.KeyOf` | to_do.py:30 | no contract of its own: the key lambda, the pair (done, lowered text) |
| `Listing.KeyLe` | to_do.py:30 | no contract of its own: Python's tuple `<=` on keys, `False` before `True`, then the text; `Listing.KeyLeTotalOrder` proves it a total order |
| `Listing.SortedView` | to_do.py:30 | no contract of its own: `sorted` as a stable insertion sort; the four `SortedView*` lemmas state that it is sorted, a permutation, stable, and the only such arrangement |
| `Listing.TextLeAntisymmetric` | to_do.py:30 | two strings that compare `<=` both ways are equal |
| `Listing.TextLeTransitive` | to_do.py:30 | string `<=` is transitive |
| `Listing.KeyLeTotalOrder` | to_do.py:30 | the order on the key (done, lowered text), with False before True, is reflexive, total, antisymmetric and transitive |
| `Listing.SortedViewSorted` | to_do.py:30 | the listing is sorted by the key: every task's key is `<=` the key of every later task |
| `Listing.SortedViewPermutes` | to_do.py:30 | the listing holds exactly the stored tasks, each as often as it is stored |
| `Listing.SortedViewStable` | to_do.py:30 | for every key, the tasks with that key appear in the listing in storage order (stability of `sorted`) |
| `Listing.SortedViewIsTheStableSort` | to_do.py:30 | any key-sorted sequence that keeps storage order among equal keys is the listing itself |
| `Listing.SameKeyedSortedEqual` | to_do.py:30 | two key-sorted sequences that agree key by key are equal |
| `TodoApp.Apply` | to_do.py:36-49 | no contract of its own: one of `add`, `done` or `delete` on the state; `TodoApp.ApplyPushesPreState` states its effect |
| `TodoApp.UndoStep` | to_do.py:51-54 | no contract of its own: `undo` on the state; `TodoApp.UndoStepPops` and `TodoApp.UndoNeverPushes` state its effect |
| `TodoApp.UndoStepPops` | to_do.py:53-54 | undo on a non-empty stack loads back exactly the top snapshot and pops it |
| `TodoApp.ApplyPushesPreState` | to_do.py:36-49 | a rejected index leaves file and stack unchanged; an accepted command pushes exactly the collection it loaded and saves the edited one |
| `TodoApp.UndoRevertsApply` | to_do.py:51-54 | one undo after an accepted command restores the loaded collection and the stack as they were before the command |
| `TodoApp.UndoNeverPushes` | to_do.py:51-54 | undo only ever shrinks the stack, keeping the entries below its top, so it cannot be undone |
| `TodoApp.RunExtendsStack` | to_do.py:18-19 | after any commands, the stack has grown by one entry per accepted command, with the old stack as a prefix |
| `TodoApp.UndoAllRestores` | to_do.py:51-54 | after any commands, as many undos as accepted commands restore the original collection and the original stack |
| `TodoApp.ExtraUndoFindsNothing` | to_do.py:52 | in a process whose stack started empty, the undo after those leaves the stack empty and changes nothing |
| `TodoApp.SelfTestScenario` | to_do.py:78-81 | adding Alpha, beta and Beta feature, marking position 2 done and undoing leaves beta not done with no stamp and the three tasks as added |
| `TodoApp.ListingOrderExample` | to_do.py:27-34 | stored order beta, Alpha, Zeta(done) lists as Alpha, beta, Zeta, so display position 1 is not storage position 1 |
| `TodoApp.EqualKeysKeepStorageOrder` | to_do.py:30 | two tasks with equal keys are listed in the order they are stored, either way round |
| `TodoApp.CaseVariantsKeepStorageOrder` | to_do.py:30 | "Beta" and "beta" get the same key through lower-casing, so each is listed in its storage position |
| `TodoApp.TodoList.constructor` | to_do.py:6 | a process starts on the file as it is, with an empty undo stack |
| `TodoApp.TodoList.Snapshot` | to_do.py:18-19 | pushes the given collection and changes nothing else |
| `TodoApp.TodoList.Store` | to_do.py:14-16 | the file afterwards holds exactly the given collection |
| `TodoApp.TodoList.AddTask` | to_do.py:21-25 | the file holds the loaded collection plus the new task at the end; exactly the loaded collection is pushed |
| `TodoApp.TodoList.DoneTask` | to_do.py:36-42 | for an index outside 1..N: returns None and leaves file and stack unchanged. Otherwise: returns the task's text, saves the collection with that position marked done at the clock reading, and pushes the loaded collection |
| `TodoApp.TodoList.DeleteTask` | to_do.py:44-49 | for an index outside 1..N: returns None and leaves file and stack unchanged. Otherwise: returns the removed task's text, saves the collection without that position, and pushes the loaded collection |
| `TodoApp.TodoList.Undo` | to_do.py:51-54 | on an empty stack: reports false and changes nothing. Otherwise: saves the top snapshot, pops it and reports true |
| `TodoApp.TodoList.ListTasks` | to_do.py:27-34 | returns the stored tasks key-sorted, as a permutation that keeps storage order among equal keys; it modifies neither the file nor the stack |

## Left out

- File I/O and JSON are not modelled: no `open`, `json.load`, `json.dump` or `os.path.exists`. The file is the abstract value `StoredFile`.
- A file holding valid JSON that is not a list of task objects is not modelled. `load` would return it and a later command may fail on it.
- Errors `load` does not catch, such as a decoding error, are not modelled.
- I/O failures in `save` are not modelled; `save` always succeeds.
- The clock `ts()` becomes a `now` parameter of the commands that stamp a task.
- `Listing.Lower`: lowers ASCII letters only, not full Unicode `str.lower()`.
- `Listing.LowerChar`: lowers `A`..`Z` only, not the other letters full Unicode `str.lower()` lowers.
- Each task is a value, so every snapshot is a deep copy by construction. The aliasing that `copy.deepcopy` prevents between Python dicts cannot occur in the model.
- The console output is not modelled: `print` formatting, the messages and `help`. The commands return what they print: the affected text, or whether anything was undone.
- `main`, its argument dispatch and the `int(argv[1])` parse with its exceptions are not modelled.
- The file deletion in `_test` and the `__main__` block are not modelled. The `_test` scenario appears twice, on purpose. `TodoApp.SelfTestScenario` proves it on the pure transitions. `TodoApp.SelfTest` drives the class through it from a missing file, to show that the method contracts alone suffice for a caller.
