/** Task records, the persisted file and the positional edits the commands
    apply to the task collection. */
module Tasks {

  datatype Option<+T> = None | Some(value: T)

  /** One entry of the to-do list: the JSON object with keys
      `text`, `done`, `created` and `done_at`. Timestamps are the strings
      the clock produced; they are never parsed. */
  datatype Task = Task(text: string, done: bool, created: string, doneAt: Option<string>)

  /** The backing file as `load` finds it: absent, present but not valid
      JSON, or holding a serialised task list. */
  datatype StoredFile = Missing | Malformed | Holds(items: seq<Task>)

  /** The record `add_task` appends: not done, no completion stamp,
      created at `now`. */
  function NewTask(text: string, now: string): (t: Task)
    ensures t.text == text && !t.done && t.created == now && t.doneAt == None
  {
    Task(text, false, now, None)
  }

  /** What `load` yields: the stored list, or the empty list when the file
      is missing or malformed. */
  function Load(f: StoredFile): seq<Task>
  {
    match f
    case Holds(items) => items
    case _ => []
  }

  /** What `save` writes: the whole collection, overwriting the file. */
  function Save(items: seq<Task>): StoredFile
  {
    Holds(items)
  }

  /** A missing or corrupt file is read as the empty collection, never as an error. */
  lemma LoadFallsBackToEmpty(f: StoredFile)
    ensures !f.Holds? ==> Load(f) == []
    ensures f.Holds? ==> Load(f) == f.items
  {
  }

  /** Saving a collection and loading it again gives back the same collection. */
  lemma SaveLoadRoundTrip(items: seq<Task>)
    ensures Load(Save(items)) == items
  {
  }

  /** `i` is a 1-based position the index-taking commands accept. */
  predicate ValidIndex(items: seq<Task>, i: int)
  {
    1 <= i <= |items|
  }

  /** The task with its completion flag set and `done_at` stamped with `now`,
      whether or not it was already done. */
  function MarkDone(t: Task, now: string): (d: Task)
    ensures d.done && d.doneAt == Some(now)
    ensures d.text == t.text && d.created == t.created
  {
    t.(done := true, doneAt := Some(now))
  }

  /** The collection after `items[k]` is marked done at `now`. */
  function MarkedDone(items: seq<Task>, k: nat, now: string): (r: seq<Task>)
    requires k < |items|
    ensures |r| == |items|
    ensures r[k].done && r[k].doneAt == Some(now)
    ensures r[k].text == items[k].text && r[k].created == items[k].created
    ensures forall j :: 0 <= j < |items| && j != k ==> r[j] == items[j]
  {
    items[k := MarkDone(items[k], now)]
  }

  /** The collection after the record at `k` is removed; later records
      move down one position. */
  function RemovedAt(items: seq<Task>, k: nat): (r: seq<Task>)
    requires k < |items|
    ensures |r| == |items| - 1
    ensures forall j :: 0 <= j < k ==> r[j] == items[j]
    ensures forall j :: k <= j < |r| ==> r[j] == items[j + 1]
    ensures multiset(r) + multiset{items[k]} == multiset(items)
  {
    assert items == items[..k] + [items[k]] + items[k + 1..];
    items[..k] + items[k + 1..]
  }
}
