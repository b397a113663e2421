/** The commands of the to-do tool over the task file and the in-process
    undo stack: every accepted mutation loads the collection, pushes a copy
    of it, edits it and saves it back; `undo` pops the latest copy and saves
    it; listing only reads. */
module TodoApp {
  import opened Tasks
  import opened Listing

  /** A mutating command, with the clock reading it uses where it stamps a task. */
  datatype Command = Add(text: string, now: string) | Done(index: int, now: string) | Delete(index: int)

  /** Everything the commands can change: the file and the undo stack. */
  datatype State = State(disk: StoredFile, undoStack: seq<seq<Task>>) {
    /** The collection `load` reads in this state. */
    function Items(): seq<Task>
    {
      Load(disk)
    }
  }

  /** Whether the command gets past its index check; `add` always does. */
  predicate Accepts(items: seq<Task>, c: Command)
  {
    match c
    case Add(_, _) => true
    case Done(i, _) => ValidIndex(items, i)
    case Delete(i) => ValidIndex(items, i)
  }

  /** The collection an accepted command saves. */
  function Edit(items: seq<Task>, c: Command): seq<Task>
    requires Accepts(items, c)
  {
    match c
    case Add(text, now) => items + [NewTask(text, now)]
    case Done(i, now) => MarkedDone(items, i - 1, now)
    case Delete(i) => RemovedAt(items, i - 1)
  }

  /** The state after one mutating command: a rejected index leaves file and
      stack as they were; otherwise the loaded collection is pushed and the
      edited one saved. */
  function Apply(s: State, c: Command): State
  {
    var items := Load(s.disk);
    if Accepts(items, c) then State(Save(Edit(items, c)), s.undoStack + [items])
    else s
  }

  /** The state after `undo`: the top snapshot saved and popped, or nothing
      changed when the stack is empty. */
  function UndoStep(s: State): State
  {
    if s.undoStack == [] then s
    else State(Save(s.undoStack[|s.undoStack| - 1]), s.undoStack[..|s.undoStack| - 1])
  }

  /** The state after running the commands in order. */
  function Run(s: State, cmds: seq<Command>): State
    decreases |cmds|
  {
    if cmds == [] then s else Run(Apply(s, cmds[0]), cmds[1..])
  }

  /** How many of the commands were accepted, i.e. pushed a snapshot. */
  function Pushes(s: State, cmds: seq<Command>): nat
    decreases |cmds|
  {
    if cmds == [] then 0
    else (if Accepts(s.Items(), cmds[0]) then 1 else 0) + Pushes(Apply(s, cmds[0]), cmds[1..])
  }

  /** `undo` issued `n` times. */
  function UndoTimes(s: State, n: nat): State
  {
    if n == 0 then s else UndoStep(UndoTimes(s, n - 1))
  }

  /** A command whose index is rejected changes neither the file nor the stack;
      an accepted one pushes exactly the collection it found. */
  lemma ApplyPushesPreState(s: State, c: Command)
    ensures !Accepts(s.Items(), c) ==> Apply(s, c) == s
    ensures Accepts(s.Items(), c) ==>
      Apply(s, c).undoStack == s.undoStack + [s.Items()] && Apply(s, c).Items() == Edit(s.Items(), c)
  {
  }

  /** One `undo` after an accepted command restores the collection the command
      found, and the stack it found. */
  lemma UndoRevertsApply(s: State, c: Command)
    requires Accepts(s.Items(), c)
    ensures UndoStep(Apply(s, c)).Items() == s.Items()
    ensures UndoStep(Apply(s, c)).undoStack == s.undoStack
  {
  }

  /** `undo` never pushes: it cannot itself be undone. */
  lemma UndoNeverPushes(s: State)
    ensures |UndoStep(s).undoStack| == if s.undoStack == [] then 0 else |s.undoStack| - 1
    ensures UndoStep(s).undoStack <= s.undoStack
  {
  }

  /** The stack grows by one snapshot per accepted command and keeps what it held. */
  lemma {:induction false} RunExtendsStack(s: State, cmds: seq<Command>)
    ensures |Run(s, cmds).undoStack| == |s.undoStack| + Pushes(s, cmds)
    ensures s.undoStack <= Run(s, cmds).undoStack
    decreases |cmds|
  {
    if cmds != [] {
      RunExtendsStack(Apply(s, cmds[0]), cmds[1..]);
    }
  }

  /** Undo on a non-empty stack loads back exactly the top snapshot. */
  lemma UndoStepPops(x: State)
    requires x.undoStack != []
    ensures UndoStep(x).Items() == x.undoStack[|x.undoStack| - 1]
    ensures UndoStep(x).undoStack == x.undoStack[..|x.undoStack| - 1]
  {
  }

  /** After any commands, as many undos as there were accepted commands give
      back the original collection and the original stack. */
  lemma {:induction false} UndoAllRestores(s: State, cmds: seq<Command>)
    ensures UndoTimes(Run(s, cmds), Pushes(s, cmds)).Items() == s.Items()
    ensures UndoTimes(Run(s, cmds), Pushes(s, cmds)).undoStack == s.undoStack
    decreases |cmds|
  {
    if cmds != [] {
      var s1 := Apply(s, cmds[0]);
      var n := Pushes(s1, cmds[1..]);
      var r1 := UndoTimes(Run(s1, cmds[1..]), n);
      assert Run(s, cmds) == Run(s1, cmds[1..]);
      UndoAllRestores(s1, cmds[1..]);
      ApplyPushesPreState(s, cmds[0]);
      if Accepts(s.Items(), cmds[0]) {
        assert Pushes(s, cmds) == n + 1;
        assert UndoTimes(Run(s, cmds), n + 1) == UndoStep(r1);
        assert r1.undoStack == s.undoStack + [s.Items()];
        UndoStepPops(r1);
      } else {
        assert Pushes(s, cmds) == n;
      }
    }
  }

  /** Starting a process with an empty stack, the undo after the last
      restoring one reports that there is nothing to undo and changes nothing. */
  lemma ExtraUndoFindsNothing(s: State, cmds: seq<Command>)
    requires s.undoStack == []
    ensures UndoTimes(Run(s, cmds), Pushes(s, cmds)).undoStack == []
    ensures UndoStep(UndoTimes(Run(s, cmds), Pushes(s, cmds))) == UndoTimes(Run(s, cmds), Pushes(s, cmds))
  {
    UndoAllRestores(s, cmds);
  }

  /** The self-test run: add "Alpha", "beta" and "Beta feature" to an empty
      file, mark the second stored task done, then undo; "beta" is unfinished
      again with no completion stamp, and the three tasks are as added. */
  lemma SelfTestScenario(t1: string, t2: string, t3: string, t4: string)
    ensures var s := Run(State(Missing, []), [Add("Alpha", t1), Add("beta", t2), Add("Beta feature", t3), Done(2, t4)]);
      var u := UndoStep(s);
      && s.Items() == [NewTask("Alpha", t1), MarkDone(NewTask("beta", t2), t4), NewTask("Beta feature", t3)]
      && s.Items()[1].done && s.Items()[1].doneAt == Some(t4)
      && u.Items() == [NewTask("Alpha", t1), NewTask("beta", t2), NewTask("Beta feature", t3)]
      && !u.Items()[1].done && u.Items()[1].doneAt == None
      && |u.undoStack| == 3
  {
    var cs := [Add("Alpha", t1), Add("beta", t2), Add("Beta feature", t3), Done(2, t4)];
    var s0 := State(Missing, []);
    var s1 := Apply(s0, cs[0]);
    var s2 := Apply(s1, cs[1]);
    var s3 := Apply(s2, cs[2]);
    var s4 := Apply(s3, cs[3]);
    assert s3.Items() == [NewTask("Alpha", t1), NewTask("beta", t2), NewTask("Beta feature", t3)];
    assert cs[1..][1..][1..][1..] == [];
    calc {
      Run(s0, cs);
      Run(s1, cs[1..]);
      Run(s2, cs[1..][1..]);
      Run(s3, cs[1..][1..][1..]);
      Run(s4, cs[1..][1..][1..][1..]);
      s4;
    }
  }

  /** The display index is not the storage index: for the stored order
      beta, Alpha, Zeta (done) the listing shows Alpha, beta, Zeta, so the
      task `done 1` marks (beta) is not the one listed first. */
  lemma ListingOrderExample(t: string)
    ensures var beta := NewTask("beta", t);
      var alpha := NewTask("Alpha", t);
      var zeta := MarkDone(NewTask("Zeta", t), t);
      SortedView([beta, alpha, zeta]) == [alpha, beta, zeta]
  {
    var beta := NewTask("beta", t);
    var alpha := NewTask("Alpha", t);
    var zeta := MarkDone(NewTask("Zeta", t), t);
    assert Lower("Alpha") == "alpha";
    assert Lower("beta") == "beta";
    assert TextLe("alpha", "beta");
    assert !TextLe("beta", "alpha");
    assert KeyOf(alpha) == SortKey(false, "alpha");
    assert KeyOf(beta) == SortKey(false, "beta");
    assert [beta, alpha, zeta][1..] == [alpha, zeta];
    assert [alpha, zeta][1..] == [zeta];
    assert SortedView([zeta]) == [zeta];
    assert SortedView([alpha, zeta]) == InsertByKey(alpha, [zeta]) == [alpha, zeta];
    assert InsertByKey(beta, [zeta]) == [beta, zeta];
    assert InsertByKey(beta, [alpha, zeta]) == [alpha] + InsertByKey(beta, [zeta]);
  }

  /** Tasks whose keys are equal (same flag, texts equal after lowering)
      are listed in storage order, whichever of them is stored first. */
  lemma EqualKeysKeepStorageOrder(x: Task, y: Task)
    requires KeyOf(x) == KeyOf(y)
    ensures SortedView([x, y]) == [x, y]
  {
    assert [x, y][1..] == [y];
    KeyLeTotalOrder(KeyOf(x), KeyOf(x), KeyOf(x));
    assert SortedView([y]) == [y];
  }

  /** Lower-casing makes "Beta" and "beta" the same key, so the two are never
      reordered against each other: each is listed where it is stored. */
  lemma CaseVariantsKeepStorageOrder(t: string)
    ensures var upper := NewTask("Beta", t);
      var lower := NewTask("beta", t);
      SortedView([upper, lower]) == [upper, lower] && SortedView([lower, upper]) == [lower, upper]
  {
    var upper := NewTask("Beta", t);
    var lower := NewTask("beta", t);
    assert Lower("Beta") == "beta" == Lower("beta");
    EqualKeysKeepStorageOrder(upper, lower);
    EqualKeysKeepStorageOrder(lower, upper);
  }

  /** The tool's state in one process: the task file and the undo stack,
      which starts empty and is never persisted. */
  class TodoList {
    var disk: StoredFile
    var undoStack: seq<seq<Task>>

    /** A process starting against the file as it is on disk. */
    constructor (file: StoredFile)
      ensures disk == file && undoStack == []
    {
      disk := file;
      undoStack := [];
    }

    /** The collection `load` would read now. */
    function Items(): seq<Task>
      reads this
    {
      Current().Items()
    }

    function Current(): State
      reads this
    {
      State(disk, undoStack)
    }

    /** Push a copy of `items` onto the undo stack. */
    method Snapshot(items: seq<Task>)
      modifies this`undoStack
      ensures undoStack == old(undoStack) + [items]
    {
      undoStack := undoStack + [items];
    }

    /** Overwrite the file with `items`. */
    method Store(items: seq<Task>)
      modifies this`disk
      ensures disk == Save(items) && Items() == items
    {
      disk := Save(items);
    }

    /** `add_task`: append a fresh unfinished task created at `now`. */
    method AddTask(text: string, now: string)
      modifies this
      ensures disk == Holds(old(Items()) + [NewTask(text, now)])
      ensures undoStack == old(undoStack) + [old(Items())]
      ensures Current() == Apply(old(Current()), Add(text, now))
    {
      var items := Load(disk);
      Snapshot(items);
      items := items + [NewTask(text, now)];
      Store(items);
    }

    /** `done_task`: mark the task at 1-based storage position `i` done at
        `now`, answering its text, or answer None for a bad index. */
    method DoneTask(i: int, now: string) returns (marked: Option<string>)
      modifies this
      ensures !ValidIndex(old(Items()), i) ==>
        marked == None && disk == old(disk) && undoStack == old(undoStack)
      ensures ValidIndex(old(Items()), i) ==>
        && marked == Some(old(Items())[i - 1].text)
        && disk == Holds(MarkedDone(old(Items()), i - 1, now))
        && undoStack == old(undoStack) + [old(Items())]
      ensures Current() == Apply(old(Current()), Done(i, now))
    {
      var items := Load(disk);
      if !(1 <= i <= |items|) {
        return None;
      }
      Snapshot(items);
      items := items[i - 1 := items[i - 1].(done := true)];
      items := items[i - 1 := items[i - 1].(doneAt := Some(now))];
      Store(items);
      marked := Some(items[i - 1].text);
    }

    /** `delete_task`: remove the task at 1-based storage position `i`,
        answering its text, or answer None for a bad index. */
    method DeleteTask(i: int) returns (removed: Option<string>)
      modifies this
      ensures !ValidIndex(old(Items()), i) ==>
        removed == None && disk == old(disk) && undoStack == old(undoStack)
      ensures ValidIndex(old(Items()), i) ==>
        && removed == Some(old(Items())[i - 1].text)
        && disk == Holds(RemovedAt(old(Items()), i - 1))
        && undoStack == old(undoStack) + [old(Items())]
      ensures Current() == Apply(old(Current()), Delete(i))
    {
      var items := Load(disk);
      if !(1 <= i <= |items|) {
        return None;
      }
      Snapshot(items);
      var gone := items[i - 1];
      items := items[..i - 1] + items[i..];
      Store(items);
      removed := Some(gone.text);
    }

    /** `undo`: save the latest snapshot and pop it, answering false when
        there is nothing to undo. */
    method Undo() returns (undone: bool)
      modifies this
      ensures undone == (old(undoStack) != [])
      ensures !undone ==> disk == old(disk) && undoStack == old(undoStack)
      ensures undone ==>
        && disk == Holds(old(undoStack)[|old(undoStack)| - 1])
        && undoStack == old(undoStack)[..|old(undoStack)| - 1]
      ensures Current() == UndoStep(old(Current()))
    {
      if undoStack == [] {
        return false;
      }
      var prev := undoStack[|undoStack| - 1];
      undoStack := undoStack[..|undoStack| - 1];
      Store(prev);
      undone := true;
    }

    /** `list_tasks`: the stored tasks in display order. It changes nothing
        (no modifies clause), and the positions `DoneTask` and `DeleteTask`
        take stay those of `Items()`. */
    method ListTasks() returns (view: seq<Task>)
      ensures multiset(view) == multiset(Items())
      ensures SortedByKey(view)
      ensures forall k :: WithKey(view, k) == WithKey(Items(), k)
    {
      var items := Load(disk);
      view := SortedView(items);
      SortedViewPermutes(items);
      SortedViewSorted(items);
      forall k {
        SortedViewStable(items, k);
      }
    }
  }

  /** The self-test driven through the class: three adds, `done 2`, `undo`. */
  method SelfTest(t1: string, t2: string, t3: string, t4: string)
  {
    var todo := new TodoList(Missing);
    todo.AddTask("Alpha", t1);
    todo.AddTask("beta", t2);
    todo.AddTask("Beta feature", t3);
    var added := [NewTask("Alpha", t1), NewTask("beta", t2), NewTask("Beta feature", t3)];
    assert todo.Items() == added;
    var marked := todo.DoneTask(2, t4);
    assert marked == Some("beta");
    assert todo.Items()[1].done;
    var undone := todo.Undo();
    assert undone && todo.Items() == added;
    assert !todo.Items()[1].done && todo.Items()[1].doneAt == None;
  }
}
