/** The page's event handlers over an explicit list state: the live list of
    <li> items, the array last written to storage, and the open-task count the
    page displays. */
module App {
  import opened Wrappers
  import opened Text
  import opened Tasks
  import opened Storage
  import opened Filter
  import opened Drag

  class TodoList {
    /** The <li> elements of the list, in document order. */
    var tasks: seq<Item>
    /** The value under the `tasks` storage key; `None` when the key is unset. */
    var stored: Option<seq<Record>>
    /** The number shown in the "Open tasks" label. */
    var openCount: nat

    /** The label shows the number of open items: every handler that changes a
        completed mark or the set of items refreshes it. */
    predicate Valid()
      reads this
    {
      openCount == OpenCount(tasks)
    }

    /** Page start-up: the list is rebuilt from storage and the label set. The
        stored array is only read. */
    constructor (storage: Option<seq<Record>>)
      ensures Valid()
      ensures tasks == Loaded(storage) && stored == storage
    {
      tasks := [];
      stored := storage;
      openCount := 0;
      new;
      LoadTasks();
      assert tasks == Loaded(storage);
      UpdateOpenCount();
    }

    /** updateOpenCount: refreshes the label from the list. */
    method UpdateOpenCount()
      modifies this`openCount
      ensures Valid()
    {
      openCount := OpenCount(tasks);
    }

    /** saveTasks: overwrites storage with one entry per item, in list order. */
    method SaveTasks()
      modifies this`stored
      ensures stored == Some(Snapshot(tasks))
    {
      var records: seq<Record> := [];
      var i := 0;
      while i < |tasks|
        invariant 0 <= i <= |tasks|
        invariant records == Snapshot(tasks[..i])
      {
        assert tasks[..i + 1] == tasks[..i] + [tasks[i]];
        SnapshotAppend(tasks[..i], tasks[i]);
        records := records + [ToRecord(tasks[i])];
        i := i + 1;
      }
      assert tasks[..i] == tasks;
      stored := Some(records);
    }

    /** loadTasks: appends one item per stored entry; nothing when the key is
        unset. */
    method LoadTasks()
      modifies this`tasks
      ensures tasks == old(tasks) + Loaded(stored)
    {
      match stored {
        case None =>
          assert Loaded(stored) == [];
        case Some(records) =>
          var i := 0;
          while i < |records|
            invariant 0 <= i <= |records|
            invariant tasks == old(tasks) + Loaded(Some(records[..i]))
          {
            assert records[..i + 1] == records[..i] + [records[i]];
            LoadedAppend(records[..i], records[i]);
            tasks := tasks + [FromRecord(records[i])];
            i := i + 1;
          }
          assert records[..i] == records;
      }
    }

    /** The add button. The trimmed input is refused when it has fewer than
        three characters, and then nothing changes. Otherwise one open, shown
        item is appended whose text is the trimmed input followed by the
        priority in parentheses, storage is rewritten from the whole list and
        the label goes up by one. */
    method Add(input: string, priority: string) returns (ok: bool)
      requires Valid()
      modifies this
      ensures Valid()
      ensures ok <==> |Trim(input)| >= MinTaskLength
      ensures !ok ==> tasks == old(tasks) && stored == old(stored) && openCount == old(openCount)
      ensures ok ==> tasks == old(tasks) + [Item(Label(Trim(input), priority), false, priority, false, false)]
      ensures ok ==> stored == Some(Snapshot(tasks)) && openCount == old(openCount) + 1
    {
      var taskText := Trim(input);
      if !Accepts(input) {
        ok := false;
      } else {
        var t := Item(Label(taskText, priority), false, priority, false, false);
        OpenCountAppend(tasks, t);
        tasks := tasks + [t];
        SaveTasks();
        UpdateOpenCount();
        ok := true;
      }
    }

    /** The checkbox of item `i`: flips its completed mark and refreshes the
        label. Storage is not rewritten. */
    method Toggle(i: nat)
      requires Valid() && i < |tasks|
      modifies this
      ensures Valid()
      ensures tasks == Flip(old(tasks), i)
      ensures stored == old(stored)
      ensures openCount == if old(tasks)[i].completed then old(openCount) + 1 else old(openCount) - 1
    {
      OpenCountFlip(tasks, i);
      tasks := Flip(tasks, i);
      UpdateOpenCount();
    }

    /** The remove button of item `i`: deletes the item, rewrites storage from
        the remaining list and refreshes the label. */
    method Remove(i: nat)
      requires Valid() && i < |tasks|
      modifies this
      ensures Valid()
      ensures tasks == RemoveAt(old(tasks), i)
      ensures stored == Some(Snapshot(tasks))
      ensures openCount == old(openCount) - (if old(tasks)[i].completed then 0 else 1)
    {
      OpenCountRemove(tasks, i);
      tasks := RemoveAt(tasks, i);
      SaveTasks();
      UpdateOpenCount();
    }

    /** filterTasks: sets each item's display by the rule of `mode`. */
    method FilterTasks(mode: FilterMode)
      requires Valid()
      modifies this`tasks
      ensures Valid()
      ensures tasks == Filtered(old(tasks), mode)
    {
      var i := 0;
      while i < |tasks|
        invariant 0 <= i <= |tasks| == |old(tasks)|
        invariant forall j :: 0 <= j < i ==> tasks[j] == Filtered(old(tasks), mode)[j]
        invariant forall j :: i <= j < |tasks| ==> tasks[j] == old(tasks)[j]
      {
        tasks := tasks[i := tasks[i].(hidden := !Visible(mode, tasks[i]))];
        i := i + 1;
      }
      assert tasks == Filtered(old(tasks), mode);
      FilteredKeepsOpenCount(old(tasks), mode);
    }

    /** dragstart on item `i`: marks it as the one being dragged. */
    method DragStart(i: nat)
      requires Valid() && i < |tasks|
      modifies this`tasks
      ensures Valid()
      ensures tasks == old(tasks)[i := old(tasks)[i].(dragging := true)]
    {
      tasks := tasks[i := tasks[i].(dragging := true)];
      OpenCountOnlyCompleted(tasks, old(tasks));
    }

    /** dragend on item `i`: clears its dragging marker. */
    method DragEnd(i: nat)
      requires Valid() && i < |tasks|
      modifies this`tasks
      ensures Valid()
      ensures tasks == old(tasks)[i := old(tasks)[i].(dragging := false)]
    {
      tasks := tasks[i := tasks[i].(dragging := false)];
      OpenCountOnlyCompleted(tasks, old(tasks));
    }

    /** dragover with the pointer at height `y`, given each item's box. The
        first item marked as dragged moves in front of the item
        GetDragAfterElement picks, or to the end when it picks none. With no
        marked item the DOM call fails and nothing moves. The list stays a
        permutation of itself; storage is not rewritten. */
    method DragOver(y: real, boxes: seq<Box>)
      requires Valid() && |boxes| == |tasks|
      modifies this`tasks
      ensures Valid()
      ensures multiset(tasks) == multiset(old(tasks))
      ensures FirstDragging(old(tasks)).None? ==> tasks == old(tasks)
      ensures FirstDragging(old(tasks)).Some? && GetDragAfterElement(old(tasks), boxes, y).None? ==>
        tasks == MoveToEnd(old(tasks), FirstDragging(old(tasks)).value)
      ensures FirstDragging(old(tasks)).Some? && GetDragAfterElement(old(tasks), boxes, y).Some? ==>
        tasks == MoveBefore(old(tasks), FirstDragging(old(tasks)).value, GetDragAfterElement(old(tasks), boxes, y).value)
    {
      var dragging := FirstDragging(tasks);
      if dragging.None? {
        return;
      }
      var d := dragging.value;
      var afterElement := GetDragAfterElement(tasks, boxes, y);
      GetDragAfterElementSpec(tasks, boxes, y);
      if afterElement.None? {
        MoveToEndSpec(tasks, d);
        MoveToEndKeepsOpenCount(tasks, d);
        tasks := MoveToEnd(tasks, d);
      } else {
        var a := afterElement.value;
        MoveBeforeSpec(tasks, d, a);
        MoveBeforeKeepsOpenCount(tasks, d, a);
        tasks := MoveBefore(tasks, d, a);
      }
    }
  }

  /** The add, tick and untick walk-through on a fresh page, for any input
      that trimming leaves as it is (such as "Buy milk"), with priority high:
      after the add the list holds one open item whose text ends in "(high)",
      storage holds its entry and the label reads 1; after the tick the label
      reads 0 while storage still holds the unticked entry; after the untick
      the list is back to the item the add created. */
  method AddScenario(input: string)
    requires |input| >= MinTaskLength
    requires !IsWhitespace(input[0]) && !IsWhitespace(input[|input| - 1])
  {
    var page := new TodoList(None);
    TrimKeepsInner(input);
    var ok := page.Add(input, "high");
    assert ok;
    var added := Item(Label(input, "high"), false, "high", false, false);
    assert page.tasks == [added];
    assert page.openCount == 1;
    var entry := Record(Label(input, "high"), false, "high");
    assert Snapshot([added]) == [entry];
    page.Toggle(0);
    assert page.openCount == 0;
    assert page.stored == Some([entry]);
    page.Toggle(0);
    FlipOnlyAt([added], 0);
    assert page.tasks == [added];
  }
}
