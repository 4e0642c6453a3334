/** The mapping between the list and the JSON array stored under the `tasks`
    key: what saveTasks writes for each <li> and what loadTasks rebuilds from
    each stored entry. */
module Storage {
  import opened Wrappers
  import opened Tasks

  /** One entry of the stored array. */
  datatype Record = Record(text: string, completed: bool, priority: string)

  /** The three priorities the selector offers. */
  predicate KnownPriority(p: string) {
    p == "low" || p == "medium" || p == "high"
  }

  /** The priority saveTasks writes: `low` and `medium` are recognised by their
      class, anything else is written as `high`. */
  function SavedPriority(p: string): (q: string)
    ensures KnownPriority(q)
    ensures KnownPriority(p) ==> q == p
    ensures !KnownPriority(p) ==> q == "high"
  {
    if p == "low" then "low" else if p == "medium" then "medium" else "high"
  }

  /** The entry saveTasks builds from one <li>: span text, completed class and
      priority; visibility and the dragging marker are not saved. */
  function ToRecord(t: Item): Record {
    Record(t.text, t.completed, SavedPriority(t.priority))
  }

  /** The whole array saveTasks writes, in list order. */
  function Snapshot(s: seq<Item>): seq<Record> {
    seq(|s|, i requires 0 <= i < |s| => ToRecord(s[i]))
  }

  /** The <li> loadTasks builds from one entry: its text, its completed mark,
      the class `priority-` followed by the stored priority, shown and not
      being dragged. */
  function FromRecord(r: Record): Item {
    Item(r.text, r.completed, r.priority, false, false)
  }

  /** The items loadTasks appends: none when the key is absent, one per entry
      otherwise, in stored order. */
  function Loaded(stored: Option<seq<Record>>): seq<Item> {
    match stored
    case None => []
    case Some(records) => seq(|records|, i requires 0 <= i < |records| => FromRecord(records[i]))
  }

  /** Saving one more item appends one more entry. */
  lemma SnapshotAppend(s: seq<Item>, t: Item)
    ensures Snapshot(s + [t]) == Snapshot(s) + [ToRecord(t)]
  {
    assert forall i :: 0 <= i < |s| ==> (s + [t])[i] == s[i];
  }

  /** Loading one more entry appends one more item. */
  lemma LoadedAppend(records: seq<Record>, r: Record)
    ensures Loaded(Some(records + [r])) == Loaded(Some(records)) + [FromRecord(r)]
  {
    assert forall i :: 0 <= i < |records| ==> (records + [r])[i] == records[i];
  }

  /** Load then save: when every stored priority is one of the three the
      selector offers, saving the loaded list writes back exactly the stored
      array, entry by entry and in order. */
  lemma LoadSaveRoundTrip(records: seq<Record>)
    requires forall i :: 0 <= i < |records| ==> KnownPriority(records[i].priority)
    ensures Snapshot(Loaded(Some(records))) == records
  {
    var back := Snapshot(Loaded(Some(records)));
    assert |back| == |records|;
    forall i | 0 <= i < |records|
      ensures back[i] == records[i]
    {
      assert back[i] == ToRecord(FromRecord(records[i]));
    }
  }

  /** Save then load, for any list: each item comes back with its text and
      completed mark, with its priority as saveTasks wrote it, shown and not
      being dragged. */
  lemma SaveLoadResets(s: seq<Item>)
    ensures |Loaded(Some(Snapshot(s)))| == |s|
    ensures forall i :: 0 <= i < |s| ==>
      Loaded(Some(Snapshot(s)))[i] ==
        s[i].(priority := SavedPriority(s[i].priority), hidden := false, dragging := false)
  {
    var back := Loaded(Some(Snapshot(s)));
    forall i | 0 <= i < |s|
      ensures back[i] == s[i].(priority := SavedPriority(s[i].priority), hidden := false, dragging := false)
    {
      assert back[i] == FromRecord(ToRecord(s[i]));
    }
  }

  /** Save, load and save again, for any list: the second save writes exactly
      what the first one wrote. */
  lemma SaveLoadSaveRoundTrip(s: seq<Item>)
    ensures Snapshot(Loaded(Some(Snapshot(s)))) == Snapshot(s)
  {
    var saved := Snapshot(s);
    forall i | 0 <= i < |saved|
      ensures KnownPriority(saved[i].priority)
    {
      assert saved[i] == ToRecord(s[i]);
    }
    LoadSaveRoundTrip(saved);
  }

  /** Save then load: a list of shown, not dragged items with known priorities
      is rebuilt exactly by loading what saving it wrote. */
  lemma SaveLoadRoundTrip(s: seq<Item>)
    requires forall i :: 0 <= i < |s| ==> KnownPriority(s[i].priority) && !s[i].hidden && !s[i].dragging
    ensures Loaded(Some(Snapshot(s))) == s
  {
    SaveLoadResets(s);
  }

  /** An entry whose priority is not `low` or `medium` comes back as `high`
      after a load and a save; text and completed mark are kept. */
  lemma UnknownPrioritySavedAsHigh(records: seq<Record>, i: nat)
    requires i < |records| && !KnownPriority(records[i].priority)
    ensures |Snapshot(Loaded(Some(records)))| == |records|
    ensures Snapshot(Loaded(Some(records)))[i] == records[i].(priority := "high")
  {
  }

  /** One load and save normalises the stored array: loading and saving it a
      second time changes nothing. */
  lemma ReloadIsStable(records: seq<Record>)
    ensures var once := Snapshot(Loaded(Some(records)));
      Snapshot(Loaded(Some(once))) == once
  {
    var once := Snapshot(Loaded(Some(records)));
    forall i | 0 <= i < |once|
      ensures KnownPriority(once[i].priority)
    {
      assert once[i].priority == SavedPriority(records[i].priority);
    }
    LoadSaveRoundTrip(once);
  }

  /** Toggling changes what a save would write, so a stored array that matched
      the list before a toggle no longer matches it afterwards. */
  lemma FlipMakesStoredStale(s: seq<Item>, i: nat)
    requires i < |s|
    ensures Snapshot(Flip(s, i)) != Snapshot(s)
  {
    assert Snapshot(Flip(s, i))[i].completed != Snapshot(s)[i].completed;
  }
}
