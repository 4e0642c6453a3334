/** The task list the page keeps as <li> elements, lifted into a sequence of
    records, with the open-task count and the two per-item edits (flipping the
    completed mark, removing an item). */
module Tasks {

  /** One <li> of the list. `text` is the span's text, `completed` the
      `completed` class, `priority` the suffix of its `priority-...` class,
      `hidden` whether the filter set its display to `none`, `dragging` the
      `dragging` class set between dragstart and dragend. */
  datatype Item = Item(text: string, completed: bool, priority: string, hidden: bool, dragging: bool)

  /** The span text of a freshly added task: the trimmed input followed by the
      priority in parentheses. */
  function Label(taskText: string, priority: string): string {
    taskText + " (" + priority + ")"
  }

  /** Number of items without the `completed` class (the `li:not(.completed)` query). */
  function OpenCount(s: seq<Item>): (n: nat)
    ensures n <= |s|
  {
    if s == [] then 0 else OpenCount(s[..|s| - 1]) + (if s[|s| - 1].completed then 0 else 1)
  }

  /** Indices of the items the `li:not(.completed)` query matches. */
  ghost function OpenIndices(s: seq<Item>): set<nat> {
    set i: nat | i < |s| && !s[i].completed
  }

  /** The count is the size of the set of matched elements. */
  lemma {:induction false} OpenCountIsMatchedElements(s: seq<Item>)
    ensures OpenCount(s) == |OpenIndices(s)|
  {
    if s != [] {
      var p := s[..|s| - 1];
      OpenCountIsMatchedElements(p);
      var last := if s[|s| - 1].completed then {} else {|s| - 1};
      assert OpenIndices(s) == OpenIndices(p) + last;
      assert OpenIndices(p) !! last;
    }
  }

  /** The count of a concatenation is the sum of the counts. */
  lemma {:induction false} OpenCountConcat(a: seq<Item>, b: seq<Item>)
    ensures OpenCount(a + b) == OpenCount(a) + OpenCount(b)
  {
    if b != [] {
      var b' := b[..|b| - 1];
      assert (a + b)[..|a + b| - 1] == a + b';
      OpenCountConcat(a, b');
    } else {
      assert a + b == a;
    }
  }

  /** The count depends only on the completed marks, not on text, priority,
      visibility or the dragging marker. */
  lemma {:induction false} OpenCountOnlyCompleted(s: seq<Item>, t: seq<Item>)
    requires |s| == |t|
    requires forall j :: 0 <= j < |s| ==> s[j].completed == t[j].completed
    ensures OpenCount(s) == OpenCount(t)
  {
    if s != [] {
      OpenCountOnlyCompleted(s[..|s| - 1], t[..|t| - 1]);
    }
  }

  /** Appending one item raises the count by one exactly when it is open. */
  lemma OpenCountAppend(s: seq<Item>, t: Item)
    ensures OpenCount(s + [t]) == OpenCount(s) + (if t.completed then 0 else 1)
  {
    assert (s + [t])[..|s|] == s;
  }

  /** The checkbox handler: toggles the `completed` class of item `i`. */
  function Flip(s: seq<Item>, i: nat): seq<Item>
    requires i < |s|
  {
    s[i := s[i].(completed := !s[i].completed)]
  }

  /** Flipping changes the completed mark of item `i` and nothing else, and
      flipping twice restores the list. */
  lemma FlipOnlyAt(s: seq<Item>, i: nat)
    requires i < |s|
    ensures |Flip(s, i)| == |s|
    ensures Flip(s, i)[i] == s[i].(completed := !s[i].completed)
    ensures forall j :: 0 <= j < |s| && j != i ==> Flip(s, i)[j] == s[j]
    ensures Flip(Flip(s, i), i) == s
  {
  }

  /** Flipping an open item closes it and lowers the count by one; flipping a
      completed item reopens it and raises the count by one. */
  lemma OpenCountFlip(s: seq<Item>, i: nat)
    requires i < |s|
    ensures OpenCount(Flip(s, i)) == if s[i].completed then OpenCount(s) + 1 else OpenCount(s) - 1
  {
    var f := Flip(s, i);
    assert f[..i] == s[..i] && f[i + 1..] == s[i + 1..];
    OpenCountSplit(s, i);
    OpenCountSplit(f, i);
  }

  /** `li.remove()`: the list without its element at `i`. */
  function RemoveAt<T>(s: seq<T>, i: nat): seq<T>
    requires i < |s|
  {
    s[..i] + s[i + 1..]
  }

  /** Removing deletes exactly element `i`: one element shorter, the elements
      before `i` in place, the elements after `i` shifted down by one, and
      nothing but `s[i]` lost. */
  lemma RemoveAtSpec<T>(s: seq<T>, i: nat)
    requires i < |s|
    ensures |RemoveAt(s, i)| == |s| - 1
    ensures forall j :: 0 <= j < i ==> RemoveAt(s, i)[j] == s[j]
    ensures forall j :: i <= j < |s| - 1 ==> RemoveAt(s, i)[j] == s[j + 1]
    ensures multiset(RemoveAt(s, i)) + multiset{s[i]} == multiset(s)
  {
    assert s == s[..i] + [s[i]] + s[i + 1..];
  }

  /** The count of a list is the count before `i`, plus one if item `i` is
      open, plus the count after `i`. */
  lemma OpenCountSplit(s: seq<Item>, i: nat)
    requires i < |s|
    ensures OpenCount(s) == OpenCount(s[..i]) + (if s[i].completed then 0 else 1) + OpenCount(s[i + 1..])
  {
    var before, after := s[..i], s[i + 1..];
    var front := before + [s[i]];
    assert s == front + after;
    OpenCountConcat(front, after);
    OpenCountAppend(before, s[i]);
  }

  /** Removing an open item lowers the count by one; removing a completed item
      leaves it unchanged. */
  lemma OpenCountRemove(s: seq<Item>, i: nat)
    requires i < |s|
    ensures OpenCount(RemoveAt(s, i)) == OpenCount(s) - (if s[i].completed then 0 else 1)
  {
    OpenCountSplit(s, i);
    OpenCountConcat(s[..i], s[i + 1..]);
  }
}
