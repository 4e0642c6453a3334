/** Drag-reordering: which <li> the dragged item is dropped in front of
    (getDragAfterElement) and how the list changes when it moves. */
module Drag {
  import opened Wrappers
  import opened Tasks

  /** The vertical extent of one <li> as getBoundingClientRect reports it. */
  datatype Box = Box(top: real, height: real)

  /** The signed distance from the pointer to the element's vertical midpoint:
      negative when the pointer is above the midpoint. */
  function Offset(y: real, b: Box): (r: real)
    ensures r < 0.0 <==> y < b.top + b.height / 2.0
    ensures r == 0.0 <==> y == b.top + b.height / 2.0
  {
    y - b.top - b.height / 2.0
  }

  /** The accumulator of the fold once an element has been chosen. The initial
      accumulator, whose offset is negative infinity and whose element is
      undefined, is `None`. */
  datatype Closest = Closest(offset: real, element: nat)

  /** One step of the fold: the child replaces the accumulator when its offset
      is negative and strictly greater than the accumulator's. */
  function Step(y: real, boxes: seq<Box>, closest: Option<Closest>, child: nat): Option<Closest>
    requires child < |boxes|
  {
    var offset := Offset(y, boxes[child]);
    if offset < 0.0 && (closest.None? || offset > closest.value.offset) then
      Some(Closest(offset, child))
    else
      closest
  }

  /** The `reduce` over the candidates, left to right in document order. */
  function Reduce(y: real, boxes: seq<Box>, candidates: seq<nat>): Option<Closest>
    requires forall k :: 0 <= k < |candidates| ==> candidates[k] < |boxes|
  {
    if candidates == [] then None
    else Step(y, boxes, Reduce(y, boxes, candidates[..|candidates| - 1]), candidates[|candidates| - 1])
  }

  /** The fold picks, among the candidates above whose midpoint the pointer is,
      the one with the largest offset, and the earliest of them on a tie; it
      picks nothing when the pointer is at or below every candidate's midpoint. */
  lemma {:induction false} ReduceSpec(y: real, boxes: seq<Box>, candidates: seq<nat>)
    requires forall k :: 0 <= k < |candidates| ==> candidates[k] < |boxes|
    requires forall j, k :: 0 <= j < k < |candidates| ==> candidates[j] < candidates[k]
    ensures var r := Reduce(y, boxes, candidates);
      (r.None? <==> forall k :: 0 <= k < |candidates| ==> Offset(y, boxes[candidates[k]]) >= 0.0)
    ensures var r := Reduce(y, boxes, candidates);
      r.Some? ==>
        r.value.element in candidates &&
        r.value.offset == Offset(y, boxes[r.value.element]) && r.value.offset < 0.0 &&
        (forall k :: 0 <= k < |candidates| && Offset(y, boxes[candidates[k]]) < 0.0 ==>
           Offset(y, boxes[candidates[k]]) <= r.value.offset) &&
        (forall k :: 0 <= k < |candidates| && candidates[k] < r.value.element ==>
           Offset(y, boxes[candidates[k]]) != r.value.offset)
  {
    if candidates != [] {
      var init := candidates[..|candidates| - 1];
      var last := candidates[|candidates| - 1];
      ReduceSpec(y, boxes, init);
      var acc := Reduce(y, boxes, init);
      assert forall k :: 0 <= k < |init| ==> init[k] == candidates[k];
      assert forall k :: 0 <= k < |init| ==> init[k] < last;
      if acc.Some? {
        assert acc.value.element in init;
        assert acc.value.element < last;
      }
    }
  }

  /** The indices of the items not carrying the dragging marker, in list order
      (the `li:not(.dragging)` query). */
  function Draggables(items: seq<Item>): (r: seq<nat>)
    ensures forall k :: 0 <= k < |r| ==> r[k] < |items| && !items[r[k]].dragging
    ensures forall j :: 0 <= j < |items| && !items[j].dragging ==> j in r
    ensures forall j, k :: 0 <= j < k < |r| ==> r[j] < r[k]
  {
    if items == [] then []
    else
      var n := |items| - 1;
      var init := Draggables(items[..n]);
      if items[n].dragging then init else init + [n]
  }

  /** getDragAfterElement: the item the dragged one is to be put in front of,
      or `None` to put it at the end. */
  function GetDragAfterElement(items: seq<Item>, boxes: seq<Box>, y: real): (r: Option<nat>)
    requires |boxes| == |items|
    ensures r.Some? ==> r.value < |items| && !items[r.value].dragging
  {
    ReduceSpec(y, boxes, Draggables(items));
    match Reduce(y, boxes, Draggables(items))
    case None => None
    case Some(closest) => Some(closest.element)
  }

  /** The item getDragAfterElement picks is a not-dragged item whose midpoint
      is below the pointer and nearest to it, the first such in list order
      when several are equally near; it picks none exactly when the pointer is
      at or below the midpoint of every not-dragged item. */
  lemma GetDragAfterElementSpec(items: seq<Item>, boxes: seq<Box>, y: real)
    requires |boxes| == |items|
    ensures var r := GetDragAfterElement(items, boxes, y);
      r.None? <==> forall j :: 0 <= j < |items| && !items[j].dragging ==> Offset(y, boxes[j]) >= 0.0
    ensures var r := GetDragAfterElement(items, boxes, y);
      r.Some? ==> r.value < |items| && !items[r.value].dragging && Offset(y, boxes[r.value]) < 0.0
    ensures var r := GetDragAfterElement(items, boxes, y);
      r.Some? ==>
        forall j :: 0 <= j < |items| && !items[j].dragging && Offset(y, boxes[j]) < 0.0 ==>
          Offset(y, boxes[j]) <= Offset(y, boxes[r.value])
    ensures var r := GetDragAfterElement(items, boxes, y);
      r.Some? ==>
        forall j :: 0 <= j < r.value && !items[j].dragging ==> Offset(y, boxes[j]) != Offset(y, boxes[r.value])
  {
    var candidates := Draggables(items);
    ReduceSpec(y, boxes, candidates);
    var acc := Reduce(y, boxes, candidates);
    var r := GetDragAfterElement(items, boxes, y);
    if acc.Some? {
      assert r == Some(acc.value.element);
    } else {
      assert r == None;
    }
  }

  /** Midpoints at 10, 30 and 50 and the pointer at 25, with a fourth item
      being dragged: the offsets are 15, -5 and -25, and the dragged item goes
      in front of the item whose midpoint is 30. */
  lemma DragExample(t: Item)
    ensures var items := [t.(dragging := false), t.(dragging := false), t.(dragging := false), t.(dragging := true)];
      var boxes := [Box(0.0, 20.0), Box(20.0, 20.0), Box(40.0, 20.0), Box(60.0, 20.0)];
      GetDragAfterElement(items, boxes, 25.0) == Some(1)
  {
    var items := [t.(dragging := false), t.(dragging := false), t.(dragging := false), t.(dragging := true)];
    var boxes := [Box(0.0, 20.0), Box(20.0, 20.0), Box(40.0, 20.0), Box(60.0, 20.0)];
    var r := GetDragAfterElement(items, boxes, 25.0);
    GetDragAfterElementSpec(items, boxes, 25.0);
    assert Offset(25.0, boxes[1]) == -5.0 && !items[1].dragging;
    assert r.Some?;
    assert Offset(25.0, boxes[r.value]) >= -5.0;
  }

  /** A pointer exactly on the midpoint of the only not-dragged item selects
      nothing: its offset is zero, and the test for a negative offset is
      strict. */
  lemma DragOnMidpoint(t: Item, y: real, b: Box)
    requires y == b.top + b.height / 2.0
    ensures Offset(y, b) == 0.0
    ensures GetDragAfterElement([t.(dragging := false)], [b], y) == None
  {
    GetDragAfterElementSpec([t.(dragging := false)], [b], y);
  }

  /** `document.querySelector('.dragging')`: the first item carrying the
      dragging marker. */
  function FirstDragging(items: seq<Item>): (r: Option<nat>)
    ensures r.None? <==> forall j :: 0 <= j < |items| ==> !items[j].dragging
    ensures r.Some? ==> r.value < |items| && items[r.value].dragging
    ensures r.Some? ==> forall j :: 0 <= j < r.value ==> !items[j].dragging
  {
    if items == [] then None
    else if items[0].dragging then Some(0)
    else
      match FirstDragging(items[1..])
      case None => None
      case Some(k) => Some(k + 1)
  }

  /** `appendChild` of an element already in the list: it moves to the end. */
  function MoveToEnd<T>(s: seq<T>, d: nat): seq<T>
    requires d < |s|
  {
    RemoveAt(s, d) + [s[d]]
  }

  /** `insertBefore(dragged, after)`: the dragged element leaves its place and
      goes in front of `after`. */
  function MoveBefore<T>(s: seq<T>, d: nat, a: nat): seq<T>
    requires d < |s| && a < |s| && a != d
  {
    var rest := RemoveAt(s, d);
    var p := if a < d then a else a - 1;
    rest[..p] + [s[d]] + rest[p..]
  }

  /** Moving to the end yields a permutation whose last element is the dragged
      one and whose other elements keep their relative order. */
  lemma MoveToEndSpec<T>(s: seq<T>, d: nat)
    requires d < |s|
    ensures |MoveToEnd(s, d)| == |s|
    ensures multiset(MoveToEnd(s, d)) == multiset(s)
    ensures MoveToEnd(s, d)[|s| - 1] == s[d]
    ensures RemoveAt(MoveToEnd(s, d), |s| - 1) == RemoveAt(s, d)
  {
    RemoveAtSpec(s, d);
    var r := MoveToEnd(s, d);
    assert r[..|s| - 1] == RemoveAt(s, d);
  }

  /** Moving before `a` yields a permutation in which the dragged element sits
      immediately in front of the element that was at `a`, and the other
      elements keep their relative order. */
  lemma MoveBeforeSpec<T>(s: seq<T>, d: nat, a: nat)
    requires d < |s| && a < |s| && a != d
    ensures var p := if a < d then a else a - 1;
      var r := MoveBefore(s, d, a);
      |r| == |s| && p + 1 < |r| && r[p] == s[d] && r[p + 1] == s[a] &&
      RemoveAt(r, p) == RemoveAt(s, d)
    ensures multiset(MoveBefore(s, d, a)) == multiset(s)
  {
    RemoveAtSpec(s, d);
    var rest := RemoveAt(s, d);
    var p := if a < d then a else a - 1;
    var r := MoveBefore(s, d, a);
    assert rest[p] == s[a];
    assert r[p + 1] == rest[p];
    assert r[..p] == rest[..p];
    assert r[p + 1..] == rest[p..];
    assert rest == rest[..p] + rest[p..];
  }

  /** Moving an item to the end does not change the open count. */
  lemma MoveToEndKeepsOpenCount(s: seq<Item>, d: nat)
    requires d < |s|
    ensures OpenCount(MoveToEnd(s, d)) == OpenCount(s)
  {
    var r := MoveToEnd(s, d);
    MoveToEndSpec(s, d);
    OpenCountRemove(s, d);
    OpenCountRemove(r, |s| - 1);
  }

  /** Moving an item in front of another does not change the open count. */
  lemma MoveBeforeKeepsOpenCount(s: seq<Item>, d: nat, a: nat)
    requires d < |s| && a < |s| && a != d
    ensures OpenCount(MoveBefore(s, d, a)) == OpenCount(s)
  {
    var p := if a < d then a else a - 1;
    var r := MoveBefore(s, d, a);
    MoveBeforeSpec(s, d, a);
    OpenCountRemove(s, d);
    OpenCountRemove(r, p);
  }
}
