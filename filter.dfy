/** The status filter: which items the all / active / completed buttons show. */
module Filter {
  import opened Tasks

  datatype FilterMode = All | Active | Completed

  /** The display rule filterTasks applies to one <li>. */
  predicate Visible(mode: FilterMode, t: Item) {
    match mode
    case All => true
    case Active => !t.completed
    case Completed => t.completed
  }

  /** Every item is shown under `all`; `active` and `completed` show
      complementary items. */
  lemma VisibleComplement(t: Item)
    ensures Visible(All, t)
    ensures Visible(Active, t) <==> !t.completed
    ensures Visible(Completed, t) <==> t.completed
    ensures Visible(Active, t) != Visible(Completed, t)
  {
  }

  /** The list after filterTasks: each item hidden exactly when the rule hides
      it, nothing else changed. */
  function Filtered(s: seq<Item>, mode: FilterMode): seq<Item> {
    seq(|s|, i requires 0 <= i < |s| => s[i].(hidden := !Visible(mode, s[i])))
  }

  /** Number of items the rule shows. */
  function VisibleCount(s: seq<Item>, mode: FilterMode): nat {
    if s == [] then 0 else VisibleCount(s[..|s| - 1], mode) + (if Visible(mode, s[|s| - 1]) then 1 else 0)
  }

  /** `all` shows the whole list, `active` shows as many items as the open
      count says, and `active` and `completed` together show each item once. */
  lemma {:induction false} VisibleCounts(s: seq<Item>)
    ensures VisibleCount(s, All) == |s|
    ensures VisibleCount(s, Active) == OpenCount(s)
    ensures VisibleCount(s, Active) + VisibleCount(s, Completed) == |s|
  {
    if s != [] {
      VisibleCounts(s[..|s| - 1]);
    }
  }

  /** Filtering changes only the display: the open count is unchanged. */
  lemma FilteredKeepsOpenCount(s: seq<Item>, mode: FilterMode)
    ensures |Filtered(s, mode)| == |s|
    ensures OpenCount(Filtered(s, mode)) == OpenCount(s)
  {
    OpenCountOnlyCompleted(Filtered(s, mode), s);
  }
}
