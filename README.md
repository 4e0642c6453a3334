# To-do list: a Dafny model of `app.js`

`app.js` is a browser to-do list. Tasks are added with a priority and can be
ticked, removed, filtered by status and reordered by dragging. An
"Open tasks" label counts the unticked ones, and the list is kept as JSON
under the `tasks` key of local storage. The page keeps its state only in
the DOM. This model lifts that state into a class, `App.TodoList`, with
three fields:

- `tasks`: the `<li>` elements in document order, each an `Item` holding
  its span text, its `completed` class, its priority class, whether the
  filter hid it, and its `dragging` class;
- `stored`: the array last written to storage (`None` while the key is
  unset);
- `openCount`: the number in the label.

The handlers are methods of that class. What they compute is given by
functions, and the properties the page relies on are proved as lemmas
about those functions:

- `Text`: `String.prototype.trim` and the add button's validation.
- `Tasks`: the item record, the open count, ticking and removing.
- `Storage`: what `saveTasks` writes and what `loadTasks` rebuilds.
- `Filter`: the display rule of the three filter buttons.
- `Drag`: the `getDragAfterElement` fold and the `dragover` move.
- `App`: the page state and its handlers, and `App.AddScenario`, which
  walks through adding a task, ticking it and unticking it.

Some behaviour of the code is kept as it is, even where it looks unintended:

- A new task's stored text is the trimmed input followed by the priority in
  parentheses (`"Buy milk (high)"`), because `saveTasks` reads the span.
- Ticking and dragging do not rewrite storage (`Toggle` and `DragOver`
  leave `stored` as it was). If the stored array matched the list before a
  tick, it no longer matches after it (`Storage.FlipMakesStoredStale`).
- A stored priority other than `low` or `medium` is written back as `high`.
- The filter is not reapplied after an add: a new item is shown whatever
  the filter is.
- `Add` rejects a trimmed input shorter than three characters, and nothing
  changes then. The empty-string test in the code is covered by the length
  test.

## Model

| member | source | states |
|---|---|---|
| Text.IsWhitespace | app.js:13 | exactly the code points `trim` strips: the ECMAScript WhiteSpace characters, every Zs space separator and the LineTerminator characters |
| Text.TrimStart | app.js:13 | the result is never longer than the input; what it is exactly is stated by `Text.TrimStartSpec` |
| Text.TrimStartSpec | app.js:13 | TrimStart gives the input without its leading whitespace: a suffix of the input, everything cut is whitespace, and it does not start with whitespace |
| Text.TrimEnd | app.js:13 | the result is never longer than the input; what it is exactly is stated by `Text.TrimEndSpec` |
| Text.TrimEndSpec | app.js:13 | TrimEnd gives the input without its trailing whitespace: a prefix of the input, everything cut is whitespace, and it does not end with whitespace |
| Text.Trim | app.js:13 | `String.prototype.trim`; its contract is given by `Text.TrimIsInnerSlice`, `Text.TrimEmpty`, `Text.TrimKeepsInner` and `Text.TrimIdempotent` |
| Text.TrimIsInnerSlice | app.js:13 | the trimmed text is the slice between the first and the last non-whitespace character; only whitespace is cut, and only from the two ends |
| Text.TrimEmpty | app.js:15 | the trimmed text is empty exactly when the whole input is whitespace |
| Text.TrimKeepsInner | app.js:13 | an input that neither starts nor ends with whitespace is not changed by trimming |
| Text.TrimIdempotent | app.js:13 | trimming twice gives the same result as trimming once |
| Text.Accepts | app.js:13-15 | the add button accepts exactly when the trimmed input has at least three characters, and an accepted input has a non-whitespace character |
| Tasks.Label | app.js:34 | the span text of a new task: the trimmed input, a space and the priority in parentheses; `App.TodoList.Add` states that an added item carries it |
| Tasks.OpenCount | app.js:70-73 | the open count never exceeds the number of items |
| Tasks.OpenCountIsMatchedElements | app.js:71 | the open count equals the size of the set of items without the `completed` mark |
| Tasks.OpenCountConcat | app.js:71 | the count of a concatenation is the sum of the two counts |
| Tasks.OpenCountOnlyCompleted | app.js:71 | the count depends only on the completed marks, not on text, priority, visibility or the dragging marker |
| Tasks.OpenCountAppend | app.js:47-51 | appending an item raises the count by one if the item is open, and by zero otherwise |
| Tasks.Flip | app.js:29 | `classList.toggle('completed')` on item i; its contract is given by `Tasks.FlipOnlyAt` and `Tasks.OpenCountFlip` |
| Tasks.FlipOnlyAt | app.js:28-31 | ticking item i flips its completed mark and changes nothing else; ticking twice restores the list |
| Tasks.OpenCountFlip | app.js:103-106 | ticking an open item lowers the count by one; unticking a completed item raises it by one |
| Tasks.RemoveAt | app.js:39 | `li.remove()` on item i; its contract is given by `Tasks.RemoveAtSpec` and `Tasks.OpenCountRemove` |
| Tasks.RemoveAtSpec | app.js:39 | removing deletes exactly element i: the list is one shorter, earlier elements stay in place, later ones move down one place, and only s[i] is lost from the multiset |
| Tasks.OpenCountSplit | app.js:71 | the count is the count before i, plus one if item i is open, plus the count after i |
| Tasks.OpenCountRemove | app.js:38-42 | removing an open item lowers the count by one; removing a completed item leaves it unchanged |
| Storage.SavedPriority | app.js:81-82 | the saved priority is always low, medium or high; a known priority is kept; any other value is saved as high |
| Storage.ToRecord | app.js:78-83 | the entry written for one item; `Storage.SaveLoadResets` states what of it survives a load, `Storage.UnknownPrioritySavedAsHigh` what happens to an unknown priority |
| Storage.Snapshot | app.js:75-87 | the array saveTasks writes; its contract is given by `Storage.SnapshotAppend`, `Storage.LoadSaveRoundTrip` and `Storage.SaveLoadSaveRoundTrip` |
| Storage.FromRecord | app.js:93-109 | the item loadTasks builds from one entry; its contract is given by `Storage.SaveLoadResets` and `Storage.LoadSaveRoundTrip` |
| Storage.Loaded | app.js:89-125 | the items loadTasks appends; its contract is given by `Storage.LoadedAppend`, `Storage.LoadSaveRoundTrip` and `Storage.SaveLoadResets` |
| Storage.SnapshotAppend | app.js:77-85 | saving one more item appends one more entry |
| Storage.LoadedAppend | app.js:92-123 | loading one more entry appends one more item |
| Storage.LoadSaveRoundTrip | app.js:89-125 | when every stored priority is low, medium or high, saving the loaded list writes the stored array back exactly, in order |
| Storage.SaveLoadResets | app.js:75-125 | for any list, loading what saving it wrote gives a list of the same length whose item i is item i with its priority as saved, shown and not being dragged |
| Storage.SaveLoadSaveRoundTrip | app.js:75-125 | for any list, saving what a load of its saved array rebuilt writes exactly the same array again |
| Storage.SaveLoadRoundTrip | app.js:75-125 | a list of shown, not dragged items with known priorities is rebuilt exactly by loading what saving it wrote (a corollary of `Storage.SaveLoadResets`) |
| Storage.UnknownPrioritySavedAsHigh | app.js:81-82 | with loadTasks putting the stored priority in the class (line 94), after a load and a save, an entry with an unknown priority comes back with priority high, with the same text and completed mark |
| Storage.ReloadIsStable | app.js:75-125 | one load and save normalises the stored array, and a second load and save changes nothing |
| Storage.FlipMakesStoredStale | app.js:28-31 | after a tick, what a save would write differs from what it wrote before the tick |
| Filter.Visible | app.js:130-140 | the display rule of one mode; its contract is given by `Filter.VisibleComplement` |
| Filter.Filtered | app.js:127-142 | the list after filterTasks; its contract is given by `Filter.FilteredKeepsOpenCount` and `App.TodoList.FilterTasks` |
| Filter.VisibleComplement | app.js:127-141 | under all every item is shown; under active an item is shown iff it is open; under completed iff it is completed; so active and completed disagree on every item |
| Filter.VisibleCounts | app.js:127-141 | all shows every item; active shows as many items as the open count; active and completed together show each item exactly once |
| Filter.FilteredKeepsOpenCount | app.js:127-142 | filtering keeps the length of the list and the open count |
| Drag.Offset | app.js:167-168 | the offset is negative exactly when the pointer is above the element's vertical midpoint, and zero exactly when it is on it |
| Drag.Step | app.js:169-173 | one step of the fold; its contract is given by `Drag.ReduceSpec` |
| Drag.Reduce | app.js:166-174 | the fold over the candidates; its contract is given by `Drag.ReduceSpec` |
| Drag.ReduceSpec | app.js:166-174 | the fold returns nothing iff no candidate has a negative offset; otherwise it returns a candidate with a negative offset that is at least every other negative offset, and no earlier candidate has the same offset |
| Drag.Draggables | app.js:164 | the candidates are exactly the items without the dragging marker, in increasing list order |
| Drag.GetDragAfterElement | app.js:163-175 | a selected item is a not-dragged item of the list; what it selects is stated by `Drag.GetDragAfterElementSpec` |
| Drag.GetDragAfterElementSpec | app.js:163-175 | the result is None iff the pointer is at or below the midpoint of every not-dragged item; otherwise it is a not-dragged item whose midpoint lies below the pointer (negative offset) and whose offset is the largest such, the first in list order on a tie |
| Drag.DragOnMidpoint | app.js:169 | with the pointer exactly on the midpoint of the only not-dragged item, its offset is zero, the strict `offset < 0` test fails and nothing is selected |
| Drag.DragExample | app.js:163-175 | with midpoints 10, 30 and 50 and the pointer at 25, the selected item is the one with midpoint 30 |
| Drag.FirstDragging | app.js:154 | the result is the first item carrying the dragging marker, or None when no item carries it |
| Drag.MoveToEnd | app.js:157 | `appendChild` of the dragged item; its contract is given by `Drag.MoveToEndSpec` and `Drag.MoveToEndKeepsOpenCount` |
| Drag.MoveBefore | app.js:159 | `insertBefore` of the dragged item; its contract is given by `Drag.MoveBeforeSpec` and `Drag.MoveBeforeKeepsOpenCount` |
| Drag.MoveToEndSpec | app.js:156-157 | moving to the end gives a permutation whose last element is the dragged one, with the other elements in their old relative order |
| Drag.MoveBeforeSpec | app.js:158-159 | moving before `a` gives a permutation in which the dragged element sits right in front of the element that was at `a`, with the other elements in their old relative order |
| Drag.MoveToEndKeepsOpenCount | app.js:156-157 | moving to the end keeps the open count |
| Drag.MoveBeforeKeepsOpenCount | app.js:158-159 | moving in front of another item keeps the open count |
| App.TodoList.constructor | app.js:67-68 | at start-up the list is exactly what was loaded from storage, storage is only read, and the label shows the open count |
| App.TodoList.UpdateOpenCount | app.js:70-73 | the label is set to the number of open items |
| App.TodoList.SaveTasks | app.js:75-87 | storage then holds one entry per item, in list order |
| App.TodoList.LoadTasks | app.js:89-125 | one item is appended per stored entry, in order, and none when the key is unset |
| App.TodoList.Add | app.js:12-53 | succeeds iff the trimmed input has at least three characters. On failure nothing changes. On success exactly one open, shown item is appended (text is the trimmed input plus the priority in parentheses), earlier items are unchanged, storage equals the list, and the label goes up by one |
| App.TodoList.Toggle | app.js:28-31 | flips the completed mark of item i only, leaves storage unchanged, and moves the label by one in the right direction |
| App.TodoList.Remove | app.js:38-42 | deletes exactly item i, makes storage equal to the remaining list, and lowers the label by one iff the item was open |
| App.TodoList.FilterTasks | app.js:127-142 | each item is hidden exactly when the mode's rule hides it; nothing else changes and the label stays correct |
| App.TodoList.DragStart | app.js:144-146 | marks item i as being dragged and changes nothing else |
| App.TodoList.DragEnd | app.js:148-150 | clears the dragging marker of item i and changes nothing else |
| App.TodoList.DragOver | app.js:152-161 | the first marked item moves in front of the selected item, or to the end when none is selected, or nothing moves when no item is marked; the list stays a permutation; storage and label are unchanged |

## Left out

- DOM construction and wiring (`createElement`, `appendChild` of new
  elements, `addEventListener`, CSS classes as strings): items are records,
  and each handler is a method that takes the index of its element.
- The error indicator and message of a refused add, and clearing the input
  field after an accepted add (app.js:16-20, 49): they are display state
  that no other handler reads. `Add` returns whether the input was accepted.
- The state of the checkbox input itself: the model follows the
  `completed` class, which is what the count, the filter and saving read.
- `localStorage` and JSON text. The stored value is a sequence of records
  with a string text, a boolean completed mark and a string priority. Not
  modelled: a stored value that is not valid JSON (`JSON.parse` throws); a
  truthy value that is not an array (`tasks.forEach` throws, app.js:92); a
  `null` entry (reading `taskObj.priority` throws, app.js:94); and entries
  with fields of other types, whose completed mark is then decided by
  JavaScript truthiness (app.js:95, and the DOM coerces it for
  `checkbox.checked`, app.js:102), whose priority goes through a template
  literal (app.js:94) and whose text the DOM coerces for `textContent`
  (app.js:109).
- `classList.add` throws when a priority contains ASCII whitespace (tab,
  line feed, form feed, carriage return or space); other whitespace, such as
  a no-break space, is accepted. This is not modelled: any priority string
  is accepted as a class suffix. When it throws in loadTasks (app.js:94),
  the exception leaves the start-up code, so the later entries are not
  loaded, `updateOpenCount` (app.js:68) does not run and the drag listeners
  (app.js:144-161) are never registered.
- Layout: each item's top and height are inputs to `DragOver` as
  mathematical reals. Floating-point rounding, NaN and the page's actual
  geometry are not modelled.
- Text.Accepts: lengths count Unicode code points, while JavaScript's
  `length` counts UTF-16 code units, in which a character outside the Basic
  Multilingual Plane counts two. A single such character is refused by both
  (length 2). A trimmed input of two characters of which at least one lies
  outside the Basic Multilingual Plane (length 3 or 4 in the page) is
  accepted by the page but refused here.
- Events on elements outside the list (`e.target` of a drag that is not an
  item, `.dragging` elements elsewhere in the document) are not modelled.
