# To-do list task engine, modelled in Dafny

This project models the logic inside `script.js` of a browser to-do list,
separated from its DOM code. It covers:

- the task record;
- the four changes to the `tasks` array: adding a task, toggling its
  completion, deleting the task whose id the confirmation dialog holds, and
  the drag-and-drop reorder;
- the list `renderTasks` draws: the status tab (`all`, `active`,
  `completed`, `overdue`), then the case-insensitive search over text and
  category, then the sort by priority with newest first among equal
  priorities;
- the progress percentage and motivation message of `updateProgress`.

Time, ids, the selected tab and the search text are parameters.

Modules:

- `Text`: `trim`, `toLowerCase` and `includes` on `seq<char>`.
- `Seqs`: `Array.prototype.filter`, and the stable `Array.prototype.sort`
  with a key-difference comparator. A comparator of that kind fixes the
  result once the sort is stable, so the model uses a stable insertion sort by
  a lexicographic `(major, minor)` key.
- `Tasks`: the `Task` datatype and the pure effect of each store operation.
- `Query`: the rendered view and its properties.
- `Progress`: the completed count, the rounded percentage and the six bands.
- `Store`: the class `TaskStore`. Its fields `tasks` (a `seq<Task>`) and
  `pendingDelete` (the source's `taskToDelete`) are the module-level state.
  Its methods make the same changes as the source's functions.

Some behaviour of the code that a reader might not expect, and that the model
keeps:

- No task has a `completedAt` field. Toggling flips `completed` only.
- The reorder puts tasks whose ids are missing from the id list first, because
  `indexOf` gives -1 for them. It does not put them last.
- Ids come from `Date.now()` and are not guaranteed unique. No property here
  assumes they are: toggling and deleting act on every task with the id.
- Deleting an absent id, or confirming with no pending id, changes nothing.

## Model

| member | source | states |
|---|---|---|
| `Text.Trim` | script.js:39-41 | the trimmed string neither starts nor ends with white space, and it is empty exactly when the input is all white space |
| `Text.TrimIsInfix` | script.js:39-41 | the trimmed string is a contiguous part of the input, and everything cut off on either side is white space |
| `Text.TrimOfTrimmed` | script.js:39-41 | a string without surrounding white space is left unchanged |
| `Text.TrimIdempotent` | script.js:39-41 | trimming twice gives the same result as trimming once |
| `Text.LowerChar` | script.js:74 | ASCII capitals and the Latin-1 capitals other than U+00D7 move down by 32, U+00D7 and every other character stay, and white space stays white space |
| `Text.Lower` | script.js:74 | lower-casing keeps the length, and each character is mapped on its own |
| `Text.ContainsEmpty` | script.js:90-95 | every string contains the empty query, so skipping the search filter for an empty query changes nothing |
| `Text.Contains` | script.js:92-93 | `includes` holds for a prefix of the string, and never for a query longer than the string |
| `Seqs.Filter` | script.js:76-95 | filtering never makes a list longer |
| `Seqs.FilterMultiset` | script.js:76-95 | each element that passes the test is kept as many times as it occurs, and no other element is kept |
| `Seqs.FilterMember` | script.js:76-95 | an element is in the filtered list exactly when it is in the list and passes the test |
| `Seqs.FilterAppend` | script.js:76-95 | filtering a concatenation is filtering each part and concatenating, so kept elements stay in order |
| `Seqs.FilterIdempotent` | script.js:184 | filtering twice with the same test gives the same result as filtering once |
| `Seqs.FilterThenFilter` | script.js:76-95 | filtering by one test and then by another is the same as filtering once by both |
| `Seqs.SortBy` | script.js:99-104 | the sorted list is a permutation of the input, ordered by key |
| `Seqs.InsertSorted` | script.js:99-104 | inserting into a sorted list keeps the list sorted |
| `Seqs.SortByStable` | script.js:99-104 | the sort is stable: the elements of any one key keep their original relative order |
| `Seqs.SortByEqualKeys` | script.js:352-354 | a list whose elements all have the same key comes out unchanged |
| `Tasks.NewTask` | script.js:38-58 | blank text is refused with `BlankText`. Otherwise the task has the trimmed non-empty text, the given due date (null for an empty field), the trimmed category or "General" when it is blank, the chosen priority, `completed` false, and the given id and creation time |
| `Tasks.NewTaskCategoryNotBlank` | script.js:41 | a created task's category is never blank |
| `Tasks.CategoryNotBlank` | script.js:41 | the category `trim() \|\| "General"` gives is never blank |
| `Tasks.Flip` | script.js:159 | a task with the id has `completed` flipped, any other task is unchanged, and no other field changes |
| `Tasks.Toggled` | script.js:157-160 | the list keeps its length and order. Each task with the id has `completed` flipped, every other task is unchanged, and no other field changes |
| `Tasks.ToggledTwice` | script.js:157-160 | toggling the same id twice restores the original list |
| `Tasks.ToggledAbsent` | script.js:157-160 | toggling an id that no task has changes nothing |
| `Tasks.OtherId` | script.js:184 | the filter callback keeps a task exactly when its id is not the pending one |
| `Tasks.Removed` | script.js:184 | no task with the id remains. Every task with another id keeps its number of occurrences, and nothing new appears |
| `Tasks.RemovedTwice` | script.js:181-189 | deleting the same id a second time changes nothing |
| `Tasks.RemovedKeepsOrder` | script.js:184 | deletion distributes over concatenation and drops a single task exactly when it has the id, so the remaining tasks keep their order |
| `Tasks.RemovedAbsent` | script.js:184 | deleting an id that no task has changes nothing |
| `Tasks.IndexOf` | script.js:353 | `indexOf` gives -1 exactly when the id is absent, and otherwise the first position that holds it |
| `Tasks.ReorderKey` | script.js:353 | the sort key of a task is the `indexOf` position of its id |
| `Tasks.ReorderCompare` | script.js:352-354 | the comparator is the difference of the two `indexOf` positions |
| `Tasks.ReorderKeyMatchesComparator` | script.js:352-354 | one key is below the other exactly when the comparator is negative, and the keys are equal exactly when it is zero |
| `Tasks.Reordered` | script.js:352-354 | the reorder is a permutation, ordered by each id's position in the id list |
| `Tasks.ReorderedShape` | script.js:352-354 | unlisted tasks come before all listed ones and keep their relative order. Listed tasks follow the list's order |
| `Tasks.ReorderedSameIdKeepsOrder` | script.js:352-354 | tasks that share one id keep their relative order, whether or not the id is listed |
| `Tasks.ReorderedByNoIds` | script.js:344-354 | an empty id list, which is what the handler builds because `data-id` is never set, leaves the order unchanged |
| `Query.NormalizedQuery` | script.js:74 | the query (lower-cased, then trimmed) is empty exactly when the search text is all white space |
| `Query.PassesStatus` | script.js:77-87 | the tab test: `active` keeps open tasks, `completed` keeps done ones, `overdue` keeps open tasks with a due date before now, and `all` keeps every task |
| `Query.StatusTabs` | script.js:77-87 | every task passes `all`, an overdue task is also active, and each task passes exactly one of `active` and `completed` |
| `Query.MatchesSearch` | script.js:90-95 | a task matches when its lower-cased text or lower-cased category contains the query |
| `Query.Filtered` | script.js:76-95 | the tab filter, followed by the search filter only when the query is not empty |
| `Query.Rank` | script.js:98 | the rank is 0 for high, 1 for medium and 2 for low |
| `Query.DisplayKey` | script.js:97-104 | the sort key of a task is its priority rank, then its creation time negated |
| `Query.DisplayCompare` | script.js:99-104 | the comparator is the rank difference when priorities differ, and otherwise `b.createdAt - a.createdAt` |
| `Query.DisplayKeyMatchesComparator` | script.js:99-104 | one key is below the other exactly when the comparator is negative, and the keys are equal exactly when it is zero |
| `Query.View` | script.js:76-104 | the view is a permutation of the filtered list, ordered by priority rank and, within one priority, by `createdAt` newest first |
| `Query.DisplayOrder` | script.js:99-104 | the comparator's key order means high before medium before low, and newest first within one priority |
| `Query.FilteredIsSelection` | script.js:76-95 | the status filter followed by the search filter keeps exactly the tasks that pass both, in store order |
| `Query.ViewIsPermutationOfSelection` | script.js:76-104 | each selected task appears in the view as often as it does in the store, and no other task appears |
| `Query.ViewMembership` | script.js:76-95 | a task is shown exactly when it is in the store, passes the tab, and either the search text is blank or it matches |
| `Query.OverdueViewIsOverdue` | script.js:80-84 | the overdue tab shows only open tasks that have a due date earlier than now |
| `Query.ActiveViewIsOpen` | script.js:78 | the active tab shows only open tasks |
| `Query.CompletedViewIsDone` | script.js:79 | the completed tab shows only completed tasks |
| `Query.AllWithBlankSearchShowsEverything` | script.js:86-95 | the `all` tab with a blank search shows every stored task, each as often as it is stored |
| `Query.SearchNarrows` | script.js:90-95 | a non-blank search shows only tasks whose lower-cased text or category contains the query |
| `Query.ViewTiesKeepStoreOrder` | script.js:99-104 | tasks with the same priority and creation time keep their store order |
| `Progress.CompletedCount` | script.js:194 | the completed count is at most the total. It is 0 exactly when no task is done, and equals the total exactly when every task is done |
| `Progress.CompletedCountIsFilter` | script.js:194 | the count equals the length of `tasks.filter(t => t.completed)` |
| `Progress.RoundedPercent` | script.js:195 | the percentage is 0 with no tasks. Otherwise it is the nearest integer to 100·completed/total, with halves rounded up, and it lies in 0..100 |
| `Progress.ProgressPercent` | script.js:193-195 | the store's percentage lies in 0..100 |
| `Progress.PercentExtremes` | script.js:195 | 0 completed gives 0, and all of a non-zero total completed gives 100 |
| `Progress.PercentMonotone` | script.js:195 | with the total fixed, more completed tasks never give a lower percentage |
| `Progress.RoundingHidesOneTask` | script.js:195 | 199 of 200 done shows 100, and 1 of 201 done shows 0 |
| `Progress.StorePercentExtremes` | script.js:193-195 | a store with nothing done (the empty store included) shows 0, and a non-empty store with everything done shows 100 |
| `Progress.ToggleOpenTasksCountsUp` | script.js:157-160 | toggling an id whose tasks are all open never lowers the completed count or the percentage |
| `Progress.Band` | script.js:200-212 | the six bands: no tasks, exactly 100, 75 and above, 50 to 74, 25 to 49, below 25 |
| `Progress.Message` | script.js:200-212 | the six texts of the motivation message, one per band, character for character as the file holds them: each emoji is stored double-encoded, as the four characters its UTF-8 bytes spell in Windows-1252 |
| `Progress.MessagesDistinct` | script.js:200-212 | different bands show different messages |
| `Progress.StoreBand` | script.js:192-212 | "Start adding tasks!" is shown exactly for the empty store, and "All done!" whenever a non-empty store is all done |
| `Progress.BandMonotone` | script.js:200-212 | for a non-empty store, a higher percentage never gives a lower band |
| `Store.TaskStore.constructor` | script.js:20-22 | the store starts with no tasks and no pending deletion |
| `Store.TaskStore.AddTask` | script.js:38-68 | blank text leaves the list unchanged. Otherwise exactly the new task is appended at the end |
| `Store.TaskStore.ToggleComplete` | script.js:157-164 | the new list is the old list with the id toggled |
| `Store.TaskStore.OpenConfirm` | script.js:167-172 | the dialog's id becomes pending |
| `Store.TaskStore.CloseConfirm` | script.js:175-178 | no id is pending |
| `Store.TaskStore.ConfirmDelete` | script.js:181-189 | with no pending id nothing changes. Otherwise the tasks with the pending id are removed and the pending id is cleared |
| `Store.TaskStore.Reorder` | script.js:352-356 | the new list is the old one sorted by position in the id list |
| `Store.TaskStore.Percent` | script.js:192-198 | the percentage shown lies in 0..100, and is 0 for an empty store |
| `Store.DeleteTwice` | script.js:181-189 | confirming a deletion again, with or without reopening the dialog, removes nothing more |
| `Store.ToggleTwice` | script.js:157-164 | two toggles of the same id leave the task list as it was, and the pending id is untouched |

## Left out

- DOM work is not modelled: element lookups, `innerHTML`, CSS classes, the
  "No tasks match your criteria." placeholder, clearing the form after an add,
  the warning and its `setTimeout`, the modal text and keyboard handling. Only
  the effect on data is kept.
- `loadTasks` and `saveTasks` are not modelled. They are `localStorage` and
  JSON I/O, and `JSON.parse` throws on corrupt data.
- `Date.now()`, `new Date().toISOString()` and `new Date(dueDate)` are not
  modelled. Ids, the creation time, "now" and due dates are integer
  timestamps passed in. The date field is given as `None` when it is empty or
  as the parsed timestamp, so parsing date strings and invalid dates
  (`NaN < now` is false) are not modelled.
- Tasks.NewTask: the priority is one of three values. In the source it is the
  string chosen in a select element; any other string would rank as
  `undefined` in the sort.
- Query.StatusFilter: a `data-filter` value other than the four tabs behaves
  like `all` in the source. The model has only the four values.
- Text.LowerChar: lower-cases only ASCII A–Z and the Latin-1 capitals
  U+00C0–U+00DE except U+00D7. Other Unicode case mappings, including ones that
  change the string's length, are not modelled.
- Progress.RoundedPercent: `Math.round(completed / total * 100)` uses floating
  point. It is modelled as exact half-up rounding, `(200·c + t) / (2·t)`, so
  IEEE rounding at exact .5 boundaries is not reproduced.
- Store.TaskStore.Reorder: the source sorts the array in place. The model
  reassigns `tasks` to the sorted sequence, which has the same result since no
  other reference to the array is observed.
- The Sortable wiring and the DOM id extraction in the `onEnd` handler are not
  modelled. They are a foreign library plus DOM reads, and the handler is only
  installed when the list has more than one child at load time. Only the
  comparator is modelled, as a function of a given id list.
- The confetti block is not modelled. It calls a foreign library, and it reads
  a top-level `percent` that script.js never declares, so at load time it
  throws a `ReferenceError` before the PDF and reorder handlers are installed,
  unless the page defines a global `percent`.
- The PDF export is not modelled: it is layout calls to the jsPDF library.
