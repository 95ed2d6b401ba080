# To-do list component: a verified model

This project models the state machine inside the `TodoList` React component
of a browser to-do list application. The component keeps an ordered list of
tasks `{id, text, completed}`, a text input buffer, a filter string, a theme
string and an edit cursor (`editingId` plus the scratch text `editedTask`).
Its event handlers (`addTask`, `toggleComplete`, `deleteTask`,
`startEditing`, `saveEditedTask`, `toggleTheme`, `importTasks` and the
`onChange`/`onClick` setters) replace the list with a `map` or `filter` of
the old one, or set a field. The derived view `filteredTasks` selects the
tasks the current filter shows.

Layout:

- `wrappers.dfy` — `Option`, for the nullable `editingId`.
- `seqs.dfy` — `Array.prototype.filter` as `Seqs.Filter`, the notion of an
  order-preserving subsequence, and the facts about filtering the rest of
  the model uses (multiplicities, partition, idempotence).
- `text.dfy` — `String.prototype.trim` over the ECMAScript whitespace and
  line-terminator characters, and `IsBlank`, the test `addTask` performs.
- `tasks.dfy` — the `Task` record and the pure list transform behind each
  handler, with the properties that make each one what it is.
- `todo_list.dfy` — the component as a class whose fields are its state
  variables and whose methods are its handlers, each tied to the transform
  of `tasks.dfy` it applies; `BuyMilk` walks through add, complete and the
  two filtered views.

Task ids come from `Date.now()` and nothing checks that they are distinct.
The model therefore takes the id as an argument of `AddTask`, and every
transform acts on all tasks whose id matches. `Tasks.UniqueIds` and the
`...UniqueIds` lemmas say when ids stay distinct: toggling, renaming and
deleting keep them distinct, and appending keeps them distinct exactly when
the new id is fresh.

Where the code and the design description of the application disagree, the
model follows the code:

- `addTask` tests `task.trim()` but stores `task` untrimmed
  (TodoList.jsx:42-43). The design says the text is trimmed before it is
  accepted. `AddTask` stores the input verbatim.
- The filter predicate falls through to `true` (TodoList.jsx:79-83), so any
  filter value other than "Completed" or "Pending" shows every task. The
  design says an unknown filter hides every task. `Tasks.VisibleOther`
  proves the code's behaviour.
- Ids are described as unique by construction; the code does not enforce
  it (see above).

## Model

| member | source | states |
|---|---|---|
| Seqs.Filter | TodoList.jsx:58 | `filter` keeps only elements of the list that satisfy the predicate, and keeps every element that does |
| Text.Trim | TodoList.jsx:42 | `trim()` yields the slice of the input left after dropping the leading and the trailing whitespace, and only whitespace; it is "" exactly when every character is ECMAScript whitespace, and otherwise neither starts nor ends with whitespace |
| Tasks.Appended | TodoList.jsx:43 | the new list is the old list followed by exactly one task with the given id, the input text verbatim and `completed` false |
| Tasks.AppendedUniqueIds | TodoList.jsx:43 | appending keeps ids unique if and only if the new id is not already in the list |
| Tasks.AppendedVisible | TodoList.jsx:43 | a newly added task is shown under "Pending" and "All" and not under "Completed" |
| Tasks.Toggled | TodoList.jsx:48-54 | `toggleComplete` keeps length, order, ids and texts, and flips `completed` on exactly the tasks whose id matches |
| Tasks.ToggledTwice | TodoList.jsx:50-52 | toggling the same id twice restores the original list |
| Tasks.ToggledAbsent | TodoList.jsx:50-52 | toggling an id that no task has leaves the list unchanged |
| Tasks.ToggledUniqueIds | TodoList.jsx:50-52 | toggling neither creates nor removes duplicate ids |
| Tasks.Without | TodoList.jsx:57-59 | after `deleteTask` no task has the id, and every task with another id is still there |
| Tasks.WithoutIsSubsequence | TodoList.jsx:58 | the result is a subsequence of the list in original order; each task with another id occurs as often as before |
| Tasks.WithoutAbsent | TodoList.jsx:58 | deleting an id that no task has leaves the list unchanged |
| Tasks.WithoutTwice | TodoList.jsx:58 | deleting twice equals deleting once |
| Tasks.WithoutUniqueIds | TodoList.jsx:58 | deleting keeps ids unique |
| Tasks.Renamed | TodoList.jsx:68-73 | saving keeps length, order, ids and flags, and sets the text verbatim on exactly the tasks whose id is the cursor's |
| Tasks.RenamedAbsent | TodoList.jsx:70-72 | with a null cursor, or a cursor on an id no task has, saving leaves the list unchanged |
| Tasks.RenamedUniqueIds | TodoList.jsx:70-72 | saving neither creates nor removes duplicate ids |
| Tasks.Visible | TodoList.jsx:79-83 | the filtered view only holds tasks of the list |
| Tasks.VisibleIsSubsequence | TodoList.jsx:79-83 | the filtered view is always a subsequence of the list in original order |
| Tasks.VisibleExactly | TodoList.jsx:80-81 | under "Completed" the view holds exactly the completed tasks, under "Pending" exactly the others, each as often as in the list |
| Tasks.VisiblePartition | TodoList.jsx:80-81 | the "Completed" and "Pending" views are disjoint, and their multisets and lengths add up to the whole list |
| Tasks.VisibleOther | TodoList.jsx:82 | under "All", or any value other than "Completed" and "Pending", the view is the whole list |
| Tasks.NextTheme | TodoList.jsx:37 | the next theme is "dark" exactly when the current one is "light", and "light" otherwise |
| Tasks.NextThemeTwice | TodoList.jsx:37 | two toggles restore the theme exactly when it is "light" or "dark"; from any other value they give "dark" |
| TodoApp.TodoList.FilteredTasks | TodoList.jsx:79-83 | the current view is a subsequence of the list in order, holds only tasks the current filter matches, and holds every task it matches |
| TodoApp.TodoList.constructor | TodoList.jsx:5-11 | initial state: empty input, empty list, filter "All", theme "light", no cursor, empty scratch text |
| TodoApp.TodoList.ToggleTheme | TodoList.jsx:36-38 | only the theme changes, to `NextTheme` of the old one |
| TodoApp.TodoList.SetTask | TodoList.jsx:138 | only the input buffer changes, to the typed value |
| TodoApp.TodoList.AddTask | TodoList.jsx:41-45 | a blank input leaves list and input buffer unchanged; otherwise the input is appended untrimmed with the given id and the buffer becomes "" |
| TodoApp.TodoList.ToggleComplete | TodoList.jsx:48-54 | only the list changes, to `Toggled` of the old list |
| TodoApp.TodoList.DeleteTask | TodoList.jsx:57-59 | only the list changes, to `Without` of the old list |
| TodoApp.TodoList.StartEditing | TodoList.jsx:62-65 | the cursor and the scratch text are overwritten; the list and everything else are untouched |
| TodoApp.TodoList.SetEditedTask | TodoList.jsx:188 | only the scratch text changes, to the typed value |
| TodoApp.TodoList.SaveEditedTask | TodoList.jsx:68-76 | the list becomes `Renamed` by the old cursor and scratch text; then the cursor is null and the scratch text "" |
| TodoApp.TodoList.SetFilter | TodoList.jsx:149-161 | only the filter changes, to the chosen value |
| TodoApp.TodoList.ImportTasks | TodoList.jsx:99-113 | a parsed document replaces the list; with no file or a malformed document the list is unchanged, and exactly a malformed one raises the alert |

## Left out

- Loading from and saving to `localStorage` (TodoList.jsx:14-25): browser storage I/O whose content passes through `JSON.parse`/`JSON.stringify`, which the model does not see. The reload default (`[]`, "light") is not modelled; the constructor gives the state of a fresh mount before that effect runs.
- The one-second clock (TodoList.jsx:28-33) and the `dateTime` state: wall-clock time and timer scheduling.
- `exportTasks` (TodoList.jsx:86-96): serialisation and download plumbing (Blob, object URL, DOM anchor). With it goes the export/import round trip.
- TodoApp.TodoList.ImportTasks: the `FileReader` read and the `JSON.parse` call are replaced by the outcome they produce (`ImportRead`). A parsed document is taken to be a list of tasks; the source installs any JSON value without checking its shape. The read is asynchronous in the source, so other handlers may run before it lands; the model treats the import as one atomic step.
- `Date.now()` (TodoList.jsx:43): the id is the `now` argument of `AddTask`.
- Ids are modelled as unbounded integers compared with `==`; a JavaScript number's range and the `===` comparison of imported values of other types are not modelled.
- Characters are Unicode scalar values, not UTF-16 code units; every character `trim` removes is in the Basic Multilingual Plane, so blank detection is the same.
- All JSX rendering and styling (TodoList.jsx:115-218), including which buttons appear while a task is being edited.
- Intro.jsx: a static welcome screen whose only behaviour is passing a click to its parent's `onStart` callback; it has no state.
