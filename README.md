# Task manager: a verified model of the task-list component

The repository is a single React component, `TaskManager`
(src/components/TaskManager.tsx). It keeps a list of tasks and a handful of
form fields, and it has event handlers that change them. A task has an
identifier, a text, a completion flag, a creation time, an optional due date
and an optional priority. This project models that component in Dafny:

- `Todos` (todos.dfy) defines the `Todo` record and `Option`, `Priority` and
  `Filter`. It also holds the pure list transformations inside the handlers:
  the append of `addTodo`, the `map` of `toggleTodo` and `saveEdit`, and the
  `filter` of `deleteTodo`. The values derived on each render are here too:
  `filteredTodos`, `completedCount` and `activeCount`. Lemmas about all of
  them sit beside them.
- `Lists` (lists.dfy) models JavaScript's `Array.prototype.map` and
  `Array.prototype.filter` on sequences, with their order and length facts.
- `Text` (text.dfy) models `String.prototype.trim` with ECMAScript's own
  whitespace set. `addTodo` uses it to reject blank text.
- `Display` (display.dfy) holds the priority colour class and the priority
  badge text.
- `Component` (component.dfy) holds the class `TaskManager`. Its fields are
  the component's state variables and its methods are the event handlers.
  Each handler is one atomic transition. Its `modifies` clause names exactly
  the fields that the handler assigns.
  - `EditThenCancel` proves a handler sequence: opening a task for editing,
    changing its drafts and cancelling.
  - `SessionAdd` and `Session` replay a short session: add a task, complete
    it, delete the seed task.

Nondeterministic inputs are parameters:

- The identifier `Date.now().toString()` and the timestamp
  `new Date().toISOString()` are arguments of `AddTodo`.
- The list read from storage at mount is the constructor's
  `Option<seq<Todo>>`. `None` stands for storage that returns nothing or the
  empty string, because both are falsy in JavaScript. In that case the list
  starts with the seed task "Ödev".

Behaviour kept exactly as the code has it:

- The stored text is the text as typed. Only the emptiness test trims it.
- `saveEdit` accepts an empty text.
- The date and priority drafts are shared by the add form and the edit form.
- Neither save nor cancel restores or clears the drafts.
- Saving an untouched edit is not always a no-op. A task with no priority
  gets `medium`, and a stored empty due date becomes absent.

Two facts about the code shape the model:

- The code does not keep identifiers unique. Uniqueness appears only as a
  precondition, and the lemmas show that the operations preserve it when the
  clock yields a fresh identifier.
- The code has no fallback for malformed saved data: `JSON.parse` throws.
  The model has no such fallback either.

## Model

| member | source | states |
|---|---|---|
| Text.Trim | src/components/TaskManager.tsx:47 | the trimmed text is a contiguous slice of the input that neither starts nor ends with whitespace, and everything cut off before and after it is whitespace |
| Text.TrimEmptyIffBlank | src/components/TaskManager.tsx:47 | text trims to the empty string exactly when every character is whitespace, so `addTodo` rejects exactly the blank drafts |
| Lists.Map | src/components/TaskManager.tsx:66-68 | `map` keeps the length and applies the callback at every position |
| Lists.Filter | src/components/TaskManager.tsx:74 | `filter` never grows the list, keeps only elements that pass, and keeps every element that passes |
| Lists.FilterIsSubsequence | src/components/TaskManager.tsx:101-105 | the filtered list is an order-preserving subsequence of the input |
| Lists.FilterConcat | src/components/TaskManager.tsx:74 | filtering a concatenation filters each part and concatenates the results |
| Lists.FilterKeepsAll | src/components/TaskManager.tsx:74 | a filter that every element passes returns the list itself |
| Lists.FilterIdempotent | src/components/TaskManager.tsx:74 | filtering twice with the same callback equals filtering once |
| Lists.FilterPartitionMultiset | src/components/TaskManager.tsx:101-109 | two complementary filters together hold every element exactly as often as the input does |
| Lists.FilterPartition | src/components/TaskManager.tsx:101-109 | two complementary filters split the list: their lengths sum to its length |
| Todos.DueDateFromDraft | src/components/TaskManager.tsx:53 | the due date is absent exactly when the field is empty, and otherwise is the field's text |
| Todos.DraftFromDueDate | src/components/TaskManager.tsx:81 | the date field shows the due date, or is empty when there is none |
| Todos.DraftFromPriority | src/components/TaskManager.tsx:82 | the priority selector shows the priority, or medium when there is none |
| Todos.NewTodo | src/components/TaskManager.tsx:48-55 | the new record has the given identifier and timestamp, the text as typed, is not completed, has the draft priority, and has a due date exactly when the date field is non-empty (then equal to it) |
| Todos.DraftDueDateRoundTrip | src/components/TaskManager.tsx:53 | a date field stored as a due date (empty means absent) and loaded back into the field is unchanged |
| Todos.DueDateRoundTrip | src/components/TaskManager.tsx:81 | a due date loaded into the field and stored back is unchanged exactly when it is not the empty string |
| Todos.PriorityRoundTrip | src/components/TaskManager.tsx:82 | a priority loaded into the selector (absent becomes medium) and stored back is unchanged exactly when it was present |
| Todos.AddKeepsUniqueIds | src/components/TaskManager.tsx:48-56 | appending a task whose identifier no task carries keeps identifiers unique |
| Todos.Toggle | src/components/TaskManager.tsx:64-70 | `completed` flips on exactly the tasks with the identifier; all other fields, all other tasks, the length and the order stay the same |
| Todos.ToggleTwice | src/components/TaskManager.tsx:64-70 | toggling the same identifier twice restores the list |
| Todos.ToggleAbsent | src/components/TaskManager.tsx:64-70 | toggling an identifier that no task carries changes nothing |
| Todos.ToggleKeepsUniqueIds | src/components/TaskManager.tsx:64-70 | toggling preserves unique identifiers |
| Todos.Delete | src/components/TaskManager.tsx:73-75 | the result holds exactly the tasks without the identifier, as an order-preserving subsequence, and is shorter by the number of tasks that carry it |
| Todos.DeleteAbsent | src/components/TaskManager.tsx:73-75 | deleting an identifier that no task carries leaves the list identical |
| Todos.DeleteIdempotent | src/components/TaskManager.tsx:73-75 | deleting twice equals deleting once |
| Todos.DeleteRemovesOne | src/components/TaskManager.tsx:73-75 | with unique identifiers, deleting a present identifier shortens the list by exactly one |
| Todos.DeleteUndoesAdd | src/components/TaskManager.tsx:56 | deleting a just-appended task whose identifier was fresh gives back the list from before the add |
| Todos.DeleteKeepsUniqueIds | src/components/TaskManager.tsx:73-75 | deleting preserves unique identifiers |
| Todos.SaveEdit | src/components/TaskManager.tsx:86-98 | matching tasks take the draft text, the draft date (absent when empty) and the draft priority, and keep identifier, completion and creation time; other tasks and the length are unchanged |
| Todos.SaveKeepsUniqueIds | src/components/TaskManager.tsx:86-98 | saving preserves unique identifiers |
| Todos.SaveUntouchedDrafts | src/components/TaskManager.tsx:78-98 | with unique identifiers, opening a task for editing and saving unchanged drafts leaves the list unchanged exactly when the task has a priority and no stored empty due date |
| Todos.FilteredTodos | src/components/TaskManager.tsx:101-105 | the view is an order-preserving subsequence of the list; every task the filter shows occurs in it exactly as often as in the list and no other task occurs; under `all` it is the list itself |
| Todos.ViewsPartition | src/components/TaskManager.tsx:101-105 | the lengths of the active view and the completed view sum to the length of the list |
| Todos.CompletedCount | src/components/TaskManager.tsx:108 | the count is at most the list length and equals the length of the completed view |
| Todos.ActiveCount | src/components/TaskManager.tsx:109 | the total minus the completed count equals the number of incomplete tasks, i.e. the length of the active view |
| Display.PriorityColorClass | src/components/TaskManager.tsx:118-125 | the class is the gray default exactly when the priority is absent |
| Display.ColorClassesDistinct | src/components/TaskManager.tsx:118-125 | high, medium, low and absent map to four different classes |
| Display.PriorityLabel | src/components/TaskManager.tsx:275 | high reads "Yüksek", medium reads "Orta", and the badge reads "Düşük" exactly when the priority is neither high nor medium, absent included |
| Display.LabelsDistinct | src/components/TaskManager.tsx:275 | the three stored priorities get three different badge texts |
| Display.LabelAgreesWithEditForm | src/components/TaskManager.tsx:275 | the badge agrees with the priority the edit form preselects exactly when the task has a priority |
| Component.TaskManager.constructor | src/components/TaskManager.tsx:16-38 | the list is the saved list, or the seed task when nothing was saved; empty drafts, medium priority, filter `all`, menu closed, no task being edited |
| Component.TaskManager.ChangeNewTodoText | src/components/TaskManager.tsx:175 | typing sets only the new-task text |
| Component.TaskManager.ChangeDueDateInput | src/components/TaskManager.tsx:193 | picking a date sets only the shared date draft |
| Component.TaskManager.ChangePriority | src/components/TaskManager.tsx:201 | picking a priority sets only the shared priority draft |
| Component.TaskManager.ChangeEditText | src/components/TaskManager.tsx:227 | typing in the edit form sets only the edit text |
| Component.TaskManager.AddTodo | src/components/TaskManager.tsx:46-61 | blank text changes nothing. Other text appends one task at the end: untrimmed text, not completed, the given identifier and timestamp, the draft date (absent if empty) and the draft priority. Earlier tasks are kept, and text, date and priority reset to "", "" and medium |
| Component.TaskManager.ToggleTodo | src/components/TaskManager.tsx:64-70 | only the list changes, to `Toggle` of the old list |
| Component.TaskManager.DeleteTodo | src/components/TaskManager.tsx:73-75 | only the list changes, to `Delete` of the old list |
| Component.TaskManager.StartEditing | src/components/TaskManager.tsx:78-83 | sets the edited identifier and loads text, date (absent becomes "") and priority (absent becomes medium); the list is untouched |
| Component.TaskManager.SaveEdit | src/components/TaskManager.tsx:86-98 | the list becomes `SaveEdit` of the old list with the current drafts, the edit form closes, the drafts keep their values |
| Component.TaskManager.CancelEdit | src/components/TaskManager.tsx:250 | only the edited identifier changes, to none |
| Component.TaskManager.ToggleFilterMenu | src/components/TaskManager.tsx:137 | only the menu flag changes, to its negation |
| Component.TaskManager.ChooseFilter | src/components/TaskManager.tsx:147-159 | sets the chosen filter and closes the menu |
| Component.SessionAdd | src/components/TaskManager.tsx:46-61 | from empty storage, adding "Buy milk" with high priority and a due date yields the seed task followed by that task, and resets the drafts |
| Component.EditThenCancel | src/components/TaskManager.tsx:248-253 | editing a task, changing every draft and cancelling leaves the list unchanged, closes the form and leaves the changed drafts in place |

## Left out

- Persistence: the write of the list to `localStorage` after every change
  (src/components/TaskManager.tsx:41-43) is not modelled. Neither is JSON
  encoding and decoding, so the save-and-reload round trip is not stated.
  The initial read is a parameter of the constructor. A saved value is
  assumed to decode to a list of well-formed task records.
- `Date.now()` and `new Date().toISOString()` are parameters. The identifier
  is taken as a given string rather than as the decimal rendering of a
  clock reading.
- Date formatting (`formatDate`, `toLocaleDateString`) depends on the locale
  and the time zone, so it is not modelled.
- Rendering is not modelled: the JSX, the CSS classes other than the
  priority colour, the filter button's caption, the counters line and the
  empty-list message. src/App.tsx only mounts the component and is not
  part of this model.
- React's scheduling is not modelled. Each handler is one atomic step that
  reads the state as it was before the handler started.
- The priority selector's `e.target.value as any` is modelled as a choice
  among the three options it offers.
