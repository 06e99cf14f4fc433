# Todo state manager — Dafny model

This project models the state logic of a single-page todo list (`src/app/page.js`). It covers:

- the todo store `useTodosStatus`. It holds an ordered, newest-first list of `{id, content, regDate, isCompleted}` records and a last-assigned-id counter. Both are loaded from local storage at start-up and written back after every change. Its operations are `addTodo`, `removeTodo`, `toggleComplete` and `editTodo`.
- the blank-input checks in the new-todo form, the inline list-item editor and the edit modal.
- the delete action of the option drawer.
- three UI state machines: the option drawer, the edit modal and the notice snackbar.

Modules:

- `Optional`: `Option` and `Result`.
- `Text`: ECMAScript `trim`, the blank test built on it, and the decimal text of an id.
- `TodoList`: the record type. It also has the pure list transformations behind the store's `filter`/`map` updaters and a by-id lookup.
- `TodoStore`:
  - the store as a value (`Store`) and its invariant (`WellFormed`: newest first, ids in `1..lastTodoId`);
  - `Step`, one operation as a pure function, and `Run`/`Issued` for sequences of operations;
  - the persisted snapshot and its load;
  - the class `TodosStatus`, whose methods update the list, the counter and the stored snapshot in place. Each method is specified by `Step`.
- `UiState`: the classes `TodoOptionDrawerStatus`, `EditTodoModalStatus` and `NoticeSnackbarStatus`.
- `Forms`: the submit and confirm handlers as classes and methods. Each states when it reaches the store and what the store, the form and the UI state become.

Behaviour of the code that the model keeps:

- The new-todo form and the inline editor reject blank text and then store it untrimmed (page.js:115, 149). Only the edit modal trims before storing (page.js:254). The model proves only that stored content is never blank (`Forms.AdmittedStepKeepsContentsFilled`).
- A stored entry that `JSON.parse` cannot read is not replaced by defaults. The parse throws and nothing catches it. `TodoStore.Load` and `TodoStore.TodosStatus.Open` return an error in that case.
- Each entry falls back on its own. A stored list next to a missing counter loads with counter 0 (`TodoStore.LoadListWithoutCounter`). If that list is non-empty, the loaded state is not well formed: the next add repeats id 1. A counter stored as `0` or `null` next to a non-empty list has the same effect. The id-uniqueness results (`TodoStore.RunPreservesWellFormed`, the last ensures of `TodoStore.TodosStatus.AddTodo`) hold only from a well-formed state, such as the empty start (`TodoStore.LoadNothing`) or a reload of what the store itself wrote (`TodoStore.LoadSnapshot`).

Inputs from outside the model:

- The registration date (`new Date().toLocaleString()`) is a parameter.
- The stored data is an abstract snapshot with two entries. Each entry is missing, unparsable or holding a value.
- The answer to the delete `confirm` dialog is a boolean parameter.
- The text of the edit modal's success notice is a parameter (see "Left out").

## Model

| member | source | states |
|---|---|---|
| `Text.Trim` | src/app/page.js:254 | `trim` returns a contiguous piece of the input that neither starts nor ends with whitespace. Everything outside that piece is whitespace. |
| `Text.IsWhitespace` | src/app/page.js:111 | The characters `trim` strips (at lines 111, 144 and 254): the ECMAScript WhiteSpace and LineTerminator code points. This is a definition without a contract. |
| `Text.IsBlank` | src/app/page.js:111 | The handlers' rejection test `trim() === ''` (also at lines 144 and 255). It is a definition; `Text.BlankIffAllWhitespace` states what it means. |
| `Text.BlankIffAllWhitespace` | src/app/page.js:111 | The submit handlers' test `trim() === ''` (also at lines 144 and 255) holds exactly when every character is whitespace. |
| `Text.TrimIdempotent` | src/app/page.js:254-255 | Trimming an already trimmed string changes nothing, so the modal's trimmed value passes the same check again. |
| `Text.DecimalString` | src/app/page.js:307 | The id in the delete notice is rendered as a non-empty run of decimal digits with no leading zero. |
| `Text.DecimalRoundTrip` | src/app/page.js:307 | Reading the rendered id back as a decimal number gives the id, so different ids give different notices. |
| `TodoList.RemoveById` | src/app/page.js:77 | After the filter, no record with the id is left, and the list never grows. |
| `TodoList.RemoveByIdCounts` | src/app/page.js:77 | The filter drops every record with the id. Every other record keeps its multiplicity. |
| `TodoList.RemoveByIdAbsent` | src/app/page.js:77 | Removing an id that no record carries leaves the list unchanged. |
| `TodoList.RemoveByIdAppend` | src/app/page.js:77 | Removal distributes over concatenation, so kept records stay in their original relative order. |
| `TodoList.RemoveByIdUnchangedIff` | src/app/page.js:77 | Removal leaves the list unchanged if and only if no record has the id. |
| `TodoList.RemoveByIdIdempotent` | src/app/page.js:77 | Removing an id twice gives the same list as removing it once. |
| `TodoList.RemoveByIdSubset` | src/app/page.js:77 | Every record left after removal was in the list before and has a different id. |
| `TodoList.RemoveByIdNewestFirst` | src/app/page.js:73-77 | Removal keeps the newest-first order (strictly decreasing ids) that adding builds. |
| `TodoList.ToggleById` | src/app/page.js:81-85 | The map negates `isCompleted` exactly on the records with the id. Ids, contents, dates, length and order never change. |
| `TodoList.ToggleTwice` | src/app/page.js:81-85 | Toggling the same id twice gives back the original list. |
| `TodoList.ToggleUnchangedIff` | src/app/page.js:81-85 | Toggling leaves the list unchanged if and only if no record has the id. |
| `TodoList.EditById` | src/app/page.js:89-93 | The map replaces `content` exactly on the records with the id. Ids, dates, completion flags, length and order never change. |
| `TodoList.EditAbsent` | src/app/page.js:89-93 | Editing an id no record has leaves the list unchanged. |
| `TodoList.EditTwice` | src/app/page.js:89-93 | Of two edits of the same id, the later one wins. |
| `TodoList.MapsKeepIds` | src/app/page.js:81-93 | Toggling and editing keep the sequence of ids. |
| `TodoList.IndexOfId` | src/app/page.js:312 | Gives the position of the first record with the id, or nothing exactly when no record has it. |
| `TodoList.FindById` | src/app/page.js:312 | The lookup the drawer needs returns a record of the list with the id, or nothing exactly when no record has it. |
| `TodoList.FindByIdUnique` | src/app/page.js:312 | In a newest-first list the lookup returns the one record carrying the id. |
| `TodoList.FindAfterEdit` | src/app/page.js:89-93 | After an edit, the lookup returns the same record with only its content replaced. |
| `TodoList.FindAfterToggle` | src/app/page.js:81-85 | After a toggle, the lookup returns the same record with only its flag negated. |
| `TodoList.IndexesAgree` | src/app/page.js:81-93 | Lists with the same ids at the same positions give the same lookup position (`IndexOfId`). |
| `TodoStore.Step` | src/app/page.js:62-94 | Only an add moves the counter, by exactly one. An add grows the list by one, and the new first record carries the new counter. A removal never grows the list and leaves no record with the id. Toggle and edit keep the sequence of ids. |
| `TodoStore.AddAssignsFreshId` | src/app/page.js:62-73 | Adding sets the counter to its old value plus one. The new first record has that id, the given content and date, and `isCompleted = false`. The old records follow it unchanged. These hold from any state. From a well-formed state, no old record had the new id. |
| `TodoStore.StepPreservesWellFormed` | src/app/page.js:62-94 | Each of the four operations keeps the list newest first with every id in `1..lastTodoId`. |
| `TodoStore.IssuedIdsConsecutive` | src/app/page.js:62-78 | Over any sequence of operations, the ids the adds hand out are the consecutive numbers after the starting counter, so they strictly increase and never repeat. Removals do not change this. The counter ends at the last issued id. |
| `TodoStore.RunPreservesWellFormed` | src/app/page.js:62-94 | From a well-formed state every reachable state is well formed, and no issued id belongs to a record that existed before. |
| `TodoStore.ScenarioCounterSurvivesRemoval` | src/app/page.js:62-78 | Sequence: add, add, remove id 1, add. The adds issue ids 1, 2, 3, and the resulting list is `[3, 2]`, newest first. |
| `TodoStore.LoadEntry` | src/app/page.js:46 | `JSON.parse(...)` with its fallback operand (also at line 51) fails exactly on unparsable text. It returns the stored value when one is present and the fallback when the entry is missing. |
| `TodoStore.Load` | src/app/page.js:45-52 | Start-up fails exactly when one of the two entries cannot be parsed. Otherwise it loads the stored list or `[]`, and the stored counter or `0`, each on its own. |
| `TodoStore.Snapshot` | src/app/page.js:58-59 | The effect writes both entries, the list and the counter. Neither is ever left missing. |
| `TodoStore.LoadListWithoutCounter` | src/app/page.js:45-52 | A non-empty stored list next to a missing counter loads with counter 0. That state is not well formed. |
| `TodoStore.LoadNothing` | src/app/page.js:45-52 | With nothing stored, the initial state is the empty list with counter 0, which is well formed. |
| `TodoStore.LoadSnapshot` | src/app/page.js:45-60 | Loading what the persistence effect wrote gives back the same list, field for field, and the same counter. |
| `TodoStore.TodosStatus.constructor` | src/app/page.js:45-60 | The initial state is installed, and the first run of the effect leaves storage equal to it. |
| `TodoStore.TodosStatus.Open` | src/app/page.js:45-52 | Mounting fails exactly where loading fails. Otherwise the store starts from the loaded state, with storage in sync. |
| `TodoStore.TodosStatus.Persist` | src/app/page.js:57-60 | The effect writes both entries so that storage equals the in-memory list and counter, and changes nothing else. |
| `TodoStore.TodosStatus.AddTodo` | src/app/page.js:62-74 | Returns the old counter plus one, and the counter becomes that value. The state becomes `Step(..., Add)`. Storage is in sync. Well-formedness is kept, and the returned id was not in use. |
| `TodoStore.TodosStatus.RemoveTodo` | src/app/page.js:76-78 | The list becomes the filtered list and the counter is untouched. Storage is in sync and well-formedness is kept. |
| `TodoStore.TodosStatus.ToggleComplete` | src/app/page.js:80-86 | The list becomes the toggled list and the counter is untouched. Storage is in sync and well-formedness is kept. |
| `TodoStore.TodosStatus.EditTodo` | src/app/page.js:88-94 | The list becomes the edited list and the counter is untouched. Storage is in sync and well-formedness is kept. |
| `UiState.TodoOptionDrawerStatus.Opened` | src/app/page.js:218 | The derived `opened` flag, `todoId !== null`. It is a definition; the contracts of the constructor, `Open` and `Close` state what it is after each transition. |
| `UiState.TodoOptionDrawerStatus.constructor` | src/app/page.js:217-218 | The drawer starts with no selected id and is therefore closed. |
| `UiState.TodoOptionDrawerStatus.Open` | src/app/page.js:220 | `open(id)` selects `id`, and the drawer is open. |
| `UiState.TodoOptionDrawerStatus.Close` | src/app/page.js:221 | `close()` clears the selection, and the drawer is closed. |
| `UiState.EditTodoModalStatus.constructor` | src/app/page.js:232 | The modal starts closed. |
| `UiState.EditTodoModalStatus.Open` | src/app/page.js:234-236 | `open()` makes the modal visible. |
| `UiState.EditTodoModalStatus.Close` | src/app/page.js:238-240 | `close()` hides the modal. |
| `UiState.NoticeSnackbarStatus.constructor` | src/app/page.js:378-382 | The snackbar starts hidden, with every attribute null. |
| `UiState.NoticeSnackbarStatus.Open` | src/app/page.js:383-389 | Shows the notice and sets the message, severity, duration and variant. The defaults are `success`, 3000 and `filled`. |
| `UiState.NoticeSnackbarStatus.Close` | src/app/page.js:390-392 | Hides the notice and keeps all four attributes. |
| `UiState.LastNoticeWins` | src/app/page.js:383-392 | After a success notice and then an error notice, only the error notice's attributes remain. Closing hides it without erasing them. |
| `Forms.AdmittedStepKeepsContentsFilled` | src/app/page.js:109-151 | Operations that passed the blank checks never leave a blank content in the list. |
| `Forms.TrimmedInputAdmitted` | src/app/page.js:253-261 | When the modal's raw input is not blank, its trimmed value passes the blank check too. |
| `Forms.NewTodoForm.constructor` | src/app/page.js:107 | The new-todo field starts empty. |
| `Forms.NewTodoForm.Type` | src/app/page.js:125 | The field's `onChange` replaces the field's value with the typed text. |
| `Forms.NewTodoForm.HandleSubmit` | src/app/page.js:109-117 | The store is reached if and only if the text is not blank. Blank text leaves the store and the field unchanged. Otherwise a record with the untrimmed text gets the next id, and the field is cleared. |
| `Forms.TodoListItem.constructor` | src/app/page.js:139-140 | The item starts with its editor closed, holding the record's content. |
| `Forms.TodoListItem.Type` | src/app/page.js:181 | The editor's `onChange` replaces the editor's text and keeps the editing flag. |
| `Forms.TodoListItem.StartEditing` | src/app/page.js:197 | A click on the text opens the editor and keeps its text. |
| `Forms.TodoListItem.HandleEditSubmit` | src/app/page.js:142-151 | Blank text changes nothing. Otherwise the record's content becomes the text as typed, and the editor closes. |
| `Forms.SubmitEditModal` | src/app/page.js:251-262 | The field becomes its trimmed value. Blank input leaves the store, the modal and the notice unchanged. Otherwise the record gets the trimmed text, the modal closes and a success notice is shown. |
| `Forms.RemovedMessage` | src/app/page.js:307 | The deletion notice is the decimal id followed by "번 todo 삭제됨". This is a definition; `Forms.RemovedMessageInjective` states what it means. |
| `Forms.RemovedMessageInjective` | src/app/page.js:307 | Two deletion notices are equal only for the same id. |
| `Forms.ConfirmRemove` | src/app/page.js:300-308 | The drawer always closes. If the user declines, the store and the notice are unchanged. If the user confirms, the selected record is removed and an error notice "<id>번 todo 삭제됨" is shown. |

## Left out

- `src/app/theme.js` and `src/app/layout.js`: theme construction, CSS custom properties, fonts and the HTML shell. These are presentation and contain no state logic.
- All JSX rendering, MUI components, icons, `console.log`, and `form.content.focus()`. `alert` and `confirm` are modelled only by their outcome.
- Serialisation: the real `localStorage`, `JSON.stringify` and `JSON.parse` are replaced by an abstract two-entry snapshot. Stored values of the wrong shape are not modelled. A stored `null` (or a counter stored as `0`) takes the fallback exactly like a missing entry, so the model represents it as `Missing`.
- The clock and locale behind `regDate`. The date is a parameter.
- The snackbar's auto-hide timer. Hiding is modelled only as an explicit `Close`.
- The unused Recoil atoms (page.js:31-39).
- The App's own message banner (`snackbarMessage`, page.js:371-375 and 406-413). It is a second, presentational banner beside `NoticeSnackbarStatus`.
- The undefined names `modifyTodo`, `findTodoById` and `newTodoId` (page.js:261, 264, 312) are not reproduced:
  - `Forms.SubmitEditModal` edits through `EditTodo`;
  - the lookup is `TodoList.FindById`;
  - the modal's success message is a caller-supplied parameter in place of the template that names `newTodoId`.
- React semantics are not modelled:
  - each operation is one atomic step, with no batching of state updates and no stale closures (the `lastTodoIdRef` at page.js:54-55);
  - every component that calls `useTodosStatus()` really gets its own independent copy, but the model passes one shared store to every handler;
  - the persistence effect is modelled as running after every operation, which is equivalent whenever the state is unchanged.
- A failed write to storage (quota) is not caught by the code (page.js:58-59). Writes are modelled as always succeeding.
- `TodoStore.TodosStatus.AddTodo`: the counter is an unbounded integer. A JavaScript number stops increasing at 2^53, so ids could repeat past that point; the model does not capture this.
- `Forms.ConfirmRemove`: requires the drawer to be open. The delete button exists only inside the open drawer, so the source never calls it otherwise.
