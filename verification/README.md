# Kanban task board — Dafny model of the synchronisation and view core

This project models the core of a React + Firestore task board in which every
task sits in one of three workflow stages (todo, in-progress, completed) and
carries, besides its stage, a `completed` flag. The central invariant is that
the flag mirrors the stage: `completed == (status == "completed")`
(`TodoTypes.Consistent`, and `TodoService.DocConsistent` on a stored document).

The model is functional: immutable datatypes and pure functions, with a few
methods where the source loops.

- `types.dfy` (`TodoTypes`): priorities, stages, the task, the form payload and the list filter.
- `text.dfy` (`Text`): JavaScript `trim`, the blank test `!s.trim()`, `includes`, ASCII `toUpperCase` and the UTF-16 `length` of a string.
- `ordering.dfy` (`Ordering`): order-preserving `filter` and a sort by an integer key.
- `todo_service.dfy` (`TodoService`): the store adapter. The collection is a map from id to raw document. It covers the read-side conversion with its legacy migration, create, field-merging update, the two stage/flag writers, delete and the ordered snapshot. It also covers sequences of writes and which of them keep the invariant.
- `use_todos.dfy` (`UseTodos`): the cached snapshot, loading and error flags, the filter, `setFilter`, and the derived filtered and sorted view.
- `kanban_board.dfy` (`KanbanBoard`): the three columns and the drag controller (`Idle | Dragging(id, task?)`), fed by an abstract stream of `Start(id)` and `Drop(id, column?)` events.
- `todo_form.dfy` (`TodoForm`): field validation, the submit and reset rule, and per-field error clearing.
- `todo_list.dfy` (`TodoList`): the inline form's normalisation, the completed-count badge and the list's edit flow.
- `app.dfy` (`App`): the header statistics and the add/edit modal.
- `todo_card.dfy` and `todo_item.dfy` (`TodoCard`, `TodoItem`): the two overdue predicates, the priority style, keyboard dispatch, the confirmed delete and the checkbox.
- `firebase_config.dfy` (`FirebaseConfig`): loading the six connection settings, masking and validation.

Several things are parameters rather than modelled: the server clock (`now`, in milliseconds), the outcome of every remote call (`accepted` / `succeeded`), the user's confirmation (`confirmed`), the identifier the store generates on create, and the environment.

Four behaviours of the code worth noting:
- The generic update does not derive `completed` from `status` (`TodoService.Update`). Only `updateTodoStatus` writes both.
- Delete does not check that the document exists. Deleting an unknown id succeeds and changes nothing (`TodoService.Delete`).
- A drop is not compared with the recorded drag session (`KanbanBoard.DropIgnoresSession`).
- `Array.prototype.sort` is stable, so tasks with equal sort keys keep the newest-first order of the snapshot. The model's sort does not state this tie order.

The form's length limits use JavaScript lengths: a character outside the Basic Multilingual Plane counts as two UTF-16 code units (`Text.Utf16Length`). Masking counts characters instead (see "## Left out").

## Model

| member | source | states |
|---|---|---|
| TodoTypes.PriorityNameRoundTrip | src/types/todo.ts:1 | each of the three priorities has its own literal, and reading the literal gives the priority back |
| TodoTypes.StatusNameRoundTrip | src/types/todo.ts:2 | each of the three stages has its own literal, and reading the literal gives the stage back |
| Text.Trim | src/components/todo/TodoList.tsx:25-26 | the trimmed string is the piece of the input starting after its leading white space, only white space lies outside it, and it neither starts nor ends with white space |
| Text.BlankIffAllWhitespace | src/components/todo/TodoForm.tsx:33 | a title is blank after trimming exactly when every character in it is white space |
| Text.Utf16LengthPlanes | src/components/todo/TodoForm.tsx:35-39 | a string's JavaScript length equals its character count when it has no astral character, and twice that when all are astral |
| Ordering.Keep | src/hooks/useTodos.ts:52-59 | a filter returns no more elements than it is given, all satisfying the predicate |
| Ordering.KeepCount | src/hooks/useTodos.ts:52-59 | a filter keeps every element satisfying the predicate as often as it occurs and drops all others |
| Ordering.KeepAppend | src/components/KanbanBoard.tsx:45 | filtering keeps relative order: it distributes over concatenation |
| Ordering.KeepSize | src/components/todo/TodoList.tsx:132 | a filter keeps exactly as many elements as there are positions satisfying the predicate |
| Ordering.Sort | src/hooks/useTodos.ts:62-81 | the sort returns a permutation of its input that ascends by the key |
| TodoService.ReadStatus | src/services/todoService.ts:24-30 | a stored stage is kept; a document without one reads as completed iff its flag is true, and never as in-progress |
| TodoService.Read | src/services/todoService.ts:20-43 | missing fields read as "", "", false, medium, the read time and no due date; present fields are kept |
| TodoService.ReadConsistentIff | src/types/todo.ts:8-9 | whether a read task satisfies the invariant depends only on its stored document |
| TodoService.MigrationConsistent | src/services/todoService.ts:24-36 | a legacy document without a stage always reads as a consistent task |
| TodoService.NewDoc | src/services/todoService.ts:48-55 | a created document is not completed, is still to do, has both timestamps at the server time and keeps the given due date or none |
| TodoService.Create | src/services/todoService.ts:46-61 | an accepted create adds exactly the new document under the fresh id; a refused one is rethrown and changes nothing |
| TodoService.ReadAfterCreate | src/services/todoService.ts:48-55 | reading a created task back gives the submitted title, description, priority and due date, stage todo, flag false, consistent |
| TodoService.Merge | src/services/todoService.ts:70-78 | an update replaces exactly the supplied fields and stamps `updatedAt`; a supplied null due date clears it |
| TodoService.MergeIdempotent | src/services/todoService.ts:70-80 | applying the same update twice equals applying it once |
| TodoService.MergeEmpty | src/services/todoService.ts:70-73 | an update with no fields only refreshes `updatedAt` |
| TodoService.Update | src/services/todoService.ts:64-85 | only the addressed document changes; a refused write or a missing document is an error and changes nothing |
| TodoService.UpdateStatus | src/services/todoService.ts:130-141 | an accepted stage write of a stored task sets its stage, the matching flag and `updatedAt` and keeps every other field and every other task, so the task reads in the new stage and is consistent and a consistent store stays consistent; a missing task or a refusal is an error |
| TodoService.ToggleComplete | src/services/todoService.ts:117-127 | an accepted toggle of a stored task sets its flag and `updatedAt` and keeps every other field of it and every other task; a missing task or a refusal is an error that changes nothing |
| TodoService.ToggleConsistentIff | src/services/todoService.ts:117-123 | after a toggle the task is consistent iff it is a legacy task or the new flag matches its stage |
| TodoService.ToggleCanBreakConsistency | src/services/todoService.ts:122 | checking an in-progress task makes a consistent task inconsistent |
| TodoService.Delete | src/services/todoService.ts:88-95 | a delete removes the id and nothing else; deleting an unknown id succeeds as a no-op; a refusal is rethrown |
| TodoService.ReadAll | src/services/todoService.ts:104-107 | every stored document is read exactly once into the list |
| TodoService.Snapshot | src/services/todoService.ts:98-114 | the snapshot holds every stored document, read and converted, newest first; a consistent store gives consistent tasks |
| TodoService.FormPatch | src/App.tsx:50 | an edit's update carries the form's title, description, priority and due date, and never stage, flag or creation time |
| TodoService.StepPreservesConsistency | src/services/todoService.ts:46-95 | every create, edit, stage move or delete keeps all stored tasks consistent |
| TodoService.ReplayPreservesConsistency | src/services/todoService.ts:46-141 | any sequence of writes without the toggle, accepted or refused, keeps all stored tasks consistent |
| UseTodos.PriorityRank | src/hooks/useTodos.ts:66-69 | high ranks 3, medium 2, low 1 |
| UseTodos.View | src/hooks/useTodos.ts:48-84 | a task appears in the view as often as in the snapshot iff it passes both filters, and the view runs through the sort key in the chosen direction |
| UseTodos.ViewMembership | src/hooks/useTodos.ts:52-59 | a task is in the view iff it is in the snapshot and matches the stage filter and the priority filter |
| UseTodos.ViewAllIsPermutation | src/hooks/useTodos.ts:49-59 | with both filters at "all" the view is a permutation of the snapshot |
| UseTodos.PriorityOrderGroups | src/hooks/useTodos.ts:66-80 | descending priority puts high before medium before low; ascending reverses it |
| UseTodos.Initial | src/hooks/useTodos.ts:26-34 | the hook starts empty, loading, without error, with status all, priority all, sort by creation time descending |
| UseTodos.ReceiveSnapshot | src/hooks/useTodos.ts:39-42 | a snapshot replaces the cached list and ends loading, leaving filter and error alone |
| UseTodos.SnapshotReplacesWholesale | src/hooks/useTodos.ts:39-42 | an earlier snapshot leaves no trace once a later one arrives |
| UseTodos.SetFilter | src/hooks/useTodos.ts:137-139 | supplied filter fields overwrite, the others are kept |
| UseTodos.SetFilterIdempotent | src/hooks/useTodos.ts:137-139 | setting a partial filter twice equals setting it once; an empty one changes nothing |
| UseTodos.WriteSettled | src/hooks/useTodos.ts:87-134 | a write wrapper sets the error exactly when its call fails and never touches the cached list |
| UseTodos.ClearError | src/hooks/useTodos.ts:142-144 | clearing the error changes nothing else |
| UseTodos.LatestWriteDecidesError | src/hooks/useTodos.ts:87-144 | the shown error is decided by the latest write alone, a successful write is a clear, and clearing is idempotent and forgets any write's error |
| KanbanBoard.ColumnsAreTheStages | src/components/KanbanBoard.tsx:38-42 | there are three columns, todo, in-progress and completed, each once |
| KanbanBoard.ColumnTodos | src/components/KanbanBoard.tsx:44-46 | a column holds exactly the tasks in its stage, each as often as on the board |
| KanbanBoard.ColumnsPartition | src/components/KanbanBoard.tsx:44-46 | the three columns together hold every task exactly once |
| KanbanBoard.ColumnKeepsOrder | src/components/KanbanBoard.tsx:44-46 | columns keep the board's order |
| KanbanBoard.Find | src/components/KanbanBoard.tsx:52 | the lookup yields the first task with the id, or nothing iff no task has it |
| KanbanBoard.DragStart | src/components/KanbanBoard.tsx:48-54 | a drag start records the id and the task carrying it, or no task iff the id is not on the board |
| KanbanBoard.DragEnd | src/components/KanbanBoard.tsx:56-80 | a drop issues one stage update iff it lands on a column other than the found task's stage, and always ends the session |
| KanbanBoard.DropOnOwnColumnIsNoOp | src/components/KanbanBoard.tsx:68-70 | dropping a task on its own stage's column issues nothing |
| KanbanBoard.DropIgnoresSession | src/components/KanbanBoard.tsx:65-66 | the drop decision does not depend on the recorded session |
| KanbanBoard.DropUpdateKeepsStoreConsistent | src/components/KanbanBoard.tsx:70-72 | an accepted drop update moves the task to the target stage, keeps its title, description, priority, creation time and due date, and keeps the store consistent |
| KanbanBoard.Run | src/components/KanbanBoard.tsx:48-80 | over an event stream at most one update is issued per drop, each for a real stage change, and a final drop leaves the controller idle |
| TodoForm.Init | src/components/todo/TodoForm.tsx:20-25 | the form opens without errors with each supplied value, and each value not supplied defaults to "", "", medium or no due date; with nothing supplied it is empty |
| TodoForm.Validate | src/components/todo/TodoForm.tsx:30-49 | the title errs iff blank, or else iff its untrimmed UTF-16 length exceeds 100; the description iff its UTF-16 length exceeds 500; the due date iff before now |
| TodoForm.ValidIff | src/components/todo/TodoForm.tsx:47-48 | the form is valid iff all three field rules hold |
| TodoForm.ValidationBoundaries | src/components/todo/TodoForm.tsx:33-45 | a title of UTF-16 length 100 passes and one more character fails; a due date equal to now passes and one millisecond earlier fails |
| TodoForm.AstralTitleTooLong | src/components/todo/TodoForm.tsx:35-36 | a title of 51 astral characters is too long, although it has only 51 characters |
| TodoForm.Submit | src/components/todo/TodoForm.tsx:51-73 | an invalid form sends nothing; a valid one sends its data, and resets in add mode once the `onSubmit` promise resolves; a rejection keeps the data |
| TodoForm.ClearFieldError | src/components/todo/TodoForm.tsx:83-85 | clearing empties one field's message, keeps its entry and leaves the other fields alone |
| TodoForm.ChangeTitle | src/components/todo/TodoForm.tsx:75-86 | editing the title clears the title error only |
| TodoForm.ChangeDescription | src/components/todo/TodoForm.tsx:75-86 | editing the description clears the description error only |
| TodoForm.ChangeDueDate | src/components/todo/TodoForm.tsx:92-98 | changing the due date clears the due-date error only |
| TodoForm.ChangePriority | src/components/todo/TodoForm.tsx:88-90 | changing the priority leaves the errors alone |
| TodoForm.EditsReachSubmitOnlyThroughData | src/components/todo/TodoForm.tsx:51-98 | a submission after a field edit is the submission of the edited data: the errors the edit cleared play no part |
| TodoList.SimpleInit | src/components/todo/TodoList.tsx:16-18 | the inline form starts from each supplied title, description and priority, and each one not supplied defaults to "", "" or medium |
| TodoList.SimpleInitAgreesWithFormInit | src/components/todo/TodoList.tsx:16-18 | for the same initial data the inline form opens with the same title, description and priority as the modal form |
| TodoList.SimpleSubmit | src/components/todo/TodoList.tsx:20-36 | a blank title sends nothing; otherwise trimmed title, description trimmed or absent when blank, no due date; the fields reset in add mode once the `onSubmit` promise resolves |
| TodoList.SimpleSubmitNormalised | src/components/todo/TodoList.tsx:24-26 | what the inline form sends is unchanged by a further trim |
| TodoList.CompletedCount | src/components/todo/TodoList.tsx:132 | the badge is the number of positions in the list whose task has its flag set |
| TodoList.CompletedCountMatchesStats | src/components/todo/TodoList.tsx:132 | on consistent tasks the flag count equals the header's completed-stage count |
| TodoList.CompletedCountCanDiffer | src/components/todo/TodoList.tsx:132 | on an inconsistent task the two counts differ |
| TodoList.HandleEditSubmit | src/components/todo/TodoList.tsx:105-114 | with no task being edited nothing happens; otherwise the form fields are sent and success ends the edit |
| TodoList.ListEditRoundTrip | src/components/todo/TodoList.tsx:105-114 | editing a task sends the form to that task; success ends the edit and leaves the rest of the list state, failure keeps editing |
| TodoList.HandleAddSubmit | src/components/todo/TodoList.tsx:96-103 | a successful add hides the form, a failed one leaves it shown; the failure is swallowed, so the form's promise resolves either way |
| TodoList.AddThroughForm | src/components/todo/TodoList.tsx:20-36 | the inline form and the list's handler together send what the form alone would send |
| TodoList.FailedAddEmptiesShownForm | src/components/todo/TodoList.tsx:31-35 | as written, a failed add leaves the inline form shown but emptied |
| TodoList.HandleAddSubmitRethrowing | src/components/todo/TodoList.tsx:96-103 | the corrected handler changes the list state as before and its promise resolves iff the add succeeded |
| TodoList.RethrowingAddKeepsInput | src/components/todo/TodoList.tsx:20-36 | with the corrected handler a failed add keeps the input shown, a successful one hides the form and clears it |
| App.ComputeStats | src/App.tsx:86-91 | total is the list length and the three stage counts add up to it |
| App.BoardWithinStats | src/App.tsx:145-176 | the filtered board never shows more than the header's total, and exactly that many with both filters at "all" |
| App.OpenForm | src/App.tsx:73-75 | opening the form keeps the edited task |
| App.StartEdit | src/App.tsx:41-44 | starting an edit remembers the task and opens the form |
| App.CloseForm | src/App.tsx:68-71 | closing the form forgets the edited task |
| App.FormInitialData | src/App.tsx:197 | the form gets initial data exactly when a task is being edited, and then opens with that task's title, description, priority and due date |
| App.FormAddMode | src/App.tsx:196-198 | the form's own add test on the data it is handed holds exactly when the page routes the submit to the add handler, that is, when no task is being edited |
| App.EditInitialData | src/App.tsx:197 | an edit form opens with the task's own title, description, priority and due date |
| App.AddSettled | src/App.tsx:32-39 | a successful add closes the form, a failed one leaves it open; the failure is swallowed, so the form's promise resolves either way |
| App.AddThroughForm | src/App.tsx:32-39 | the modal form and the page's handler together send what the form alone would send |
| App.FailedAddEmptiesOpenForm | src/components/todo/TodoForm.tsx:57-67 | as written, a failed add leaves the modal open over an emptied form |
| App.AddSettledRethrowing | src/App.tsx:32-39 | the corrected handler changes the modal as before and its promise resolves iff the add succeeded |
| App.RethrowingAddKeepsInput | src/components/todo/TodoForm.tsx:57-69 | with the corrected handler a failed add keeps the modal open with the input, a successful one closes it and resets the form |
| App.ModalLifecycle | src/App.tsx:32-75 | closing returns to add mode, opening after a close is an add, a successful edit closes the modal after sending to the edited task, and an add never leaves add mode |
| App.HandleUpdate | src/App.tsx:46-56 | with no edited task nothing happens; otherwise the form fields are sent, success closes the modal and failure leaves it |
| App.EditKeepsStage | src/App.tsx:50 | an edit leaves stage, flag and creation time untouched, so a consistent task stays consistent |
| App.EditOfOverdueTaskBlocked | src/App.tsx:196-198 | an untouched edit of an overdue task is refused by validation |
| TodoCard.IsOverdue | src/components/TodoCard.tsx:29 | a card in the completed stage or without a due date is never overdue; otherwise it is overdue iff the due date is past |
| TodoCard.PriorityClass | src/components/TodoCard.tsx:31-42 | a known priority literal gets "priority-" plus itself, anything else gets "" |
| TodoCard.PriorityClassDistinct | src/components/TodoCard.tsx:31-42 | every task priority has its own non-empty style |
| TodoCard.KeyDown | src/components/TodoCard.tsx:44-52 | Enter or Space edits, Delete deletes, any other key does neither |
| TodoCard.OnlyThreeKeysAct | src/components/TodoCard.tsx:44-52 | exactly Enter, Space and Delete act, and no key both edits and deletes |
| TodoItem.IsOverdue | src/components/todo/TodoItem.tsx:46 | an item whose flag is set or without a due date is never overdue; otherwise it is overdue iff the due date is past |
| TodoItem.OverdueAgreesWithCard | src/components/todo/TodoItem.tsx:46 | on a consistent task the item's and the card's overdue tests agree |
| TodoItem.OverdueCanDisagree | src/components/todo/TodoItem.tsx:46 | on an inconsistent task they can disagree |
| TodoItem.HandleDelete | src/components/todo/TodoItem.tsx:23-34 | the delete is requested iff confirmed, and the item is busy while waiting and no longer busy after, whatever the outcome |
| TodoItem.ConfirmedDeleteRemovesTask | src/components/todo/TodoItem.tsx:23-34 | a confirmed delete that the store accepts removes exactly this task, the item ends idle, and a declined one sends nothing |
| TodoItem.CheckboxChange | src/components/todo/TodoItem.tsx:59-62 | the checkbox requests a toggle of this task to the new checked value |
| TodoItem.UncheckingCompletedBreaksConsistency | src/components/todo/TodoItem.tsx:59-62 | unchecking a task in the completed stage leaves it inconsistent |
| FirebaseConfig.MissingIndicesFrom | src/config/firebase-config.ts:41-42 | the unset positions, strictly increasing, each unset and every unset one present |
| FirebaseConfig.MissingFrom | src/config/firebase-config.ts:41-43 | the missing list has one name per unset value, in key order, names every unset value, and is empty iff every value is set |
| FirebaseConfig.ReportedName | src/config/firebase-config.ts:43 | the reported name is `REACT_APP_FIREBASE_` followed, character by character, by the key in capitals |
| FirebaseConfig.MissingNamesAsWritten | src/config/firebase-config.ts:41-43 | the reported names are the prefixed, capitalised keys of the unset values, in key order |
| FirebaseConfig.ReportedNameIsNoVariable | src/config/firebase-config.ts:43 | no reported name is one of the six variables read |
| FirebaseConfig.MissingNamesAsWrittenNameNoVariable | src/config/firebase-config.ts:41-53 | as written, every name in a missing-values error points at a variable that is not read |
| FirebaseConfig.MissingNames | src/config/firebase-config.ts:20-25 | the corrected report names exactly the variables whose values are unset, in key order |
| FirebaseConfig.Load | src/config/firebase-config.ts:12-76 | loading fails iff a value is unset or empty, naming them as the loader builds them, else fails iff the project id contains "demo", else yields the six values |
| FirebaseConfig.LoadCorrected | src/config/firebase-config.ts:12-76 | the corrected loader behaves like the original but reports unset values by the variables read |
| FirebaseConfig.MissingApiKeyReportedWrongly | src/config/firebase-config.ts:20-52 | with only the API key unset, the loader reports `REACT_APP_FIREBASE_APIKEY`, which is not a variable it reads, where the corrected loader reports `REACT_APP_FIREBASE_API_KEY` |
| FirebaseConfig.LoadNamesWrongVariables | src/config/firebase-config.ts:41-53 | both loaders fail on the same environments with as many names, but the original names no variable it reads and the corrected one names only such variables |
| FirebaseConfig.LoadComplete | src/config/firebase-config.ts:56-76 | with every value set, loading refuses iff the project id contains "demo", and otherwise yields exactly the six values |
| FirebaseConfig.DemoProjectContainsDemo | src/config/firebase-config.ts:66 | the explicit "demo-project" comparison is subsumed by the "demo" substring test |
| FirebaseConfig.Mask | src/config/firebase-config.ts:31-33 | a value over 10 characters becomes its first 6, "...", its last 4 (13 in all); shorter values are unchanged |
| FirebaseConfig.MaskIdempotent | src/config/firebase-config.ts:31-33 | masking a masked value changes nothing |
| FirebaseConfig.MaskShowsOnlyEnds | src/config/firebase-config.ts:31-33 | two long values mask alike iff their first 6 and last 4 characters agree |
| FirebaseConfig.AllNonBlank | src/config/firebase-config.ts:91-96 | the field loop succeeds iff no field is empty or white space only |
| FirebaseConfig.MatchesProjectIdPattern | src/config/firebase-config.ts:99-102 | the project id matches iff it is non-empty and made of a-z, 0-9 and "-" |
| FirebaseConfig.Validate | src/config/firebase-config.ts:82-110 | validation succeeds iff every field is non-blank and the project id matches the pattern |
| FirebaseConfig.LoadedButInvalid | src/config/firebase-config.ts:99-102 | a loadable configuration with an upper-case project id still fails validation |

## Left out

- Firestore calls (`addDoc`, `updateDoc`, `deleteDoc`, `onSnapshot`, `serverTimestamp`, `Timestamp`) are replaced by operations on a map, with the server time and the outcome as parameters. Promises and `async` scheduling are not modelled, and a remote call is a single step.
- Firestore's own rules are not modelled. These include rejecting fields whose value is `undefined` and leaving out of an ordered query the documents that lack the order field. An absent description is modelled as an absent field.
- Raw stored values outside the declared types are not modelled, for example a `status` string that is none of the three stages. An empty stored `status` is treated like a missing one, since both are falsy.
- `createSampleData` and `clearAllTodos` are development helpers built from `addTodo` and `deleteDoc`. They are not modelled.
- Unsubscribing and the subscription's error callback only log and tear down the channel, so they are not modelled.
- The dnd-kit pointer sensor, its 8-pixel activation distance, CSS transforms and the drag overlay are not modelled. The controller takes abstract start and drop events.
- KanbanBoard.Run: the board's task list is fixed for the whole event stream. A snapshot arriving mid-drag is not modelled.
- `App.handleDeleteTodo` follows the same confirm-then-delete rule as `TodoItem.HandleDelete`, without the busy flag. It is not modelled separately.
- `window.confirm`, console output, React rendering and memoisation are left out. Confirmation is a boolean input.
- Date parsing and formatting are left out. Times are integer milliseconds.
- TodoForm.Submit: the form's busy flag during the awaited call is not modelled. Only the state before and after the submission is.
- Text.ToUpper: upper-cases ASCII letters only. This is enough for the fixed configuration keys it is applied to.
- FirebaseConfig.Mask: counts characters, where JavaScript's `length` and `substring` count UTF-16 code units. For a value with an astral character the cut points can differ, and JavaScript may split a surrogate pair.
- Ordering.Sort: does not state the order of tasks with equal keys. `Array.prototype.sort` is stable, so the source keeps them in the snapshot's order, but the model's insertion sort is not proved stable.
- UseTodos.View: states sortedness and the filtered multiset. It does not state any order among tasks with equal sort keys.

## Findings

| source | as written | input that shows it | evidently intended | confidence | as-written member | corrected member |
|---|---|---|---|---|---|---|
| src/config/firebase-config.ts:43 | a missing value is reported as `REACT_APP_FIREBASE_` plus the key upper-cased | `REACT_APP_FIREBASE_API_KEY` unset: the error names `REACT_APP_FIREBASE_APIKEY` | name the variable actually read at lines 20-25, `REACT_APP_FIREBASE_API_KEY` | high for the mismatch; not executed | FirebaseConfig.MissingApiKeyReportedWrongly | FirebaseConfig.LoadCorrected |
| src/App.tsx:32-39 | `handleAddTodo` logs a failed add and resolves, so `TodoForm` resets its fields as after a success | a valid add form submitted while the store refuses the write: the modal stays open with empty fields | pass the failure on, so that the form's `catch` keeps the input | medium; not executed | App.FailedAddEmptiesOpenForm | App.RethrowingAddKeepsInput |
| src/components/todo/TodoList.tsx:96-103 | `handleAddTodo` logs a failed add and resolves, so the inline form clears its fields as after a success | a non-blank title submitted while the store refuses the write: the inline form stays shown with empty fields | pass the failure on, so that the reset is skipped and the input kept | medium; not executed | TodoList.FailedAddEmptiesShownForm | TodoList.RethrowingAddKeepsInput |
