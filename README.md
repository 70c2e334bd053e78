# Kanban board task store — a Dafny model

This project models the task store of a browser kanban board (`script.js`). The store is a JavaScript object that maps
a status (`todo`, `inprogress`, `done`, or any other key a caller creates) to an ordered list of task records. The
model covers:

- the `TaskManager` class, which adds, removes, updates and looks up records in that object;
- the four `KanbanBoardApp` handlers that change the board: submit (add or update), edit, delete and move. Each is
  also modelled with its save to local storage;
- `loadTasksFromStorage`;
- the pure helpers `filterTasks`, `escapeHtml` and `validateFormData`.

The collection is a value `Board(keys, buckets)`. `keys` keeps the order in which the object's keys were created, because `getTaskById` and
`updateTask` return the first record carrying an id, in key order, and nothing in the code makes ids unique.
`WellFormed` says the listed keys are distinct and are exactly the keys holding a list. Every operation is specified
by a function in module `Collection` (`Add`, `Remove`, `Update`/`Updated`, `Find`/`Locate`, `InitializeLists`,
`Count`). The class methods in `TaskStore` and `App` are proved to change their state exactly as those functions say,
and the lemmas state what the functions promise. `Consistent` is the invariant the board keeps when it is used only
through its handlers:

- keys are well formed;
- no id occurs twice;
- every record's `status` names the list holding it;
- every record has its four required properties filled in;
- every record's due date is empty or passes the form's date check.

It is proved for one app start and for each handler.

Behaviour of the code that the model keeps, though a reader might not expect it:

- `addTask` validates nothing and generates `id` and `createdAt` without checking uniqueness. A property of the input
  object overrides the generated `id`, `createdAt` and `status`, because of `...task` after them
  (`Tasks.NewRecord`). Uniqueness therefore holds only when the caller passes a fresh id
  (`App.SubmitAddKeepsConsistent`).
- `updateTask` applies `Object.assign`, so a patch can change `status`, `id` and `createdAt`. The preservation lemmas
  require that the patch has no such property. That holds for form data (`Forms.FromForm`).
- A move is a removal followed by an add, not one atomic step. When the record's `status` names no list, line 866
  throws after `removeTask` has already run. The record is then gone and nothing is saved (`App.MoveOutcome.Lost`).
  `App.MoveKeepsConsistent` proves that this cannot happen on a `Consistent` board.
- Lists are not limited to the three statuses: `addTask` creates any missing list.
- `if (this.editingTaskId)` treats the id `0` as "not editing" (`App.Editing`).
- Nothing resets `editingTaskId` when the modal is merely closed (script.js:252, 386). The next "add" submit
  therefore updates the record that was last opened for editing. `HandleTaskSubmit` follows `editingTaskId`, whatever
  the modal showed, and `App.EditThenSubmitUpdates` puts the two handlers together: it opens a record, then submits
  new data, and the edited record is overwritten instead of a task being added.

`this.tasks` in `KanbanBoardApp` is the same object the `TaskManager` holds. The app therefore reads and writes the
manager's fields, and line 866 writes the manager's list directly.

## Model

| member | source | states |
|---|---|---|
| Tasks.NewRecord | script.js:67-72 | the generated id, createdAt and status are used unless the input object carries that property, which then wins |
| Tasks.NewRecordFromSpread | script.js:869-872 | `{...task, status}` rebuilt by addTask is the original record with only its status changed, whatever id and time are generated |
| Tasks.MergeIdempotent | script.js:100 | applying the same `Object.assign` patch twice equals applying it once |
| Tasks.MergeExtremes | script.js:100 | an empty patch changes nothing; a patch spreading a whole record replaces every field |
| Seqs.Filter | script.js:86 | `filter` keeps exactly the elements passing the predicate and never lengthens the list |
| Seqs.FilterIsSubsequence | script.js:86 | `filter` keeps the surviving elements in their original order |
| Seqs.FilterIdempotent | script.js:866 | filtering a list a second time with the same predicate changes nothing (the second filter at line 866) |
| Collection.IndexOf | script.js:98 | `find` returns the first position carrying the id, or none when no element carries it |
| Collection.LocateIn | script.js:97-99 | the key-order scan returns a position that carries the id, and finds none exactly when no list holds the id |
| Collection.LocateInFirst | script.js:97-99 | the position found is the first match in key order: the first index carrying the id in its list, and no earlier list holds the id |
| Collection.Find | script.js:111-122 | a record is returned exactly when some list holds the id, and it carries that id and sits in a list |
| Collection.EnsureListFacts | script.js:56 | creating a missing list keeps the object well formed, appends the key at the end, and leaves every existing list alone |
| Collection.InitializeListsFacts | script.js:55-59 | after initialisation the three default lists exist, existing lists are untouched and the count is unchanged |
| Collection.InitializeListsKeys | script.js:55-59 | initialisation only appends keys, and only the three default ones |
| Collection.InitializeListsIds | script.js:55-59 | initialisation changes the number of records carrying any id by nothing |
| Collection.AddFacts | script.js:61-81 | addTask creates the list if missing (key appended), appends the record at its end, changes no other list and raises the count by one |
| Collection.AddIdCount | script.js:74 | the push adds one occurrence of the new record's id and none of any other id |
| Collection.AddKeepsUnique | script.js:61-81 | adding a record whose id is not present keeps ids unique |
| Collection.AddKeepsStatuses | script.js:63-74 | adding a record whose status is the list it goes to keeps every status equal to its list |
| Collection.AddKeepsEverywhere | script.js:74 | a property of every record survives an add of a record that has it |
| Collection.RemoveFacts | script.js:83-93 | after removeTask no list holds the id, each list is an in-order subsequence of the old one, and exactly the records with other ids remain |
| Collection.RemoveAbsent | script.js:83-93 | removing an id nobody carries leaves the collection unchanged |
| Collection.RemoveCount | script.js:83-93 | the count drops by exactly the number of records carrying the id |
| Collection.RemoveIdCount | script.js:86 | the removed id is gone and every other id keeps its number of occurrences |
| Collection.RemoveKeepsUnique | script.js:83-93 | removal keeps ids unique |
| Collection.RemoveKeepsEverywhere | script.js:83-93 | removal keeps every per-record property, including status matching its list |
| Collection.UpdateFacts | script.js:95-109 | updateTask merges the patch into the first record carrying the id, changes no other record, keeps keys and count; an unknown id changes nothing |
| Collection.UpdateThenFind | script.js:95-109 | unless the patch changes the id, a later lookup finds the same place and the record updateTask returned |
| Collection.UpdateIdempotent | script.js:95-109 | repeating the same update (one that keeps the id) changes nothing more |
| Collection.UpdateKeepsUnique | script.js:95-109 | an update with no `id` property keeps ids unique |
| Collection.UpdateKeepsEverywhere | script.js:100 | an update keeps any per-record property that merging with the patch keeps |
| Collection.UpdateKeepsStatuses | script.js:100 | an update with no `status` property keeps every status equal to its list |
| Collection.BucketWithinCount | script.js:124-134 | no list returned by getTasksByStatus is longer than getTasksCount |
| Collection.CountZeroIffEmpty | script.js:132-134 | getTasksCount is zero exactly when every list is empty |
| Collection.IdCountPositive | script.js:111-122 | an id is counted at least once exactly when some list holds it |
| TaskStore.TaskManager.constructor | script.js:50-53 | the manager adopts the given object and then holds its initialised form |
| TaskStore.TaskManager.InitializeTaskLists | script.js:55-59 | the new state is the initialised collection and stays well formed |
| TaskStore.TaskManager.AddTask | script.js:61-81 | returns the built record and the new state is the old one with that record appended to the status list |
| TaskStore.TaskManager.RemoveTask | script.js:83-93 | the loop over the keys leaves every list filtered of the id and returns true |
| TaskStore.TaskManager.LocateTask | script.js:113-115 | the loop over the lists returns the first place, in key order, holding the id |
| TaskStore.TaskManager.GetTaskById | script.js:111-122 | returns the first record carrying the id, or null |
| TaskStore.TaskManager.UpdateTask | script.js:95-109 | returns the merged record or null, and the new state is the collection with that one record merged |
| TaskStore.TaskManager.GetTasksByStatus | script.js:124-126 | the list under the status, or an empty list when there is none, never longer than the count |
| TaskStore.TaskManager.GetTasksCount | script.js:132-134 | bounds every list's length, and is zero exactly when every list is empty |
| Filters.ToLower | script.js:316 | lowercasing keeps the length and maps each character |
| Filters.Includes | script.js:316 | `includes` holds exactly when the term occurs at some position |
| Filters.FilterTasksSound | script.js:308-332 | the result has the same keys, each list is an in-order subsequence, and a task survives exactly when it passes search, label and priority |
| Filters.DefaultFiltersKeepAll | script.js:315-325 | with an empty search and `'all'` label and priority, nothing is filtered out |
| Filters.NoMatchEmptiesLists | script.js:315-317 | a search matching no task leaves every list present and empty |
| Filters.FilterTasksIdempotent | script.js:308-332 | filtering an already filtered collection with the same filters changes nothing |
| Html.EscapeHtmlIsPerCharacter | script.js:493-500 | the five global replacements equal escaping each character on its own |
| Html.EscapeHtmlConcat | script.js:493-500 | escaping distributes over concatenation |
| Html.EscapeHtmlHasNoSpecials | script.js:493-500 | the output contains no `<`, `>`, `"` or `'` |
| Html.EscapeHtmlAmpersandsStartEntities | script.js:493-500 | every `&` in the output begins one of the five entities |
| Html.UnescapeEscapeHtml | script.js:493-500 | decoding the five entities recovers the original string, so escaping loses nothing |
| Forms.AllPresent | script.js:537-542 | the required-field loop passes exactly when every listed field is truthy |
| Forms.ValidateFormData | script.js:533-554 | valid exactly when title, description, priority and label are non-empty and a non-empty due date is a valid date |
| Forms.ValidatedMakesComplete | script.js:533-554 | a record built from or merged with validated data has its four required properties filled in, and its due date is empty or valid (for a merge, when the record's own date was) |
| Forms.MissingFieldRejected | script.js:537-542 | data lacking any required field is rejected whatever the due date |
| App.LoadTasksFromStorage | script.js:783-789 | the stored collection when there is one, else three empty lists in the order todo, inprogress, done |
| App.MoveSteps | script.js:858-892 | an unknown id or unchanged status is no move; a status naming no list after removal is the line-866 throw; otherwise the record, rebuilt by addTask from its spread, is appended to the new list |
| App.MoveFacts | script.js:863-872 | a move leaves the id once, with the new status, at the end of the new list, the other lists filtered of it, and the count adjusted by the removed duplicates |
| App.MoveIdempotent | script.js:864 | moving the same record to the same status again is a no-op |
| App.MoveKeepsUniqueAndCount | script.js:863-872 | with unique ids a move keeps them unique and keeps the count |
| App.MoveKeepsStatuses | script.js:864-872 | when every status names its list, the line-866 throw cannot happen and a move keeps statuses matching |
| App.MoveKeepsEverywhere | script.js:864-872 | a property that a status change preserves survives a move |
| App.InitializeListsKeepsConsistent | script.js:55-59 | initialising the default lists keeps the board consistent |
| App.DefaultListsConsistent | script.js:784-788 | the default three empty lists are consistent |
| App.StartKeepsConsistent | script.js:772-773 | starting from a consistent stored board, or from nothing, yields a consistent board |
| App.SubmitAddKeepsConsistent | script.js:819 | adding validated form data under a fresh id keeps the board consistent |
| App.SubmitUpdateKeepsConsistent | script.js:815 | updating a record with validated form data keeps the board consistent |
| App.DeleteKeepsConsistent | script.js:842-849 | deleting keeps the board consistent |
| App.MoveKeepsConsistent | script.js:858-892 | on a consistent board a move never loses the record and keeps the board consistent |
| App.CreateMoveDeleteScenario | script.js:808-892 | on a fresh board: add a task (one record, in todo), move it to done (todo empty, done holds it with status done), delete it (count 0) |
| App.KanbanBoardApp.constructor | script.js:765-781 | the tasks are the initialised loaded collection, nothing is being edited and nothing has been saved |
| App.KanbanBoardApp.Save | script.js:20-29 | storage holds a snapshot of the current tasks and one more save is counted |
| App.KanbanBoardApp.HandleTaskSubmit | script.js:808-830 | no data changes nothing; while editing, updates that id and stops editing; otherwise adds to todo; saves exactly when a record came back |
| App.KanbanBoardApp.HandleTaskEdit | script.js:832-840 | starts editing an id exactly when a record carries it, changing no task and saving nothing |
| App.KanbanBoardApp.HandleTaskDelete | script.js:842-849 | when confirmed, removes the id everywhere and saves; otherwise changes nothing |
| App.EditThenSubmitUpdates | script.js:808-840 | after an edit whose modal was closed without a submit, the next submitted data updates the edited record and stops editing instead of adding a task |
| App.KanbanBoardApp.HandleTaskMove | script.js:858-892 | no move changes and saves nothing; a lost record is removed with no save; a move leaves the moved board and saves it |

## Left out

- `LocalStorageManager` (script.js:1-46): JSON serialisation, `localStorage` access, parse and save failures, `clear` and `isEmpty`. A save is a snapshot of the board plus a counter, and a load is an `Option<Board>` parameter.
- DOM rendering, `UIManager` apart from `filterTasks` and `escapeHtml`, `showModal`/`hideModal`, and `handleFilterChange` (script.js:851-856): these only render.
- `DragDropManager` and the event wiring (`initEventListeners`, `initializeFilterHandlers`): these are event plumbing. The handlers are called directly with the event's detail.
- `FormManager.setFormData`/`resetForm`, and the reading of form fields through `FormData`: `GetFormData` takes the read values as a `Patch`.
- Key order: JavaScript lists keys that look like array indices (such as `"7"`) first, in ascending order, before all other keys. The model keeps every key in creation order. With such a status, and an id held twice, `getTaskById` and `updateTask` could pick a different record than the model does. The app never creates such keys, because its statuses come from the lists' `data-list` attributes.
- A `null` form value is an absent property, and a property absent from `addTask`'s input becomes the empty string rather than `undefined`.
- Filters.ToLower: lowercases ASCII letters only, not full Unicode case mapping.
- The filter state is modelled as given (`FilterSet`). Lowercasing the search term is left out: the search input's listener does it (script.js:286), `filterTasks` does not.
- `Date.now()`, `new Date().toISOString()` and `confirm()`: the first two are parameters (`id`/`now`, `createdAt`/`nowIso`), and `confirm()` is a boolean parameter.
- The date check `isNaN(new Date(d).getTime())`: it is a function parameter `isValidDate`.
- `console` logging, and every `try`/`catch` whose `catch` can only be reached by a host exception. The one thrown by script.js:866 is modelled.
- Records are values. The aliasing of one record object between lists, and prototype keys such as `__proto__`, are not modelled; the one shared object, `this.tasks`, is modelled as the manager's fields.
- Collection.UpdateKeepsUnique, Collection.UpdateKeepsStatuses: these hold only for patches without `id` or `status` properties. An arbitrary `Object.assign` patch can break both.
