# todolist-app: a Dafny model of the todo core

The todolist-app is a Nuxt/Vue front end over a PocketBase backend. This
project models its core in Dafny:

- **The todo store.** The Pinia store holds `todos`, `isLoading` and
  `error`. It has three getters: the completed count, the active count and
  the progress percentage. Its actions are load, add, toggle, update, delete
  and reorder, and a realtime callback merges push events from the backend.
- **The two API layers beneath the store:**
  - `useTodosApi` builds the request payloads and rethrows failures;
  - `RecordService` turns a failure into `null` or `false`, and maps filter
    and sort names to PocketBase query strings.
- **The smaller composables:**
  - the drag-and-drop state machine;
  - the notification list, with its id counter and default timeouts;
  - the celebration settings and the confetti emoji choice.
- **The utilities:** the validators for todo text, passwords and e-mail
  addresses, and the due-date labels.

The backend and the user stay outside the model. Each answer the backend
could give (a record, a list, success, failure) is a parameter of type
`Outcome<T>`, either `Success(value)` or `Failure`. Each store action or
realtime event is one atomic step.

State that the source changes in place is a Dafny `class`:

- `Store.TodosStore`;
- `DragAndDrop.DragState`;
- `Notifications.NotificationCenter`;
- `Celebrations.Celebration`.

The methods of these classes are tied to pure functions on sequences, and
the properties that matter are lemmas about those functions:

- `ListMove`: the splice that moves one element;
- `TodoList`: counting, finding, replacing and filtering by id, and merging
  realtime events.

Modules, one per source file, plus the shared ones:

| file | module | source |
|---|---|---|
| wrappers.dfy | Wrappers | `Option` and `Outcome` |
| types.dfy | Types | types/types.ts |
| list_move.dfy | ListMove | the copy-and-splice move used by reorder and drop |
| todo_list.dfy | TodoList | the pure list logic of composables/state/useTodosStore.ts |
| todos_store.dfy | Store | composables/state/useTodosStore.ts |
| todos_api.dfy | TodosApi | composables/api/useTodosApi.ts |
| record_service.dfy | Records | composables/api/useRecordService.ts |
| drag_and_drop.dfy | DragAndDrop | composables/effects/useDragAndDrop.ts |
| notifications.dfy | Notifications | composables/useNotification.ts |
| celebration.dfy | Celebrations | composables/effects/useCelebration.ts |
| validation.dfy | Validation | utils/validation.ts |
| due_date.dfy | DueDate | the labelling branch of `formatDueDate` in utils/date.ts |

JavaScript semantics that matter are written out:

- **String length.** `String.length` counts UTF-16 code units, so a
  character outside the Basic Multilingual Plane counts twice
  (`Validation.JsLength`).
- **Whitespace.** `trim()` and the regex class `\s` use the ECMAScript
  whitespace and line-terminator set (`Validation.IsJsWhitespace`).
- **Remainder.** `%` keeps the sign of the dividend
  (`Celebrations.JsRemainder`).
- **Rounding.** `Math.round(c / n * 100)` is computed in exact integers as
  `(200c + n) / (2n)`.

## Model

| member | source | states |
|---|---|---|
| TodoList.CompletedCount | composables/state/useTodosStore.ts:17 | the completed count is at most the list length, and is 0 exactly when no todo is completed |
| TodoList.ActiveCount | composables/state/useTodosStore.ts:18 | the active count is at most the list length, and is 0 exactly when every todo is completed |
| TodoList.CountsPartition | composables/state/useTodosStore.ts:17-18 | completed count plus active count is the number of todos |
| TodoList.ProgressPercentage | composables/state/useTodosStore.ts:19-22 | the percentage is within 0..100, and is 0 for an empty list |
| TodoList.RoundedPercent | composables/state/useTodosStore.ts:21 | `(200c+n)/(2n)` is the integer nearest to 100c/n, with halves rounded up, and lies in 0..100 |
| TodoList.ProgressAllCompleted | composables/state/useTodosStore.ts:19-22 | a non-empty list with nothing active is at 100 |
| TodoList.WholeIsHundred | composables/state/useTodosStore.ts:21 | n completed out of n rounds to exactly 100 |
| TodoList.ProgressNoneCompleted | composables/state/useTodosStore.ts:19-22 | a list with nothing completed is at 0 |
| TodoList.FindIndex | composables/state/useTodosStore.ts:70 | `findIndex`: none exactly when no entry has the id; otherwise the first index whose entry has it |
| TodoList.ReplaceFirst | composables/state/useTodosStore.ts:70-73 | the record is written at the index `findIndex` found, every other position keeps its entry, and the length is unchanged; with no match the list is unchanged |
| TodoList.ReplaceFirstKeepsIds | composables/state/useTodosStore.ts:70-73 | writing a record with the same id at the found index keeps every position's id, and so keeps ids unique |
| TodoList.Merge | composables/state/useTodosStore.ts:100 | `{...local, ...server}`: every field comes from the server record (id, text, completed, completedAt, priority, user, order and the system fields), except that an optional field the server omits (dueDate, tags, sharedWith, expand) keeps the local value |
| TodoList.MergeAt | composables/state/useTodosStore.ts:98-101 | the entry at the index `findIndex` found becomes the shallow merge of itself with the server record, every other position keeps its entry, and the length is unchanged |
| TodoList.MergeProperties | composables/state/useTodosStore.ts:100 | a server record with every optional field present replaces the entry outright, and merging the same record twice changes nothing more |
| TodoList.WithoutId | composables/state/useTodosStore.ts:116 | the filter drops the id entirely, adds nothing, and keeps every entry with another id |
| TodoList.WithoutIdConcat | composables/state/useTodosStore.ts:116 | filtering distributes over concatenation, so the order of the kept entries is preserved |
| TodoList.WithoutIdAbsent | composables/state/useTodosStore.ts:116 | filtering an id that is not present returns the list unchanged |
| TodoList.WithoutIdIdempotent | composables/state/useTodosStore.ts:116 | filtering the same id twice equals filtering it once |
| TodoList.WithoutIdKeepsUnique | composables/state/useTodosStore.ts:116 | filtering keeps ids unique |
| TodoList.ApplyRealtime | composables/state/useTodosStore.ts:166-179 | an action other than create, update or delete leaves the list unchanged; no event brings in any record but the event's own; only a delete can shorten the list, and no event grows it by more than one |
| TodoList.RealtimeCreate | composables/state/useTodosStore.ts:167-171 | a create event prepends the record only when its id is absent, and otherwise leaves the list as it was; afterwards the id is present, and unique ids stay unique |
| TodoList.RealtimeUpdate | composables/state/useTodosStore.ts:172-176 | an update event keeps the length, replaces only the first entry with the id, inserts nothing when the id is absent, and keeps ids unique |
| TodoList.RealtimeDelete | composables/state/useTodosStore.ts:177-178 | a delete event removes every entry with the id, and a repeated delete changes nothing |
| TodoList.RealtimeKeepsUnique | composables/state/useTodosStore.ts:167-179 | no realtime event, whatever its action string, introduces a duplicate id |
| TodoList.MoveKeepsUnique | composables/state/useTodosStore.ts:139-141 | moving one todo keeps ids unique |
| TodoList.OrderUpdates | composables/state/useTodosStore.ts:144-147 | one update per todo, pairing the todo's id at position i with order i |
| ListMove.RemoveAt | composables/state/useTodosStore.ts:140 | `splice(i, 1)` keeps the elements before i and shifts those after it down by one |
| ListMove.Move | composables/state/useTodosStore.ts:139-141 | the copy-and-splice keeps the length and puts the element taken from `from` at `to` (the same splice pair as composables/effects/useDragAndDrop.ts:28-30) |
| ListMove.MoveAt | composables/state/useTodosStore.ts:139-141 | every position of the moved list holds the element of the original list that the splice pair puts there |
| ListMove.MovePermutes | composables/state/useTodosStore.ts:139-141 | the moved list is a permutation of the original |
| ListMove.MoveKeepsRelativeOrder | composables/state/useTodosStore.ts:139-141 | the moved element lands at the target, and removing it gives back the original list without it |
| ListMove.MoveToSelf | composables/effects/useDragAndDrop.ts:28-30 | dropping an item on its own index leaves the list unchanged |
| ListMove.MoveExample | composables/state/useTodosStore.ts:139-141 | `[A,B,C,D]` moved from 0 to 2 gives `[B,C,A,D]` |
| Store.AddPayload | composables/state/useTodosStore.ts:43-50 | the new todo is uncompleted, with text defaulting to "", medium priority and no tags unless given, the due date as given, and the list length as its order |
| Store.CompletionSignals | composables/state/useTodosStore.ts:76-83 | nothing unless the record is completed; otherwise task-completed, followed by all-completed exactly when the non-empty list has no active todo |
| Store.LastToggleCelebratesAll | composables/state/useTodosStore.ts:70-83 | completing the last active todo triggers task-completed and then all-completed |
| Store.RealtimeCreateThenAddDuplicates | composables/state/useTodosStore.ts:167-171 | when a realtime create of a record arrives before `addTodo` prepends it (line 53), the record is listed twice |
| Store.AddKeepsUnique | composables/state/useTodosStore.ts:53 | prepending a record whose id is new keeps ids unique |
| Store.ReorderIsPermutation | composables/state/useTodosStore.ts:139-147 | a valid reorder is a permutation that puts the moved todo at the target, keeps the relative order of the others and keeps ids unique; the updates pair each id with its new index |
| Store.TodosStore.constructor | composables/state/useTodosStore.ts:8-10 | an empty list, not loading, and no error |
| Store.TodosStore.LoadTodos | composables/state/useTodosStore.ts:25-38 | fetches with the default sort; success replaces the list and leaves no error; failure keeps the list and records "Failed to load todos"; loading is off afterwards |
| Store.TodosStore.AddTodo | composables/state/useTodosStore.ts:40-60 | sends the defaulted payload stamped with the user; success prepends the server record; failure keeps the list, records "Failed to add todo" and is returned |
| Store.TodosStore.ToggleCompletion | composables/state/useTodosStore.ts:62-91 | an unknown id makes no call and changes nothing; success replaces the first entry with the server record, leaves the others alone and reports the celebrations; failure keeps the list and records "Failed to update todo" |
| Store.TodosStore.UpdateTodo | composables/state/useTodosStore.ts:93-109 | success shallow-merges the server record into the first entry with the id; failure keeps the list and records "Failed to update todo" |
| Store.TodosStore.DeleteTodo | composables/state/useTodosStore.ts:111-123 | success drops every entry with the id and returns true; failure keeps the list and records "Failed to delete todo" |
| Store.TodosStore.ReorderTodos | composables/state/useTodosStore.ts:125-162 | equal or out-of-range indices change nothing and call nothing; otherwise the moved list is stored at once and the order updates are sent; on failure the list is reloaded once and the failure returned, so the list and error are those of the reload |
| Store.TodosStore.OnRealtimeEvent | composables/state/useTodosStore.ts:165-181 | the list becomes the realtime merge of the event, and nothing else changes |
| TodosApi.FetchRequest | composables/api/useTodosApi.ts:11-21 | filter and expand are passed through, and the sort falls back to "-created" when it is missing or empty |
| TodosApi.CreatePayload | composables/api/useTodosApi.ts:31-36 | the data is sent as given, with `user` set to the auth model id |
| TodosApi.TogglePayload | composables/api/useTodosApi.ts:76-79 | `completed` is negated; `completedAt` is the timestamp exactly when the new value is true and null otherwise; no other field is sent |
| TodosApi.ToggleStampsCompletion | composables/api/useTodosApi.ts:76-79 | applying the toggle flips `completed`, keeps the timestamp consistent with it, and changes no other field |
| TodosApi.ToggleTwice | composables/api/useTodosApi.ts:76-79 | toggling twice restores `completed`, and an uncompleted, consistent record comes back unchanged |
| TodosApi.ToggleCompletion | composables/api/useTodosApi.ts:73-84 | the update is sent only when the fetch succeeded, and the call succeeds exactly when both the fetch and the update succeed, returning the server record |
| TodosApi.DeleteTodo | composables/api/useTodosApi.ts:60-70 | success returns true, and failure is passed on |
| Records.FilterQuery | composables/api/useRecordService.ts:214-233 | a query string exactly for the four filter names, and an error otherwise |
| Records.SortQuery | composables/api/useRecordService.ts:240-257 | a query string exactly for the four sort names, and an error otherwise |
| Records.FilterQueryMap | composables/api/useRecordService.ts:217-227 | all, active, completed and today map to their query strings, and distinct filters give distinct queries |
| Records.SortQueryMap | composables/api/useRecordService.ts:243-251 | the four sort names map to "created DESC", "created ASC", "priority DESC" and "priority ASC", and are distinct |
| Records.RecordService.constructor | composables/api/useRecordService.ts:36-50 | the configured URL, the "todos" collection and a page size of 100 |
| Records.RecordService.FetchTodos | composables/api/useRecordService.ts:58-74 | requests page 1 of 100 records with the mapped filter and sort (defaults all and date-desc); an invalid name or a failed request returns null |
| Records.RecordService.FetchTodo | composables/api/useRecordService.ts:81-95 | asks the todos collection for the id with `sharedWith` expanded; the record on success, and null on failure |
| Records.RecordService.CreateTodo | composables/api/useRecordService.ts:102-114 | the created record on success, and null on failure |
| Records.RecordService.UpdateTodo | composables/api/useRecordService.ts:122-134 | the updated record on success, and null on failure |
| Records.RecordService.DeleteTodo | composables/api/useRecordService.ts:141-153 | true exactly when the remote delete succeeded |
| Records.RecordService.GetCurrentUser | composables/api/useRecordService.ts:159-183 | no lookup unless the auth is valid and there is a non-empty model id; the user only when that lookup succeeds, and null otherwise |
| Records.RecordService.GetTodoId | composables/api/useRecordService.ts:190-207 | the first fetched todo's id when the fetch succeeded with a non-empty list, and null otherwise |
| DragAndDrop.DragState.constructor | composables/effects/useDragAndDrop.ts:4-7 | the given items, with no drag in progress |
| DragAndDrop.DragState.OnDragStart | composables/effects/useDragAndDrop.ts:9-12 | records the dragged index and sets dragging; nothing else changes |
| DragAndDrop.DragState.OnDragEnd | composables/effects/useDragAndDrop.ts:14-18 | clears both indices and the dragging flag |
| DragAndDrop.DragState.OnDragOver | composables/effects/useDragAndDrop.ts:20-23 | no effect without a dragged item; otherwise records the target |
| DragAndDrop.DragState.OnDrop | composables/effects/useDragAndDrop.ts:25-40 | a no-op unless both indices are set; otherwise offers the moved list, stores it only if the callback succeeds, and resets the drag state either way |
| Notifications.EffectiveTimeout | composables/useNotification.ts:24 | the given timeout, or 8000 for errors and 5000 for everything else |
| Notifications.RemovalDelay | composables/useNotification.ts:33-37 | a removal is scheduled exactly when the effective timeout is positive, and always when no timeout is given |
| Notifications.WithoutNotification | composables/useNotification.ts:19 | removes exactly the entries with the id and adds nothing |
| Notifications.WithoutNotificationKeepsOrder | composables/useNotification.ts:18-20 | removal keeps the remaining ids increasing |
| Notifications.WithoutNotificationAbsent | composables/useNotification.ts:18-20 | removing an id that is not present changes nothing |
| Notifications.WithoutNotificationIdempotent | composables/useNotification.ts:18-20 | removing the same id twice equals removing it once |
| Notifications.IncreasingIdsUnique | composables/useNotification.ts:15-23 | increasing ids are unique |
| Notifications.NotificationCenter.constructor | composables/useNotification.ts:14-15 | an empty list and a counter at 0 |
| Notifications.NotificationCenter.AddNotification | composables/useNotification.ts:22-40 | the returned id is the counter plus one and exceeds every id listed; the notification is appended and the rest is unchanged; the removal delay is reported |
| Notifications.NotificationCenter.RemoveNotification | composables/useNotification.ts:18-20 | the list loses exactly that id, and the counter is unchanged |
| Notifications.NotificationCenter.ClearAll | composables/useNotification.ts:42-44 | the list is empty, and the counter is unchanged |
| Notifications.NotificationCenter.NotifySuccess | composables/useNotification.ts:48-49 | appends a success notification |
| Notifications.NotificationCenter.NotifyError | composables/useNotification.ts:50-51 | appends an error notification, with the 8000 ms default |
| Notifications.NotificationCenter.NotifyWarning | composables/useNotification.ts:52-53 | appends a warning notification |
| Notifications.NotificationCenter.NotifyInfo | composables/useNotification.ts:54-55 | appends an info notification |
| Celebrations.ConfettiCountFor | composables/effects/useCelebration.ts:26-38 | 50 for milestone, 75 for streak, 100 for all-completed and 30 for task-completed |
| Celebrations.JsRemainder | composables/effects/useCelebration.ts:63 | JavaScript `%`: the mathematical remainder for a non-negative dividend, and never positive for a negative one |
| Celebrations.ConfettiEmoji | composables/effects/useCelebration.ts:63 | a non-negative index picks `emojis[index mod 10]`, and a negative index that is not a multiple of 10 gives undefined |
| Celebrations.ConfettiEmojiPeriodic | composables/effects/useCelebration.ts:63 | the emoji repeats every 10 indices |
| Celebrations.Celebration.constructor | composables/effects/useCelebration.ts:9-11 | hidden, task-completed, and 20 confetti |
| Celebrations.Celebration.TriggerCelebration | composables/effects/useCelebration.ts:19-48 | the type (default task-completed) is stored, the confetti count matches it, the celebration is shown, and it hides after the duration (default 2500) |
| Validation.JsLength | utils/validation.ts:18 | a string's UTF-16 length is at least its number of code points |
| Validation.JsLengthBmp | utils/validation.ts:18 | for text inside the Basic Multilingual Plane, the UTF-16 length is the number of characters |
| Validation.Trim | utils/validation.ts:15 | `trim()` is no longer than its input, and a non-empty result starts and ends with a character that is not whitespace |
| Validation.TrimEmptyIffBlank | utils/validation.ts:15 | `trim()` is empty exactly when the text is all whitespace |
| Validation.ValidateTodo | utils/validation.ts:14-22 | valid exactly when not blank and at most 500 long, and a valid result has no message; a blank text gets the "cannot be empty" message even when it is also too long |
| Validation.TodoLengthBoundary | utils/validation.ts:15-21 | a non-blank 500-character text is valid and 501 characters are not, while 600 spaces get the empty message |
| Validation.SpacesAreEmpty | utils/validation.ts:15-17 | a run of spaces of any length gets the "cannot be empty" message |
| Validation.ValidatePassword | utils/validation.ts:6-12 | valid exactly when at least 8 long; an invalid result carries the message and a valid one has none |
| Validation.IndexOf | utils/validation.ts:2 | none exactly when the character is absent; otherwise its first position |
| Validation.ValidateEmail | utils/validation.ts:1-4 | an accepted address is at least five characters long, contains an `@`, and neither starts nor ends with one |
| Validation.ValidateEmailMatchesShape | utils/validation.ts:1-4 | accepted exactly when the address is `local@domain.tld` with non-empty parts free of whitespace and `@` |
| Validation.AcceptedHasShape | utils/validation.ts:1-4 | an accepted address has an `@` and a later dot that split it into three non-empty runs free of whitespace and `@` |
| Validation.ShapeIsAccepted | utils/validation.ts:1-4 | every address of the shape `local@domain.tld` is accepted |
| Validation.ValidEmailHasOneAt | utils/validation.ts:1-4 | an accepted address has exactly one `@` |
| DueDate.NatToString | utils/date.ts:25-26 | the decimal rendering is non-empty, made of digits only, and has no leading zero, as `${n}` writes it |
| DueDate.DigitsRoundTrip | utils/date.ts:25-26 | reading back the decimal rendering gives the number |
| DueDate.DueDateLabel | utils/date.ts:22-26 | the label is "Today", "Tomorrow" or "Yesterday" exactly for a difference of 0, 1 or -1 |
| DueDate.DueDateLabelRoundTrip | utils/date.ts:22-26 | every day difference can be read back from its label, so the labelling is total and loses nothing |
| DueDate.PastRoundTrip | utils/date.ts:25 | "n days ago" reads back as -n |
| DueDate.FutureRoundTrip | utils/date.ts:26 | "in n days" reads back as n |
| DueDate.PastLabelRoundTrip | utils/date.ts:24-25 | a difference -n below -1 is labelled "n days ago", with n in decimal, and the label reads back as -n |
| DueDate.FutureLabelRoundTrip | utils/date.ts:26 | a difference n above 1 is labelled "in n days", with n in decimal, and the label reads back as n |
| DueDate.NearRoundTrip | utils/date.ts:22-24 | Today, Tomorrow and Yesterday read back as 0, 1 and -1 |
| DueDate.DueDateLabelInjective | utils/date.ts:22-26 | distinct day differences get distinct labels |
| DueDate.DueDateLabelExamples | utils/date.ts:22-26 | the labels for 0, 1 and -1 are Today, Tomorrow and Yesterday; 3 gives "in 3 days" and -12 gives "12 days ago" |
| DueDate.FutureLabelExample | utils/date.ts:26 | a difference of 3 is labelled "in 3 days" |
| DueDate.PastLabelExample | utils/date.ts:25 | a difference of -12 is labelled "12 days ago" |

## Left out

- **Timers.** `setTimeout` is not modelled. `Celebrations.Celebration.TriggerCelebration` returns the delay after which the celebration hides, and `Notifications.NotificationCenter.AddNotification` returns the delay after which the notification is removed, or none. The later callbacks are the ordinary `RemoveNotification` and a reset of the flag.
- **Side effects outside the state.** Sound playback, toasts and console logging are left out: they change no state of the model.
- **Confetti geometry.** The `Math.random` rotation, delay, duration and positions of `getConfettiStyles` are left out, because they are random. Only the emoji choice is modelled.
- **The clock.**
  - The Date arithmetic that computes `diffDays` in `formatDueDate` is left out; the model takes the integer difference as input.
  - The current date used by the `today` filter is a parameter.
  - The timestamp written by the toggle is a parameter.
  - `formatDate`, `formatRelativeTime`, `isOverdue` and `validateDueDate` depend on date-fns formatting or on the wall clock, and are not part of this model.
- **Other files.** Authentication, cookies, navigation, audio helpers, scroll helpers and build configuration are not part of this model: composables/api/usePocketBase.ts, plugins/pocketbase.client.ts, middleware/auth.global.ts, composables/state/useAuthStore.ts, composables/effects/useSoundEffects.ts, composables/useScroll.ts, nuxt.config.ts and tailwind.config.js.
- **Realtime subscription.** `subscribeToRealtime` and `subscribeToTodos` register the callback and return an unsubscribe handle; only the callback is modelled (`OnRealtimeEvent`).
- **Concurrency.** The interleaving of in-flight actions with realtime events is not modelled: each action is one atomic step. The one race that matters is stated as a lemma: `Store.RealtimeCreateThenAddDuplicates` shows a realtime create arriving before `addTodo` prepends the same record.
- **Rethrown errors.** A thrown error is a `Failure` result; what the caller does with it is outside the store.
- **Pass-through API calls.** `fetchTodos`, `createTodo`, `updateTodo` and `reorderTodos` of `useTodosApi` return the backend's answer unchanged or rethrow it. The store methods take that answer directly; only the request each sends is modelled (`FetchRequest`, `CreatePayload`, `TogglePayload`).
- Store.TodosStore.UpdateTodo: the patch sent to the backend is not interpreted. The result is whatever record the backend returns, so the model does not relate the stored record to `updates`.
- TodoList.ProgressPercentage: the float division and `Math.round` are computed in exact integers, which round an exact .5 up. Double-precision arithmetic can land just below such a boundary instead: 23 of 40 gives `23 / 40 * 100 = 57.49999999999999`, which `Math.round` takes to 57 where the model gives 58, and 29 of 200 gives 14 against 15. There are 16 such pairs with at most 400 todos; every other pair agrees.
- DragAndDrop.DragState.OnDragStart: requires an index inside `items`, and so does `OnDragOver`. JavaScript `splice` with an out-of-range or negative index (it clamps, or counts from the end) is not modelled. `items` is replaced only by `OnDrop`, not from outside.
- Celebrations.ConfettiEmoji: a negative index that is a multiple of 10 gives `emojis[-0]`, that is `emojis[0]`; the contract says nothing about that case.
- **Todo shape.** The `expand` object is reduced to its `sharedWith` list of users. The system fields `collectionId`, `collectionName`, `created` and `updated` are opaque strings.
- **Where the code does not do what its comments suggest:**
  - composables/state/useTodosStore.ts:143 says "Update the order property for affected items", but line 150 stores `newOrder` with the records' own `order` fields unchanged. Only the update list of lines 144-147 carries the new indices (`Store.TodosStore.ReorderTodos`).
  - composables/state/useTodosStore.ts:158 says "Revert to original order on error by reloading", but the reload at line 159 runs `loadTodos`, which clears `error` at line 27 before fetching. The "Failed to reorder todos" message of line 155 therefore never survives: the error ends up as none, or as "Failed to load todos" when the reload also fails, in which case the moved list stays.
  - composables/state/useTodosStore.ts:53 prepends the created record without the duplicate check that the realtime handler makes at lines 168-169 (`Store.RealtimeCreateThenAddDuplicates`).
  - composables/api/useTodosApi.ts:87-89 is commented "Reorder todos", but it passes the update list to `update` in the place where line 49 passes the record id, and sends no body. The model keeps that call's result abstract as success or failure (`Store.TodosStore.ReorderTodos` covers both).
  - composables/api/useRecordService.ts:228-231 and 252-255 throw on an unknown filter or sort name, but the throw happens inside the try block of `fetchTodos` and is caught at lines 70-73, so the call returns null and makes no request (`Records.RecordService.FetchTodos`).
