# Task list store, sorted list view and optimistic task form

A Dafny model of the sequential core of a small React/Redux task UI:

- **The task slice** (`TasksSlice`, `tasks_slice.dfy`). A `TaskStore` class holds
  the slice state: the ordered task list, `loading`, `error` and the unused filter
  `status`. Its methods are the reducers `addTask`, `removeTask` and `updateTask`,
  plus the `fetchTasks` pending, fulfilled and rejected cases. Each changes the
  fields in place. `UpdateTask` runs the `findIndex` loop and an indexed write,
  and is proved equal to the pure function `Updated`. `RemoveTask` assigns
  `Without` directly, so its meaning comes from the lemmas about `Without`:
  `WithoutMembers`, `WithoutKeepsOrder` and `WithoutConcat`.
  `FindIndex` is the `findIndex` loop. Its contract proves it returns `FirstIndex`. The
  normalisation of fetched records is `MapFetched`. The settled thunk is
  `FetchTasks`.
- **The list view** (`TasksList`, `tasks_list.dfy`):
  - `TasksListView` holds the `sortConfig` state cell. Its `RequestSort` is the
    header's toggle.
  - `Sort` is the stable sort that `Array.prototype.sort` performs with the title
    comparator `Compare`. `SortedTasks` is the projection. `Render` picks between
    the loading notice, the error message and the list.
  - JavaScript's `<` on strings is `StringLess`. It is proved to be a strict total
    order.
- **The task form** (`TaskForm`, `task_form.dfy`):
  - The validation schema is `Valid`, `ValidationErrors` and the per-field rules.
    The form's default values are `DefaultValues`. The task that is sent is
    `BuildTaskData`. The request target is `RequestFor`.
  - `TaskFormState.HandleFormSubmit` is the `handleFormSubmit` handler. It
    dispatches the task optimistically, sends it, then rolls back and reports
    errors, or calls the success callbacks. `TaskFormState.HandleSubmit` is the
    validation gate in front of it.
  - The network outcome is an input. The fresh id (`uuidv4().split('-')[0]`) and
    today's date are parameters.
- **The record shapes** (`Interfaces`, `interfaces.dfy`): `Task` (`iTask`) and
  `TasksState` (`iTasksState`).

The form imports `editTask`, but the slice exports only `updateTask`. The model
treats `editTask` as `updateTask`.

Three facts about the code that a reader might not expect:

- The list sorts by `title` only. No other key is offered.
- The store's `status` is stored but never read, so nothing filters the list.
- The form's select offers the status "In Progress", but `iTask` admits only
  "To Do", "In process" and "Completed". `FormInProgressIsNotTaskStatus` records
  that they differ.

## Model

| member | source | states |
|---|---|---|
| `Interfaces.FormInProgressIsNotTaskStatus` | src/interfaces/index.ts:5 | The form's "In Progress" option is not one of the task type's three status literals. |
| `TasksSlice.TaskStore.constructor` | src/store/slices/tasks.ts:7-12 | The initial state has no tasks, is not loading, has a `null` error and status `'All'`. |
| `TasksSlice.InitialStateSound` | src/store/slices/tasks.ts:7-12 | The initial state's status `'All'` is one of the store's status literals. Its task list trivially has unique ids, it is not loading and its error is not truthy (with the render gate, this means the list view shows the empty list; the lemma does not mention the view). |
| `TasksSlice.TaskStore.AddTask` | src/store/slices/tasks.ts:18-20 | The payload is appended as the last task. The earlier tasks and the flags are unchanged. |
| `TasksSlice.TaskStore.RemoveTask` | src/store/slices/tasks.ts:21-23 | The new task list is `Without(old tasks, id)`. Nothing is claimed about the other fields. |
| `TasksSlice.TaskStore.UpdateTask` | src/store/slices/tasks.ts:24-29 | `findIndex` followed by an indexed write gives exactly `Updated(old tasks, t)`. The flags are unchanged. |
| `TasksSlice.TaskStore.FetchPending` | src/store/slices/tasks.ts:33-36 | Sets `loading` and clears `error` to null. Tasks and status are unchanged. |
| `TasksSlice.TaskStore.FetchFulfilled` | src/store/slices/tasks.ts:37-40 | Clears `loading` and replaces the tasks with the payload. `error` is untouched. |
| `TasksSlice.TaskStore.FetchRejected` | src/store/slices/tasks.ts:41-44 | Clears `loading` and sets `error` to the message, or to 'Something went wrong'. Tasks are unchanged. |
| `TasksSlice.TaskStore.Fetch` | src/store/slices/tasks.ts:33-44 | Pending then settled. A fulfilled fetch installs the records with a null error. A rejected one keeps the tasks and sets the error. |
| `TasksSlice.FirstIndex` | src/store/slices/tasks.ts:25 | -1 exactly when no task has the id. Otherwise the index of the first task with that id. |
| `TasksSlice.Without` | src/store/slices/tasks.ts:22 | The filtered list is no longer than the input, and no remaining task has the removed id. |
| `TasksSlice.Updated` | src/store/slices/tasks.ts:24-29 | The updated list has the same length. Each position holds either its old task or the payload. |
| `TasksSlice.Normalize` | src/store/slices/tasks.ts:55-63 | A fetched record keeps its id, title, description, status and date, and gets `completed = false`. |
| `TasksSlice.FindIndex` | src/store/slices/tasks.ts:25 | The `findIndex` loop returns -1 exactly when no task has the id. Otherwise it returns the first matching index. Either way the result equals `FirstIndex`. |
| `TasksSlice.MapFetched` | src/store/slices/tasks.ts:55-63 | Length and order are preserved. Each record keeps id, title, description, status and date, and gets `completed = false`. |
| `TasksSlice.MapFetchedIdempotent` | src/store/slices/tasks.ts:55-63 | Mapping already-mapped records changes nothing. |
| `TasksSlice.FetchTasks` | src/store/slices/tasks.ts:48-64 | A thrown error rejects with its message. A non-ok response rejects with 'Failed to fetch'. An ok response fulfils with exactly `MapFetched` of the records, so the ids stay in order. |
| `TasksSlice.RejectedError` | src/store/slices/tasks.ts:43 | The error is the message when it is non-empty. Otherwise it is 'Something went wrong'. It is always truthy. |
| `TasksSlice.WithoutMembers` | src/store/slices/tasks.ts:21-23 | After `removeTask`, a task is in the list exactly when it was there before and its id differs. The list does not grow, and the id is gone. |
| `TasksSlice.WithoutKeepsOrder` | src/store/slices/tasks.ts:22 | The surviving tasks keep their original relative order (a subsequence). |
| `TasksSlice.WithoutAbsent` | src/store/slices/tasks.ts:22 | `removeTask` with an id no task has leaves the list unchanged. |
| `TasksSlice.WithoutIdempotent` | src/store/slices/tasks.ts:22 | Removing an id twice equals removing it once. |
| `TasksSlice.WithoutConcat` | src/store/slices/tasks.ts:22 | Filtering a concatenation equals concatenating the filtered parts. |
| `TasksSlice.AddThenRemove` | src/store/slices/tasks.ts:18-23 | When the new task's id is absent, `removeTask(addTask(s, t), t.id)` gives back the original list. |
| `TasksSlice.UpdatedAt` | src/store/slices/tasks.ts:24-29 | When `i` is the first index with the payload's id, `updateTask` writes the payload at `i` and nowhere else. |
| `TasksSlice.UpdatedAbsent` | src/store/slices/tasks.ts:26 | With an absent id, `updateTask` is a no-op. |
| `TasksSlice.UpdatedShape` | src/store/slices/tasks.ts:24-29 | Length is preserved. Only the first task with the id is replaced. An absent id is a no-op and never inserts. |
| `TasksSlice.UpdatedIds` | src/store/slices/tasks.ts:24-29 | `updateTask` leaves the sequence of ids unchanged. |
| `TasksSlice.UpdatedIdempotent` | src/store/slices/tasks.ts:24-29 | Dispatching the same `updateTask` twice equals dispatching it once. The form and the edit dialog both dispatch it on success. |
| `TasksSlice.UpdateThenRestore` | src/store/slices/tasks.ts:24-29 | If `p` is the first task with `t.id` (or there is none), then `updateTask(updateTask(s, t), p) == s`. |
| `TasksSlice.UniqueIdsPreserved` | src/store/slices/tasks.ts:18-29 | Unique ids stay unique under `removeTask` and `updateTask`, and under `addTask` of a fresh id. |
| `TasksSlice.WithoutUnique` | src/store/slices/tasks.ts:22 | `removeTask` keeps ids unique. |
| `TasksList.StringLess` | src/components/TasksList.tsx:37-40 | JavaScript's `<` on two titles. A string is never below itself, and a proper prefix is below the longer string. |
| `TasksList.StringLessIrreflexive` | src/components/TasksList.tsx:37-40 | No title is `<` itself. |
| `TasksList.StringLessAsymmetric` | src/components/TasksList.tsx:37-40 | Two titles are never each `<` the other. |
| `TasksList.StringLessTotal` | src/components/TasksList.tsx:37-40 | Two different titles are ordered one way or the other. |
| `TasksList.StringLessTransitive` | src/components/TasksList.tsx:37-40 | String `<` is transitive. |
| `TasksList.Compare` | src/components/TasksList.tsx:36-44 | The comparator returns 0 exactly when the titles are equal. Below 0 means title `<` when ascending, and title `>` when descending. |
| `TasksList.CompareAntisymmetric` | src/components/TasksList.tsx:36-44 | Swapping the arguments negates the comparator. |
| `TasksList.CompareTransitive` | src/components/TasksList.tsx:36-44 | "Compares at most equal" is transitive, so the comparator is consistent. |
| `TasksList.Insert` | src/components/TasksList.tsx:36 | Inserting is a permutation of the task and the list, and keeps titles present. |
| `TasksList.Sort` | src/components/TasksList.tsx:36 | The sorted copy is a permutation of the tasks. |
| `TasksList.SortedCons` | src/components/TasksList.tsx:36-44 | A task at most equal to every task of an ordered list may head it. |
| `TasksList.InsertSorted` | src/components/TasksList.tsx:36-44 | Inserting into an ordered list gives an ordered list. |
| `TasksList.SortSorted` | src/components/TasksList.tsx:36-44 | The sort's output is ordered by the comparator. |
| `TasksList.WithTitleConcat` | src/components/TasksList.tsx:36-44 | The tasks of one title in a concatenation are those of each part, in turn. |
| `TasksList.InsertWithTitle` | src/components/TasksList.tsx:36-44 | An inserted task comes before every task of the same title already in the list. |
| `TasksList.SortStable` | src/components/TasksList.tsx:36-44 | For every title, the tasks with that title appear in the sort's output in their original order. This is what a stable sort with a 0-returning comparator gives. |
| `TasksList.SortedTail` | src/components/TasksList.tsx:36-44 | The tail of an ordered list is ordered. |
| `TasksList.WithTitleMembers` | src/components/TasksList.tsx:36-44 | A task is among the tasks of title `k` exactly when it is in the list with title `k`. |
| `TasksList.TitlesAgreeOnEmpty` | src/components/TasksList.tsx:36-44 | Lists with the same tasks per title are both empty or both non-empty. |
| `TasksList.SortedHeadsAgree` | src/components/TasksList.tsx:36-44 | Two ordered lists with the same tasks per title start with the same task. |
| `TasksList.TailTitlesAgree` | src/components/TasksList.tsx:36-44 | Removing an equal head keeps the same tasks per title. |
| `TasksList.SortedTitlesUnique` | src/components/TasksList.tsx:36-44 | Only one ordered list has a given set of tasks per title, each title's tasks in a given order. |
| `TasksList.SortCharacterized` | src/components/TasksList.tsx:36-44 | A list is the sort's output exactly when it is ordered and keeps, for every title, the input's tasks of that title in the input's order. |
| `TasksList.SortOfSorted` | src/components/TasksList.tsx:36-44 | Sorting an already ordered list changes nothing. |
| `TasksList.SortIdempotent` | src/components/TasksList.tsx:36-44 | Sorting twice equals sorting once. |
| `TasksList.SortedTasks` | src/components/TasksList.tsx:33-45 | The projection is a permutation of the store's list. With a config it keeps titles present and is ordered by that config's comparator. |
| `TasksList.SortedTasksSpec` | src/components/TasksList.tsx:33-45 | With no config, the projection is the store's list itself. Otherwise it is a permutation of the same length. Titles are non-decreasing when ascending and non-increasing when descending. Equal titles keep their order. |
| `TasksList.NextSortConfig` | src/components/TasksList.tsx:25-31 | The key is the clicked key. The direction is descending exactly when the current config has that key and is ascending. |
| `TasksList.ClicksAlternate` | src/components/TasksList.tsx:25-31 | From no config, the n-th click gives ascending for odd n and descending for even n. |
| `TasksList.TasksListView.constructor` | src/components/TasksList.tsx:16-19 | The sort config starts as null. |
| `TasksList.TasksListView.RequestSort` | src/components/TasksList.tsx:25-31 | The state cell becomes the next config computed from the old one. |
| `TasksList.Render` | src/components/TasksList.tsx:47-53 | Loading shows whenever `loading` is set. The error shows exactly when not loading and the error is truthy. Otherwise the rows are exactly `SortedTasks(tasks, config)`, in that order, which is a permutation of the tasks. |
| `TaskForm.TitleRule` | src/forms/TaskForm.tsx:21 | A title passes exactly when it is present with length 3 to 100. |
| `TaskForm.DescriptionRule` | src/forms/TaskForm.tsx:22 | A description passes exactly when it is absent or at most 500 long. |
| `TaskForm.StatusRule` | src/forms/TaskForm.tsx:23 | A status passes exactly when it is present and non-empty. |
| `TaskForm.Valid` | src/forms/TaskForm.tsx:20-24 | The schema accepts the input exactly when all three field rules pass. |
| `TaskForm.ValidationErrors` | src/forms/TaskForm.tsx:20-24 | There is one error per failing field, keyed `title`, `description` or `status`, and no other key. |
| `TaskForm.ValidationErrorsEmptyIffValid` | src/forms/TaskForm.tsx:20-24 | The schema reports no error exactly on the input `Valid` accepts. |
| `TaskForm.ShortTitleRefused` | src/forms/TaskForm.tsx:21 | The title "ab" is refused, with a minimum-length-3 error on `title`. |
| `TaskForm.DefaultValues` | src/forms/TaskForm.tsx:40-44 | The defaults are the initial task when there is one. Otherwise title '', description '' and status 'To Do'. |
| `TaskForm.AddDefaultsNeedTitle` | src/forms/TaskForm.tsx:40-44 | The empty add form's only error is the required title. |
| `TaskForm.BuildTaskData` | src/forms/TaskForm.tsx:51-55 | The form's fields are copied. In edit mode the initial id and date are kept unless falsy. Otherwise the fresh id and today's date are used. |
| `TaskForm.UnchangedEditSendsInitial` | src/forms/TaskForm.tsx:51-55 | Saving an unchanged edit form sends the edited task itself, when it has an id and a date. |
| `TaskForm.RequestFor` | src/forms/TaskForm.tsx:63-66 | Edit mode sends a PUT to `/tasks/{id}`. Otherwise a POST to `/tasks`. The two URLs never coincide. |
| `TaskForm.OptimisticTasks` | src/forms/TaskForm.tsx:57-61 | An add appends the task after the unchanged earlier tasks. An edit keeps the sequence of ids. |
| `TaskForm.RolledBackTasks` | src/forms/TaskForm.tsx:76-81 | Rolling back an edit keeps the sequence of ids. Rolling back an add leaves exactly the tasks whose id differs from the added one. |
| `TaskForm.RollbackRestoresTasks` | src/forms/TaskForm.tsx:76-81 | The rollback undoes the optimistic dispatch. For an add this needs a fresh id. For an edit the edited task must agree with the store. |
| `TaskForm.AddKeepsIdsUnique` | src/forms/TaskForm.tsx:57-61 | An optimistic add with a fresh id keeps ids unique. The new task is the only one with its id. |
| `TaskForm.CaughtMessage` | src/forms/TaskForm.tsx:100-102 | The catch block reports an `Error`'s message, or 'Failed to add task' for anything else thrown. |
| `TaskForm.SubmissionMessage` | src/forms/TaskForm.tsx:90 | The message, when it is non-empty. Otherwise 'Submission failed'. |
| `TaskForm.WithServerErrors` | src/forms/TaskForm.tsx:86-88 | Setting the server's errors keeps every field that already had an error, and gives each entry's field an error. |
| `TaskForm.ServerErrorsSet` | src/forms/TaskForm.tsx:85-88 | Each entry of `errors` becomes the error of its field. Other fields keep theirs, and no other field gains one. |
| `TaskForm.SuccessEffects` | src/forms/TaskForm.tsx:95-99 | On success the calls are `onSubmit(taskData)`, then `reset()`, then `onSuccess` if one was given. |
| `TaskForm.TaskFormState.constructor` | src/forms/TaskForm.tsx:26-29 | The form starts with no submit error, no field errors and no callbacks made. |
| `TaskForm.TaskFormState.SetServerErrors` | src/forms/TaskForm.tsx:86-88 | The `forEach` loop sets the field errors to `WithServerErrors(old, entries)`. Nothing else changes. |
| `TaskForm.TaskFormState.IsEditMode` | src/forms/TaskForm.tsx:29 | `!!initialData`: the form is in edit mode exactly when it was given a task, since an object is always truthy. |
| `TaskForm.TaskFormState.HandleFormSubmit` | src/forms/TaskForm.tsx:47-103 | The optimistic dispatch comes first, then the request for the mode. Only the store's task list changes, except that a failed add's `removeTask` makes no claim about the flags. A thrown `fetch` leaves the optimistic list and sets the caught message. A non-ok response rolls back, then reports field errors, or the message, or 'Submission failed'. Success keeps the optimistic list and runs the callbacks in order. |
| `TaskForm.TaskFormState.HandleSubmit` | src/forms/TaskForm.tsx:109 | Invalid input sends nothing, leaves the store unchanged and shows the schema's errors. Valid input clears the field errors, then sends the mode's request. A thrown `fetch` leaves the optimistic list and sets the caught message. A non-ok response leaves the rolled-back list and makes no callback. It then sets the server's field errors, or the caught message when the body cannot be read, or the message or 'Submission failed'. Success leaves the optimistic list, clears the errors and runs the callbacks in order. On every valid path except a failed add, the store's `loading`, `error` and `status` are unchanged. |
| `TaskForm.FailedSubmitRestoresTasks` | src/forms/TaskForm.tsx:76-81 | Under the rollback lemma's conditions, a submit with a non-ok response leaves the store's task list as it was. |

## Left out

- TasksSlice.TaskStore.RemoveTask: says nothing about `loading`, `error` or `status` afterwards. The reducer returns the filtered array (tasks.ts:22), and Redux Toolkit then makes that bare array the whole slice state. The `tasks` field is gone, not only the flags. Read literally, the view's `state.tasks.tasks` (TasksList.tsx:12) then becomes `undefined`. Rendering throws at `sortedTasks.map` (TasksList.tsx:78), or at `[...tasks]` (TasksList.tsx:36) when a sort is set. A later `addTask` throws at `state.tasks.push` (tasks.ts:19), and a later `updateTask` at `findIndex` (tasks.ts:25). The model keeps `tasks` as a live field holding the filtered list, so later reducers still work on it.
- TaskForm.FailedSubmitRestoresTasks: for an add, the rollback is `removeTask`. In the source this restores the pre-submit list only as a bare array that replaces the slice state, not as its `tasks` field. The model's "task list as it was" reads `tasks` as that array.
- TasksList.Sort: modelled as a function on sequences, proved to be the unique stable sort for the comparator. The engine's in-place `Array.prototype.sort` on the spread copy is library code, and the copy cannot alias the store's list.
- TasksList.Sort: the input must have all its titles present (`HasTitles`). JavaScript's `<` and `>` on an absent title are always false, so they give no order at all.
- TasksList.Compare: requires both titles present, for the same reason.
- TasksList.Insert: requires the inserted task and the list to have titles present, for the same reason.
- TasksList.SortedTasks: requires present titles when a sort is chosen, for the same reason.
- TasksList.Render: requires present titles when a sort is chosen, for the same reason.
- TasksList.StringLess: compares characters by Unicode code point. JavaScript compares UTF-16 code units, so the two can differ on characters outside the Basic Multilingual Plane.
- TaskForm.TitleRule: counts characters. The schema counts UTF-16 code units, so lengths can differ for such characters.
- TaskForm.DescriptionRule: counts characters for `max(500)`. The schema counts UTF-16 code units, with the same gap as the title rule.
- TaskForm.ValidationErrors: the model keeps only the rule each field breaks, not the library's message text.
- TaskForm.TaskFormState.HandleSubmit: assumes the form hands the handler the schema's output unchanged. The library's casting of values is not modelled.
- The form's field values and what `reset()` writes into them are not modelled. The model records the call and clears the field errors.
- Network and I/O are not modelled: `fetch`, `response.json()` and the HTTP exchange. Their results are inputs (`FetchOutcome`, `NetworkResult`). The base URL appears only as a constant.
- `uuidv4()` and `new Date()` are not modelled. They are parameters `freshId` and `today`.
- TaskForm.TaskFormState.HandleFormSubmit: modelled as one atomic step. The source suspends at `await fetch` (TaskForm.tsx:68) and at `await response.json()` (TaskForm.tsx:83). A `fetchTasks` fulfilment or another form's submit can run there, and then the rollback need not restore the pre-submit list. The model, and `TaskForm.FailedSubmitRestoresTasks`, assume no other action runs between the optimistic dispatch and the rollback.
- Overlapping `fetchTasks` calls and stale responses are not modelled. They are asynchronous interleavings, and the code has no guard against them.
- What the callers' `onSubmit` and `onSuccess` callbacks do is not executed. Only the calls are recorded. The edit dialog's second `editTask` dispatch is covered by `TasksSlice.UpdatedIdempotent`.
- `isSubmitting`, the button labels, the rendered texts ("Loading...", "An error occured: ..."), styling, icons and the pure UI components are not modelled.
- The form's delete path is absent from the source, so there is no delete request and no delete rollback.
- The slice's `status` is stored but never read, so no filtering is modelled.
