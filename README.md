# Taskboard state logic in Dafny

A model of the state logic of a client-side Kanban board. The board keeps:

- tasks in insertion order, each with a status column (`Todo`, `Doing`, `Done`), a priority, an optional due date and tags;
- an activity log, newest entry first, with at most seven entries;
- search, priority and sort filters.

The model covers five parts of the program:

- **The `board` reducer** (`board_slice.dfy`). The class `Board` holds the three parts of the state as `seq`/record fields and has one method per reducer. Every `saveToStorage` call appends to the ghost trace `writes`, so the contracts can state which values are written and when.
- **The board view** (`board_columns.dfy`). The view filters by lower-cased title and by priority, then stable-sorts by due date with undated tasks last in both directions, then splits the result into the three columns. These are functions with lemmas.
  - The sort is a stable insertion sort, because the ECMAScript 2019 edition requires `Array.prototype.sort` to be stable (section 22.1.3.27 of ECMA-262, 10th edition).
  - Its partner lemmas prove the result is a permutation of the filtered tasks, is in comparator order, and is stable.
  - The class `ColumnsView` holds the drag-and-drop state slot (`activeTask`) and the two handlers.
- **The `auth` reducer** (`auth_slice.dfy`). The class `Auth` keeps the invariant "authenticated exactly when there is a user".
- **The create and edit dialogs** (`create_task_dialog.dfy`, `edit_task_dialog.dfy`).
  - Building the saved task is a pure function returning a `Result`: a blank title is the error `Title is required`.
  - The form state is a class whose methods are the setters, `resetForm`, the open-time prefill and `handleSubmit`.
  - Tags are prefilled as `tags.join(', ')` and parsed back with `split(',')`, `trim` and dropping empties. When every tag is non-empty, trimmed and comma-free (as the dialogs always save them), parsing the prefill gives back the original tags.
- **Shared building blocks.**
  - `text.dfy`: the string built-ins the code relies on (`trim`, `toLowerCase`, `includes`, `split`, `join`).
  - `arrays.dfy`: `Array.prototype.filter`.
  - `task_fields.dfy`: the field normalisation shared by both dialogs.

Clocks and identifiers are parameters:

- `now` and `createdAt` stand for `new Date().toISOString()`;
- `id` stands for `uuidv4()`;
- `timeOf` stands for `new Date(d).getTime()`.

## Model

| member | source | states |
|---|---|---|
| `Text.Trim` | src/app/tasks/CreateTaskDialog.tsx:30-37 | `trim()` returns a contiguous slice of its input with no white space at either end, and everything it removes on either side is white space. It is empty exactly when the input is all white space, which is what `!title.trim()` tests. |
| `Text.TrimStartFacts` | src/app/tasks/CreateTaskDialog.tsx:37 | Leading-space removal drops only white space and keeps a suffix that does not start with white space. |
| `Text.TrimEndFacts` | src/app/tasks/CreateTaskDialog.tsx:37 | Trailing-space removal drops only white space and keeps a prefix that does not end with white space. |
| `Text.TrimOfTrimmed` | src/app/tasks/EditTaskDialog.tsx:51 | Trimming a title that has no surrounding white space leaves it unchanged. |
| `Text.Lower` | src/components/board/BoardColumns.tsx:33 | `toLowerCase()` keeps the length and lower-cases each character (ASCII letters). |
| `Text.Includes` | src/components/board/BoardColumns.tsx:33 | `includes` holds only for a needle no longer than the text, and every text includes itself. |
| `Text.IncludesEmpty` | src/components/board/BoardColumns.tsx:31-33 | The empty string is included in every title. |
| `Text.SplitCommas` | src/app/tasks/CreateTaskDialog.tsx:41-42 | `split(',')` yields at least one piece, and no piece contains a comma. |
| `Text.JoinSplitCommas` | src/app/tasks/CreateTaskDialog.tsx:41-42 | Joining the pieces of `split(',')` with `,` gives back the input. |
| `Text.Join` | src/app/tasks/EditTaskDialog.tsx:26 | `join` of no parts is empty, and of one part is that part. |
| `Text.SplitJoinCommas` | src/app/tasks/EditTaskDialog.tsx:26 | Splitting on `,` the `,`-join of comma-free parts gives back the parts. |
| `Text.SplitCommasPrefix` | src/app/tasks/CreateTaskDialog.tsx:41-42 | Text with no comma in front of a string extends that string's first piece. |
| `Text.SplitCommasAtComma` | src/app/tasks/CreateTaskDialog.tsx:41-42 | A comma ends the piece before it, and the rest splits on its own. |
| `Arrays.Filter` | src/components/board/BoardColumns.tsx:32 | `filter` returns only elements that pass, and is no longer than its input. |
| `Arrays.FilterCount` | src/store/boardSlice.ts:59 | An element that passes keeps its multiplicity; one that fails is gone. |
| `Arrays.FilterAppend` | src/components/board/BoardColumns.tsx:57 | Filtering distributes over concatenation, so survivors keep their order. |
| `Arrays.FilterCons` | src/components/board/BoardColumns.tsx:41-50 | Proof step for the stability of the sort (`SortStable`): equal filtered tails stay equal behind the same head. |
| `Arrays.FilterSwap` | src/components/board/BoardColumns.tsx:41-50 | Proof step for the stability of the sort (`InsertStable`): swapping two neighbours, at most one of which passes, does not change the filtered result. |
| `Arrays.FilterFilter` | src/components/board/BoardColumns.tsx:31-39 | Filtering twice in turn is one filter with both tests. |
| `Arrays.FilterSameTest` | src/components/board/BoardColumns.tsx:31-39 | Tests that agree on every element filter alike. |
| `Arrays.FilterAll` | src/store/boardSlice.ts:59 | A filter that every element passes returns its input. |
| `Arrays.FilterKeepsOrder` | src/components/board/BoardColumns.tsx:57 | Any order relation between the input's elements still holds after filtering. |
| `TaskFields.Optional` | src/app/tasks/CreateTaskDialog.tsx:38-40 | The `or undefined` fallback is absent exactly for the empty string and otherwise is the string itself. |
| `TaskFields.OrEmpty` | src/app/tasks/EditTaskDialog.tsx:23-25 | The `or ''` fallback is the value when present and the empty string when absent. |
| `TaskFields.CleanTags` | src/app/tasks/CreateTaskDialog.tsx:43-44 | Trim each piece and drop empties: every result is non-empty and trimmed, and there are no more results than pieces. |
| `TaskFields.TrimKeepsCommaOut` | src/app/tasks/CreateTaskDialog.tsx:43 | Trimming a comma-free piece cannot produce a comma. |
| `TaskFields.ParseTags` | src/app/tasks/CreateTaskDialog.tsx:41-44 | Every parsed tag is non-empty, trimmed and comma-free, and blank tag text gives no tags. |
| `TaskFields.CleanTagsCommaFree` | src/app/tasks/CreateTaskDialog.tsx:41-44 | Cleaning comma-free pieces yields comma-free tags. |
| `TaskFields.ParseTagsPiece` | src/app/tasks/CreateTaskDialog.tsx:41-44 | Comma-free text parses to its trimmed text, or to nothing if that is empty. |
| `TaskFields.ParseTagsAtComma` | src/app/tasks/CreateTaskDialog.tsx:41-44 | The tags before the first comma come first and the rest follow in entry order. |
| `TaskFields.BlankHasNoComma` | src/app/tasks/CreateTaskDialog.tsx:41-44 | Proof step for the tag round trip (`ParseJoinedTags`): blank text contains no comma. |
| `TaskFields.TrimStartAfterBlank` | src/app/tasks/EditTaskDialog.tsx:55-58 | Proof step for the tag round trip (`ParseJoinedTags`): a blank prefix is removed with the leading white space. |
| `TaskFields.ParseJoinedTags` | src/app/tasks/EditTaskDialog.tsx:26-35 | Well-formed tags joined with `", "`, behind any blank prefix, parse back to exactly those tags. |
| `TaskFields.TagsRoundTrip` | src/app/tasks/EditTaskDialog.tsx:26-58 | The `tags.join(', ')` prefill parses back to the original tags when each tag is non-empty, trimmed and comma-free. |
| `BoardSlice.CreatedMessage` | src/store/boardSlice.ts:32 | The message reads `Task "`, the title, then `" created`. |
| `BoardSlice.EditedMessage` | src/store/boardSlice.ts:46 | The message reads `Task "`, the title, then `" edited`. |
| `BoardSlice.DeletedMessage` | src/store/boardSlice.ts:61 | The message reads `Task "`, the title, then `" deleted`. |
| `BoardSlice.MovedMessage` | src/store/boardSlice.ts:76 | The message reads `Task "`, the title, `" moved to ` and the status name. |
| `BoardSlice.MessagesNameTheTitle` | src/store/boardSlice.ts:32-76 | Each kind of message names its task's title: equal messages of one kind come from equal titles. |
| `BoardSlice.Persisted` | src/store/boardSlice.ts:38-39 | One save writes `tasks` with the task list, then `activityLog` with the log. |
| `BoardSlice.Record` | src/store/boardSlice.ts:31-37 | `unshift` then truncation to seven: the new entry is first, after it come the newest of the old entries, and the length is the old length plus one, capped at 7. |
| `BoardSlice.Reversed` | src/store/boardSlice.ts:31 | Proof step for the newest-first log (`RecordAllKeepsNewest`): reversal keeps the length and mirrors the positions. |
| `BoardSlice.NewestOfNewest` | src/store/boardSlice.ts:35-37 | Keeping the newest seven entries twice keeps the same ones. |
| `BoardSlice.RecordAllKeepsNewest` | src/store/boardSlice.ts:31-37 | After any run of log-touching mutations, the log is the seven most recent entries, newest first, and the oldest are evicted first. |
| `BoardSlice.FindIndex` | src/store/boardSlice.ts:42 | `findIndex` gives -1 exactly when no task has the id; otherwise it gives the first position holding the id. |
| `BoardSlice.Find` | src/store/boardSlice.ts:57 | `find` is absent exactly when no task has the id; otherwise it is the task at `findIndex`. |
| `BoardSlice.RemoveId` | src/store/boardSlice.ts:59 | No task with the id remains, every other task is kept, and an unknown id changes nothing. |
| `BoardSlice.RemoveIdCount` | src/store/boardSlice.ts:59 | Removal keeps each other task exactly as often as the board held it. |
| `BoardSlice.RemoveIdSplit` | src/store/boardSlice.ts:59 | Removal works part by part, so the remaining tasks keep their relative order. |
| `BoardSlice.RemoveIdUnique` | src/store/boardSlice.ts:59 | Removal from a board with distinct ids leaves distinct ids. |
| `BoardSlice.DeleteTwice` | src/store/boardSlice.ts:56-59 | Deleting the same id twice leaves the same tasks as deleting it once. |
| `BoardSlice.FindIndexOfFirst` | src/store/boardSlice.ts:42 | The first position holding an id is the one `findIndex` reports. |
| `BoardSlice.MoveTasks` | src/store/boardSlice.ts:72-74 | Only the first task with the id changes: it becomes that task with the new status and nothing else altered. The length is kept, and an unknown id changes nothing. |
| `BoardSlice.MoveToSameStatus` | src/store/boardSlice.ts:73 | Moving a task to the status it already has leaves the tasks unchanged. |
| `BoardSlice.Board.constructor` | src/store/boardSlice.ts:15-23 | `initialState`: no tasks, an empty log, empty search, no priority, ascending sort, nothing written. |
| `BoardSlice.Board.Log` | src/store/boardSlice.ts:31-37 | Prepends the entry and keeps at most seven entries. |
| `BoardSlice.Board.SaveBoth` | src/store/boardSlice.ts:38-39 | Writes the current tasks, then the current log. |
| `BoardSlice.Board.AddTask` | src/store/boardSlice.ts:29-40 | Appends the task at the end and leaves the earlier tasks in place. Logs `Task "<title>" created` and writes both keys with their new values. Requires an id not already on the board, which `uuidv4` provides. |
| `BoardSlice.Board.UpdateTask` | src/store/boardSlice.ts:41-55 | An unknown id changes nothing and writes nothing. A known id replaces only the first matching position, logs `Task "<new title>" edited` and writes both keys. |
| `BoardSlice.Board.DeleteTask` | src/store/boardSlice.ts:56-70 | An unknown id changes nothing. A known id removes every task with it and logs the title captured before removal. Distinct ids stay distinct. |
| `BoardSlice.Board.MoveTask` | src/store/boardSlice.ts:71-85 | Sets the status of the first task with the id. An absent id or an unchanged status logs and writes nothing; otherwise it logs `Task "<title>" moved to <status>` and writes both keys. |
| `BoardSlice.Board.ResetBoard` | src/store/boardSlice.ts:86-97 | Empties the tasks, logs `Board reset`, writes both keys, leaves the filters. |
| `BoardSlice.Board.AddActivity` | src/store/boardSlice.ts:98-107 | Changes only the log, and writes only `activityLog`. |
| `BoardSlice.Board.SetSearch` | src/store/boardSlice.ts:108-110 | Changes only the search text; nothing is logged or written. |
| `BoardSlice.Board.SetPriority` | src/store/boardSlice.ts:111-113 | Changes only the priority filter; nothing is logged or written. |
| `BoardSlice.Board.SetSort` | src/store/boardSlice.ts:114-116 | Changes only the sort direction; nothing is logged or written. |
| `BoardSlice.Board.LoadTasks` | src/store/boardSlice.ts:117-119 | Installs the tasks as given; nothing is logged or written. |
| `BoardSlice.Board.LoadActivityLog` | src/store/boardSlice.ts:120-122 | Installs the log as given, without truncating it; nothing is logged or written. |
| `BoardColumns.SearchFilter` | src/components/board/BoardColumns.tsx:31-35 | An empty search passes every task. Either way the result is the board filtered by the title test, in board order: a task is kept, as often as it occurs, exactly when its lower-cased title includes the lower-cased search. |
| `BoardColumns.PriorityFilter` | src/components/board/BoardColumns.tsx:37-39 | No selected priority passes every task. Either way the result is the input filtered by the priority test, in order: with a selected priority, exactly the tasks of that priority are kept, as often as they occur. |
| `BoardColumns.BothFilters` | src/components/board/BoardColumns.tsx:31-39 | The search filter and then the priority filter keep, in board order, exactly the tasks that pass both. |
| `BoardColumns.Compare` | src/components/board/BoardColumns.tsx:41-50 | An undated task sorts after a dated one in both directions. Two dated tasks are in order by due time, ascending for `asc` and descending for `desc`. The comparator returns 0 exactly when both are undated, or both are dated at the same time. |
| `BoardColumns.InOrderFlip` | src/components/board/BoardColumns.tsx:41-50 | Proof step for the sorted order of the insertion sort (`InsertSorted`): the comparator is total, so if `a` does not come before `b`, then `b` may come before `a`. |
| `BoardColumns.InOrderTrans` | src/components/board/BoardColumns.tsx:41-50 | Proof step for the sorted order of the insertion sort (`InsertSorted`): the comparator's order is transitive. |
| `BoardColumns.SortedCons` | src/components/board/BoardColumns.tsx:41-50 | Proof step for the sorted order of the insertion sort (`InsertSorted`): a task that may precede every task of a sorted sequence can head it. |
| `BoardColumns.Insert` | src/components/board/BoardColumns.tsx:41 | Insertion adds exactly the one task. |
| `BoardColumns.InsertElements` | src/components/board/BoardColumns.tsx:41 | Insertion introduces no task other than the inserted one. |
| `BoardColumns.InsertSorted` | src/components/board/BoardColumns.tsx:41-50 | Insertion keeps a sequence in comparator order. |
| `BoardColumns.SortByDue` | src/components/board/BoardColumns.tsx:41-52 | The sorted copy is a permutation of the filtered tasks, in comparator order. |
| `BoardColumns.SortByDueStep` | src/components/board/BoardColumns.tsx:41 | Proof step for the stability of the sort (`SortStable`): the sort inserts the first task into the sorted rest. |
| `BoardColumns.InsertStable` | src/components/board/BoardColumns.tsx:41-50 | Insertion passes a task only over tasks with another due-date key. |
| `BoardColumns.SortStable` | src/components/board/BoardColumns.tsx:41-50 | Tasks the comparator ties (same due time, or both undated) keep their input order. |
| `BoardColumns.DueDateOrder` | src/components/board/BoardColumns.tsx:42-49 | In the sorted copy, every undated task comes after every dated one. Due times are non-decreasing for `asc` and non-increasing for `desc`. |
| `BoardColumns.FilteredAndSorted` | src/components/board/BoardColumns.tsx:28-53 | The view is in due-date order and holds each task that passes both filters, as often as the board does, and no other. Tasks with the same due-date key appear in the board's order. |
| `BoardColumns.AddColumns` | src/components/board/BoardColumns.tsx:56-59 | Each step of the `reduce` sets one column to the sorted tasks with that status and keeps the other entries. |
| `BoardColumns.TasksByColumn` | src/components/board/BoardColumns.tsx:55-60 | Every status has a column holding exactly the sorted tasks with that status, in sorted order. |
| `BoardColumns.ColumnContents` | src/components/board/BoardColumns.tsx:28-60 | A column is in due-date order. It holds exactly the tasks that pass the filters and have its status, as often as the board holds them. |
| `BoardColumns.ColumnsCoverOnce` | src/components/board/BoardColumns.tsx:12 | Together the three columns show each filtered task exactly as often as the view holds it. |
| `BoardColumns.ColumnNamed` | src/components/board/BoardColumns.tsx:74 | A droppable id names the column whose title it is, and there is only one such column. |
| `BoardColumns.ColumnsView.constructor` | src/components/board/BoardColumns.tsx:18 | No task is being dragged at first. |
| `BoardColumns.ColumnsView.HandleDragStart` | src/components/board/BoardColumns.tsx:62-65 | The active task is the board's task with the dragged id, or none if there is none. |
| `BoardColumns.ColumnsView.HandleDragEnd` | src/components/board/BoardColumns.tsx:67-77 | Always clears the active task. A drop outside every column dispatches nothing and leaves the board unchanged. A drop on a column dispatches exactly one `moveTask(active, column)`, with the reducer's effect: the first task with the id takes the column's status, and only if the status changes is `Task "<title>" moved to <column>` logged and both keys written. |
| `AuthSlice.Auth.constructor` | src/store/authSlice.ts:8-11 | Not authenticated and no user; the invariant holds. |
| `AuthSlice.Auth.Login` | src/store/authSlice.ts:17-20 | Authenticated as the given user; the invariant holds. |
| `AuthSlice.Auth.Logout` | src/store/authSlice.ts:21-24 | Not authenticated and no user, whatever the state was, so logging out twice is logging out once. |
| `AuthSlice.Auth.RestoreAuth` | src/store/authSlice.ts:25-30 | A stored user acts exactly as `login`. A null payload leaves the state as it was. Either way the invariant is preserved. |
| `CreateTaskDialog.NewTask` | src/app/tasks/CreateTaskDialog.tsx:26-47 | Fails with `Title is required` exactly when the title is blank. Otherwise the task is a `Todo` task with the given id and time, a non-empty trimmed title, and a description absent exactly when blank. The due date is absent exactly when empty, and the tags are the parsed tag text: none when it is blank. |
| `CreateTaskDialog.CreateForm.constructor` | src/app/tasks/CreateTaskDialog.tsx:18-24 | Closed, every input at its default (`Medium` priority), no error. |
| `CreateTaskDialog.CreateForm.SetOpen` | src/app/tasks/CreateTaskDialog.tsx:64 | Opens or closes the dialog. |
| `CreateTaskDialog.CreateForm.SetInput` | src/app/tasks/CreateTaskDialog.tsx:84 | The inputs hold what was typed. |
| `CreateTaskDialog.CreateForm.ResetForm` | src/app/tasks/CreateTaskDialog.tsx:54-61 | Every input returns to its default and the error is cleared. |
| `CreateTaskDialog.CreateForm.HandleSubmit` | src/app/tasks/CreateTaskDialog.tsx:26-52 | A blank title sets `Title is required` and changes neither the form nor the board. Otherwise exactly one `addTask` of the built task reaches the board, the form returns to its defaults, and the dialog closes. |
| `EditTaskDialog.PrefillOf` | src/app/tasks/EditTaskDialog.tsx:22-35 | The form shows the task's title and priority, its description and due date or the empty string where absent, and the tags joined with `", "`. The title is non-blank for a task the dialogs saved, and the tag text parses back to the task's tags when each tag is non-empty, trimmed and comma-free. |
| `EditTaskDialog.EditedTask` | src/app/tasks/EditTaskDialog.tsx:40-59 | Fails with `Title is required` exactly when the title is blank. Otherwise the id, creation time and status are kept. Title, description, due date and tags are normalised as on creation, and the priority is the form's. |
| `EditTaskDialog.PrefillRoundTrip` | src/app/tasks/EditTaskDialog.tsx:22-59 | Submitting the prefilled form unchanged saves the task unchanged, for every task in the shape the dialogs produce. |
| `EditTaskDialog.CreatedTaskSurvivesEdit` | src/app/tasks/CreateTaskDialog.tsx:35-47 | A task built by the create dialog passes unchanged through an untouched edit. |
| `EditTaskDialog.EditForm.constructor` | src/app/tasks/EditTaskDialog.tsx:22-27 | The inputs start from the task and there is no error. |
| `EditTaskDialog.EditForm.SetInput` | src/app/tasks/EditTaskDialog.tsx:81 | The inputs hold what was typed. |
| `EditTaskDialog.EditForm.SetProps` | src/app/tasks/EditTaskDialog.tsx:29-38 | When the task or the open flag changes and the dialog is open, every input is reloaded from the task and the error is cleared. Otherwise the inputs are kept. |
| `EditTaskDialog.EditForm.HandleSubmit` | src/app/tasks/EditTaskDialog.tsx:40-63 | A blank title sets `Title is required` and leaves the board unchanged. Otherwise `updateTask` with the edited copy has the reducer's effect and the dialog closes. |

## Left out

- Browser storage and JSON encoding are not modelled. A `saveToStorage` call is an entry in the ghost trace `Board.writes`, and reading storage at start-up is represented by `LoadTasks` and `LoadActivityLog` only.
- Clocks and generated ids are parameters (`now`, `createdAt`, `id`).
  - The create dialog reads the clock for the task and the reducer reads it again for the log entry. They are two parameters, which may differ.
  - The freshness `uuidv4` gives in practice is a precondition of `AddTask`.
- Date parsing is the parameter `timeOf`, an integer key per due-date string. A due date that `Date` cannot parse (`NaN`, which makes the comparator inconsistent) is not modelled.
- `Text.Lower`: only the ASCII letters are lower-cased. The full Unicode case mapping of `toLowerCase` is not modelled.
- The sort is modelled on values. `[...filtered]` sorts a copy, so the store's array is never reordered, and a function on sequences cannot reorder its argument either.
- `BoardColumns.ColumnsView.HandleDragEnd`: the drop target is cast without being checked, so the model requires it to name one of the three columns (the only droppables).
- Strings are sequences of Unicode scalar values, while JavaScript strings are UTF-16 code units. `includes`, `trim` and `split` can therefore differ on text holding lone surrogates, which is not modelled.
- React's memoisation (`useMemo`) and rendering are not modelled.
  - The `[open, task]` effect is compared by value; React compares the task by reference.
  - `onOpenChange` is the `open` field of the form classes.
- The login page, the pointer sensing and collision detection of the drag library, and the rendering components are not part of this model.
