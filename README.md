# OpenClaw Mission Control — a Dafny model of the dashboard's core

OpenClaw Mission Control is a browser dashboard for an OpenClaw agent
gateway. This project models the dashboard's logic and proves properties of
that model:

- the **task board**: the task hook's list operations, their write-back to
  browser storage, the seed list and the startup load;
- the **task types** and the three board columns;
- the **new-task form**: when it can be submitted, and the arguments it
  passes on;
- the **log viewer**: how a line's level and timestamp are found, how the
  fetched text becomes lines, the level and search filter, and the badges;
- the **memory browser**: how files are sorted into categories, and how the
  file and skill listings are read;
- the **gateway client**: the stored configuration, the request headers, how
  a reply is turned into a result or an error, the connection test, and the
  arguments of a spawn;
- the **lab page**: the list of spawned sub-agent tasks and how it changes.

Modules, one per file:

| file | module | models |
|---|---|---|
| `wrappers.dfy` | `Wrappers` | `Option`, `Result` |
| `seqs.dfy` | `Seqs` | `Array.prototype.filter` and subsequences |
| `strings.dfy` | `Strings` | JavaScript `trim`, `toLowerCase`, `includes`, `startsWith`/`endsWith`, `split`/`join`, `split(c).pop()`, decimal rendering |
| `json.dfy` | `Json` | JSON values, truthiness, property access, `\|\|` and `??` |
| `storage.dfy` | `BrowserStorage` | `localStorage` as a string-to-string map |
| `task_types.dfy` | `TaskTypes` | `src/types/task.ts` |
| `task_ops.dfy` | `TaskOps` | the list updates of `src/hooks/useTasks.ts`, the seed, the startup choice |
| `task_store.dfy` | `TaskStore` | the hook's state (`tasks`, `loaded`) and its storage write-back |
| `create_task.dfy` | `CreateTask` | `src/components/CreateTaskModal.tsx` |
| `logs.dfy` | `Logs` | `src/app/logs/page.tsx` |
| `memory.dfy` | `Memory` | `src/app/memory/page.tsx` |
| `gateway.dfy` | `Gateway` | `src/lib/api.ts` |
| `lab.dfy` | `Lab` | `src/app/lab/page.tsx` |

Design choices:

- **Ids and timestamps are inputs.** The hook draws ids from `Date.now` and
  `Math.random`, and timestamps from the clock. In the model every operation
  takes them as parameters. The code does not check that ids are new. So no
  operation requires fresh ids. The lemmas that keep ids distinct take
  freshness as a hypothesis instead.
- **JSON is abstract.** `JSON.stringify` on task lists is a function value
  `encode`, and `JSON.parse` is a function `parse` that may fail. The startup
  load is proved correct for any `parse` that undoes `encode`.
- **The task hook is a class.** `TaskStore.Store` holds `tasks` and `loaded`.
  Its methods replace `tasks` by the matching pure function of `TaskOps`.
  Once the store is loaded, each method also writes the encoded list under
  `openclaw-tasks`.
- **The lab page is a class too.** `Lab.LabPage` holds the page state that
  `spawnTask` and `loadSessions` change. Its two spawn methods are the two
  halves of `spawnTask`, before and after the tool call.
- **Replies are values.** The gateway's HTTP replies are values of type
  `Gateway.Reply`: the `ok` flag, the status code, and the parsed body as a
  JSON value. The unwrapping rules are pure functions over these values.
- **No credential check in the client.** The client code refuses no call when
  no token is configured. The shared client leaves out the token header
  (`src/lib/api.ts:31-48`), and the lab page sends `Bearer ` with an empty
  token (`src/app/lab/page.tsx:14`). The model does the same. The proxy route
  (`src/app/api/proxy/route.ts:9-11`) is not part of this model. Without a url
  and a token it answers status 500, and the model sees that reply as a
  failed status in `Gateway.Unwrap`, which gives "API 500".
- **Move log text.** A move logs `Moved to <status>` with the status's stored
  name, for example `Moved to in-progress` (`src/hooks/useTasks.ts:78`). The
  seed data instead writes the column caption (`Moved to Completada`,
  `src/hooks/useTasks.ts:22`). The model keeps both as written.

## Model

| member | source | states |
|---|---|---|
| TaskTypes.NamesRoundTrip | src/types/task.ts:1-2 | the three priority names and the three status names are recognised, one for each value; names round-trip; no other text is recognised |
| TaskTypes.ColumnsCoverStatuses | src/types/task.ts:35-39 | there are three columns, pending, in-progress and completed in that order; every status has a column and no two columns share one |
| TaskTypes.ColumnTasks | src/app/tasks/page.tsx:50-51 | a column shows exactly the tasks of its status, in list order, each as often as it is listed |
| TaskTypes.ColumnsPartition | src/app/tasks/page.tsx:50-51 | a listed task appears in the column of its own status and in no other column |
| TaskTypes.ColumnCountsSum | src/app/tasks/page.tsx:50-51 | the three column sizes add up to the number of tasks |
| TaskOps.MapMatching | src/hooks/useTasks.ts:69-71 | the length is kept; tasks with another id are unchanged; tasks with the id get `f` applied |
| TaskOps.AddTask | src/hooks/useTasks.ts:58-67 | the old list is kept as a prefix, with one task appended; the new task is pending, has no subtasks or comments, and its log is the one "Task created" entry stamped with its creation time |
| TaskOps.AddTaskKeepsIdsUnique | src/hooks/useTasks.ts:58-67 | adding a task under a new id keeps the task ids distinct |
| TaskOps.MergeLaws | src/hooks/useTasks.ts:70 | each of the ten fields takes the patch's value when the patch gives it and keeps the task's otherwise; an empty patch changes nothing; merging twice is merging once |
| TaskOps.UpdateTask | src/hooks/useTasks.ts:69-71 | the length is kept; tasks with another id are unchanged; each task with the id is the merge of itself and the patch |
| TaskOps.UpdateNeverLogs | src/hooks/useTasks.ts:69-71 | a patch without `activity` leaves every activity log unchanged |
| TaskOps.MoveTask | src/hooks/useTasks.ts:73-81 | tasks with another id, or already in the target status, are unchanged; other tasks with the id take the new status and get one "Moved to" entry appended |
| TaskOps.MoveUnknownIsNoop | src/hooks/useTasks.ts:73-81 | moving an id that is not in the list changes nothing |
| TaskOps.MoveTwiceIsMoveOnce | src/hooks/useTasks.ts:75 | a second move to the same status is a no-op, so it never logs a duplicate entry |
| TaskOps.MoveLogsNewStatus | src/hooks/useTasks.ts:76-79 | a real move grows the log by exactly one entry; the old log is a prefix; the new entry names the new status |
| TaskOps.DeleteTask | src/hooks/useTasks.ts:83-85 | the result holds exactly the tasks with another id, with the same multiplicities and in the same order; deleting an absent id changes nothing |
| TaskOps.DeleteKeepsIdsUnique | src/hooks/useTasks.ts:83-85 | deleting keeps distinct ids distinct |
| TaskOps.AddSubtask | src/hooks/useTasks.ts:87-92 | tasks with another id are unchanged; each task with the id gets one open subtask appended |
| TaskOps.AddSubtaskKeepsIdsUnique | src/hooks/useTasks.ts:90 | a subtask id that is new within the task keeps its subtask ids distinct |
| TaskOps.FlipSubtask | src/hooks/useTasks.ts:97 | ids and titles are kept; `completed` flips exactly on the subtasks with the given id |
| TaskOps.ToggleSubtask | src/hooks/useTasks.ts:94-99 | tasks with another id are unchanged; tasks with the id get their subtasks flipped |
| TaskOps.ToggleTwiceRestores | src/hooks/useTasks.ts:94-99 | toggling the same subtask twice restores the original list |
| TaskOps.AddComment | src/hooks/useTasks.ts:101-110 | tasks with another id are unchanged; each task with the id gets the comment and one "Comment added" log entry, appended together |
| TaskOps.EditsOnlyAppendToLogs | src/hooks/useTasks.ts:69-110 | move, update (without `id` or `activity`), add-subtask, toggle and comment keep the length and every task id, and only ever extend a log at its end |
| TaskOps.LogsExtendedKeepsIdsUnique | src/hooks/useTasks.ts:69-110 | an edit that keeps each task's id keeps the task ids distinct |
| TaskOps.SeedIsWellFormed | src/hooks/useTasks.ts:16-38 | the seed has three tasks with distinct ids; each task's subtask ids are distinct; each log opens with a "Task created" entry at the task's creation time |
| TaskOps.SeedFillsEachColumn | src/hooks/useTasks.ts:16-38 | each status's column holds exactly one seed task |
| TaskOps.LoadTasks | src/hooks/useTasks.ts:44-50 | an absent or empty stored value gives the seed; a value that parses gives the parsed list; a value that does not parse gives the seed |
| TaskOps.LoadAfterSave | src/hooks/useTasks.ts:44-56 | loading what was saved gives back the saved list, whenever `parse` undoes `encode` |
| TaskStore.Store.constructor | src/hooks/useTasks.ts:41-42 | the store starts with an empty list, not loaded |
| TaskStore.Store.WriteBack | src/hooks/useTasks.ts:54-56 | once loaded, the encoded list is written under the storage key; before that, storage is untouched |
| TaskStore.Store.Load | src/hooks/useTasks.ts:44-52 | the list becomes the startup choice for the stored value; the store is loaded; storage is synced with the list |
| TaskStore.Store.AddTask | src/hooks/useTasks.ts:58-67 | the list becomes `TaskOps.AddTask` of the old list, and is written back; distinct ids stay distinct for a new id |
| TaskStore.Store.UpdateTask | src/hooks/useTasks.ts:69-71 | the list becomes `TaskOps.UpdateTask` of the old list, and is written back |
| TaskStore.Store.MoveTask | src/hooks/useTasks.ts:73-81 | the list becomes `TaskOps.MoveTask` of the old list; logs are only extended; the list is written back |
| TaskStore.Store.DeleteTask | src/hooks/useTasks.ts:83-85 | the list becomes `TaskOps.DeleteTask` of the old list, and no task with the id remains; the list is written back |
| TaskStore.Store.AddSubtask | src/hooks/useTasks.ts:87-92 | the list becomes `TaskOps.AddSubtask` of the old list, and is written back |
| TaskStore.Store.ToggleSubtask | src/hooks/useTasks.ts:94-99 | the list becomes `TaskOps.ToggleSubtask` of the old list, and is written back |
| TaskStore.Store.AddComment | src/hooks/useTasks.ts:101-110 | the list becomes `TaskOps.AddComment` of the old list; logs are only extended; the list is written back |
| TaskStore.ReloadRestores | src/hooks/useTasks.ts:44-56 | a synced store, reloaded from its storage, gives back its current list |
| CreateTask.DatePart | src/components/CreateTaskModal.tsx:19 | the result is the prefix of the timestamp up to, and not including, the first 'T' |
| CreateTask.DatePartOfTimestamp | src/components/CreateTaskModal.tsx:19 | for `date + "T" + time` with no 'T' in `date`, the date part is `date` |
| CreateTask.Submit | src/components/CreateTaskModal.tsx:17-20 | nothing is created exactly when the trimmed title is empty; otherwise the title and description are trimmed, the priority is passed on, and the deadline is the one picked or else today's date |
| CreateTask.DisabledIffRejected | src/components/CreateTaskModal.tsx:93 | the button is disabled exactly when submitting would create nothing; a fresh form, with priority medium, is disabled |
| CreateTask.SubmittedTitleIsClean | src/components/CreateTaskModal.tsx:18-19 | a submitted title is non-empty and already trimmed; a title of only white space is never submitted |
| CreateTask.CreatedTaskIsClean | src/components/CreateTaskModal.tsx:19 | the task a submitted form creates is pending, has a non-empty trimmed title, and has a deadline |
| Logs.LevelOf | src/app/logs/page.tsx:17-23 | the level follows the precedence error, warn, debug, info, unknown over the lower-cased line, stated as one if-and-only-if per level |
| Logs.LevelIgnoresCase | src/app/logs/page.tsx:18 | upper- or lower-casing a line does not change its level |
| Logs.ErrorWins | src/app/logs/page.tsx:20 | a line containing "ERROR" is an error line, whatever else it contains |
| Logs.TailRun | src/app/logs/page.tsx:26 | the run of timestamp-tail characters is maximal and stays within the line |
| Logs.Timestamp | src/app/logs/page.tsx:26-27 | a timestamp is found exactly when the line opens with the date-time head; it is a prefix of the line, and the head is followed by the longest run of tail characters |
| Logs.ParseLine | src/app/logs/page.tsx:17-28 | the line is kept as both `raw` and `message`; the level and the timestamp are those defined above |
| Logs.ParseText | src/app/logs/page.tsx:60-61 | the lines are exactly the non-empty newline-separated pieces of the text, in order; each is parsed |
| Logs.ParseTextKeepsText | src/app/logs/page.tsx:61 | for text without empty lines, joining the parsed lines with newlines gives back the text |
| Logs.FilterLines | src/app/logs/page.tsx:83-87 | the result holds exactly the lines that pass the level selector and contain the search ignoring case, in their order, each as often as it is listed; "all" with no search shows every line |
| Logs.CountLevels | src/app/logs/page.tsx:89-93 | each badge equals the number of lines the level selector alone shows; the three badges sum to at most the number of lines |
| Logs.CountMatchesFilter | src/app/logs/page.tsx:89-93 | counting a level equals the size of the list filtered by that level with no search |
| Logs.CountsBounded | src/app/logs/page.tsx:89-93 | the error, warn and info counts never exceed the number of lines together |
| Memory.Categorize | src/app/memory/page.tsx:14-20 | core exactly when the last path segment is one of the seven core names; otherwise memory for a `/memory/` path, then skill for a `/skills/` path, else other |
| Memory.CoreInAnyDirectory | src/app/memory/page.tsx:15-16 | a core file name is core in any directory, including memory and skills directories |
| Memory.MemoryBeforeSkills | src/app/memory/page.tsx:17-18 | a non-core path under both `/memory/` and `/skills/` is filed as memory, in either nesting order |
| Memory.EntryForMarkdown | src/app/memory/page.tsx:48-52 | the entry for a markdown line holds that line's trimmed text as its path, the path's non-empty last segment as name, and the path's category |
| Memory.FileEntries | src/app/memory/page.tsx:47-52 | there is one entry per line whose trimmed form ends in ".md", and entry i is built from the i-th such line in listing order |
| Memory.FileEntriesGood | src/app/memory/page.tsx:47-52 | each entry's path is trimmed, has no newline and ends in ".md"; its name is the path's non-empty last segment; its category is the path's |
| Memory.MarkdownBaseName | src/app/memory/page.tsx:50 | a path ending in ".md" has a non-empty last segment, so the name never falls back to the whole path |
| Memory.SkillNames | src/app/memory/page.tsx:56-57 | the skills are the trimmed lines other than blank ones and "---user---", in order; each is non-empty, trimmed, and not the marker |
| Memory.Displayed | src/app/memory/page.tsx:97 | the tab shows exactly the files of its category, in listing order, each as often as it is listed |
| Memory.TabsPartitionFiles | src/app/memory/page.tsx:97 | the four tabs together show every file exactly once |
| Gateway.ItemOrEmpty | src/lib/api.ts:12-13 | a missing key reads as the empty string |
| Gateway.ReadConfig | src/lib/api.ts:9-15 | with no window both fields are empty; otherwise each field is its stored value, or empty when missing |
| Gateway.GetConfig | src/lib/api.ts:9-15 | the configuration is the one read from the browser's storage, or empty with no window |
| Gateway.SavedItems | src/lib/api.ts:17-20 | each given field is written under its key; an undefined field keeps its stored value; every other key is untouched |
| Gateway.SaveConfig | src/lib/api.ts:17-20 | storage becomes the saved map of the old storage |
| Gateway.SaveThenRead | src/lib/api.ts:9-20 | after a save, reading gives each given field's new value and each undefined field's previous value |
| Gateway.ConfiguredByTokenOnly | src/lib/api.ts:22-29 | being configured, and having a token, both mean the token is non-empty; the base address plays no part |
| Gateway.Headers | src/lib/api.ts:33-37 | the content type is always sent; the address header is sent exactly when the address is non-empty, and the token header exactly when the token is non-empty; no other header is sent |
| Gateway.ProxyCause | src/lib/api.ts:46 | the error is the result's error if truthy, else the top-level error if truthy, else "API error"; it is always truthy |
| Gateway.Payload | src/lib/api.ts:47 | the value is the result's details unless they are null or undefined, else the whole result |
| Gateway.Unwrap | src/lib/api.ts:44-47 | the call fails exactly on a bad status, a null body or a falsy `ok`; a bad status fails with "API <status>"; a falsy `ok` fails with the cause above; success yields the payload |
| Gateway.UnwrapSuccess | src/lib/api.ts:46-47 | a successful reply yields its details when present, and its whole result otherwise |
| Gateway.FailedStatusMessage | src/lib/api.ts:44 | a bad status always fails, and the message's digits read back as the status |
| Gateway.TestConnection | src/lib/api.ts:118-125 | every outcome gives an answer; success gives ok with `statusText` or "Connected"; failure gives not ok with the failure |
| Gateway.SpawnSessionArgs | src/lib/api.ts:88-92 | the task is always sent; the label is sent exactly when it is given and non-empty |
| Lab.RequestFor | src/app/lab/page.tsx:10-15 | the page posts to the stored address plus "/tools/invoke", with a bearer token and the content type |
| Lab.DirectCause | src/app/lab/page.tsx:19 | the error is the result's error if truthy, else "API error" |
| Lab.DirectUnwrap | src/app/lab/page.tsx:17-20 | the page's unwrapping fails on the same replies as the shared client's, with its own cause, and yields the same payload |
| Lab.DirectDiffersFromProxy | src/app/lab/page.tsx:19 | the page's unwrapping and the shared client's differ exactly on a refusal whose result has no truthy error while the top level has a truthy error other than "API error" |
| Lab.Started | src/app/lab/page.tsx:69 | a new entry is running, has no result, and carries the id, the text and the start time |
| Lab.Finish | src/app/lab/page.tsx:76-79 | the length and order are kept; only entries with the id change, and they take the final status and the result |
| Lab.FinishLaws | src/app/lab/page.tsx:76-79 | completion keeps every id in place; an unknown id changes nothing; completing twice is completing once |
| Lab.SpawnThenFinish | src/app/lab/page.tsx:66-79 | with a new id, prepending and then completing leaves the finished entry at the head and the earlier entries as they were |
| Lab.SpawnArgs | src/app/lab/page.tsx:73 | the task key is always sent and holds the trimmed prompt |
| Lab.SpawnArgsModel | src/app/lab/page.tsx:73-74 | only the task and model keys are ever sent; the model key is present exactly when the model field is not blank, and then holds the trimmed model |
| Lab.SessionsOf | src/app/lab/page.tsx:49 | an array reply is the list itself; otherwise its `sessions` field when truthy, else the empty list |
| Lab.LabPage.constructor | src/app/lab/page.tsx:33-39 | the page starts with an empty prompt and model, no tasks, no sessions and no error, not sending |
| Lab.LabPage.BeginSpawn | src/app/lab/page.tsx:62-75 | a blank prompt changes nothing; otherwise the prompt is cleared, the error is reset, sending starts, one running entry for the trimmed prompt is prepended, and the spawn arguments are returned |
| Lab.LabPage.FinishSpawn | src/app/lab/page.tsx:76-81 | the entry with the id becomes done with the rendered reply, or error with the message; sending stops; a session reload is requested exactly on success |
| Lab.LabPage.LoadSessions | src/app/lab/page.tsx:45-55 | success stores the normalised sessions; failure puts the message in the error banner |
| Lab.SpawnRound | src/app/lab/page.tsx:62-83 | a spawn with a new id grows the list by one finished entry at the head, for the trimmed prompt, and keeps the rest |
| Strings.Trim | src/components/CreateTaskModal.tsx:18-19 | no white space is left at either end, and the result is no longer than the input |
| Strings.TrimExact | src/components/CreateTaskModal.tsx:18-19 | a core with no white space at its ends, padded with white space on both sides, trims to exactly that core |
| Strings.TrimIdempotent | src/components/CreateTaskModal.tsx:19 | trimming twice is trimming once |
| Strings.TrimEmptyIff | src/components/CreateTaskModal.tsx:18 | a string trims to empty exactly when it is all white space |
| Strings.ContainsIff | src/app/logs/page.tsx:20-23 | `includes` holds exactly when the needle occurs at some position |
| Strings.JoinSplit | src/app/logs/page.tsx:61 | joining the split pieces with the separator gives back the text |
| Strings.SplitJoin | src/app/logs/page.tsx:61 | splitting a join of separator-free pieces gives back the pieces |
| Strings.LastSegment | src/app/memory/page.tsx:15 | the result is the longest separator-free suffix, as `split(c).pop()` gives it |
| Strings.DecimalRoundTrip | src/lib/api.ts:44 | a status rendered in decimal reads back as itself |
| Seqs.Filter | src/hooks/useTasks.ts:84 | the result is no longer than the input and every element it keeps matches |
| Seqs.FilterMembers | src/hooks/useTasks.ts:84 | an element is in the result exactly when it is in the input and matches |
| Seqs.FilterMultiset | src/hooks/useTasks.ts:84 | every kept element occurs as often as in the input, and every dropped one not at all |
| Seqs.FilterIsSubsequence | src/hooks/useTasks.ts:84 | filtering keeps the original order |

## Left out

- React rendering, JSX markup and effect scheduling are left out. The two task-hook effects are the explicit methods `Load` and `WriteBack`, and each operation calls `WriteBack` itself.
- The `fetch` transport of both tool calls, and the proxy routes under `src/app/api`, are left out. Replies enter the model as values.
- `JSON.parse` and `JSON.stringify` are function parameters. So is the pretty-printed rendering of a spawn's reply: `Lab.Outcome` carries the rendered text.
- Lab.LabPage.FinishSpawn: a successful spawn always records `Some(rendered)`. In the page, `JSON.stringify` of an undefined reply payload gives `undefined`, which leaves the entry's result unset; that case is not modelled. A successful spawn also starts `loadSessions()`. The model returns `reload` for that and leaves the reload itself to a separate `LoadSessions` call.
- TaskOps.MapMatching: the fresh values of one edit are shared by every task with the matching id. These are the log-entry id and time of a move, the subtask id of an added subtask, and the comment id and both timestamps of a comment. The hook draws a new id and a new timestamp for each such task. Task ids are unique in practice, so at most one task matches.
- TaskOps.LoadTasks: a stored value that parses to something other than a task list is not modelled; `parse` returns a task list or fails.
- TaskOps.TaskPatch: a patch key that is present but explicitly `undefined` is not modelled. In `{...t, ...updates}` such a key overwrites the field with `undefined`; in the model a field is either given or absent.
- Strings.Lower and Strings.Upper map only the ASCII letters. JavaScript `toLowerCase` also maps non-ASCII letters.
- Strings are sequences of Unicode code points, while JavaScript strings are sequences of UTF-16 code units. No modelled operation depends on the difference: `trim`, `includes`, `split` and `endsWith` act alike on well-formed text.
- JSON numbers are integers in `Json.Value`, and fractional numbers are left out. Truthiness is unaffected: a fractional number is truthy like a non-zero integer, and JSON has no `NaN`.
- Logs.Timestamp models the regular expression's fixed head and its tail class by hand, not a general regex engine.
- The raw-output sniffing that picks the text out of a tool reply (`typeof data === 'string' ? … : data?.stdout || …` in the logs and memory pages) is left out. The model starts from the text itself.
- `String(…)` and `Error.message` conversions of non-string values are left out. `Gateway.Failure` keeps the raised value itself. The lab's error message enters as text in `Lab.Outcome`.
- The 15-second polling of the log viewer, auto-scroll, locale date formatting and the `tokenSet` gating of the pages are left out, as UI concerns.
- The other wrappers in `src/lib/api.ts` are left out. Each names a tool and passes its parameters to `toolInvoke` in an argument object of fixed shape.
- The memory page's file opening and saving handlers are left out, as stateful UI around the gateway calls.
- Server-side task synchronisation is left out: the task hook has none.
- Id and clock generation (`generateId`, `timestamp`, `Date.now`) are left out; ids and times are parameters.
