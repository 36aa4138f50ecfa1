# Planify task planner: client task cache, summaries and server flag rules

Planify is a personal task planner. Its React client (`App.js`) keeps the
list of tasks it loaded from the server, changes that list when a task is
created, completed or deleted, and derives from it three rendered lists
(critical, today's agenda, non-critical), a completion gauge for today and a
five-day bar chart of completed tasks. Its Django server (`views.py`) answers
one endpoint, dispatching on the HTTP method, over a table of tasks keyed by
`ids`.

This project models both halves in Dafny 4:

- `tasks.dfy` (module `Tasks`): the `Task` record and `Filter`, the
  order-preserving list filter every client view is built from.
- `views.dfy` (module `Views`): the three rendered lists.
- `stats.dfy` (module `Stats`): the completion percentage with its
  ceiling-to-ten banding, and the histogram as two methods with loops
  (`countCompletedTasks` filling a map, the `-2..2` loop pushing labels and
  counts).
- `cache.dfy` (module `Cache`): the component state (`tasks`, `percentage`)
  and the load, submit, complete and delete handlers.
- `server.dfy` (module `Server`): the endpoint as pure outcome functions on the
  task table, and a class `TaskTable` holding the table whose methods change it
  in place and are proved against those functions.

Modelling choices:

- Dates are integer day numbers; "today" is a parameter. The histogram's
  label formatting is a function parameter `format`.
- Flags and levels stay text, because App.js compares them as text and not
  always the same way: the percentage keeps tasks with `delFlg !== "Y"`, the
  lists keep tasks with `delFlg === "N"`.
- Task identifiers and the URL path segment are both `string`. The server uses
  that one segment as an `ids` for PUT and DELETE and as a `level` for GET.
  A missing segment finds no task.
- Every request's result is a parameter. `None` or `false` stands for a
  failed or rejected request.
- The percentage uses exact integers: `ceil(10 * done / due) * 10`.
- The histogram's `labels` and `completed` arrays only ever grow by `push`.
  They are modelled as sequences extended in the loop.

Behaviours of App.js worth knowing, each modelled as written:

- The histogram does not filter by `delFlg`: deleted, completed tasks are
  counted (`Stats.DeletedStillCounted`).
- The gauge is computed only when tasks are loaded. After a confirmed complete
  it keeps its old value (`Cache.StaleGauge`: it shows 0 while the new list's
  percentage is 100).
- A confirmed client-side delete removes the task from the cache, rather than
  only hiding it. On the server the same request is a soft delete.
- The gauge shows 100 whenever more than nine tenths of today's tasks are done.
  So "100 exactly when all are done" holds in one direction only
  (`Stats.NineteenOfTwentyShowsHundred`).
- The critical list ignores dates, as does the non-critical list.

## Model

| member | source | states |
|---|---|---|
| `Tasks.Filter` | Planify/frontend/src/App.js:336 | the result keeps exactly the elements satisfying the predicate, and is no longer than the input |
| `Tasks.FilterAppend` | Planify/frontend/src/App.js:336 | filtering distributes over concatenation, so kept elements stay in list order |
| `Tasks.FilterMultiplicity` | Planify/frontend/src/App.js:419 | each kept element occurs as often as in the input; rejected elements occur zero times |
| `Views.Prefix` | Planify/frontend/src/App.js:337 | `slice(0, n)` is a prefix of length `min(n, length)` |
| `Views.CriticalTasks` | Planify/frontend/src/App.js:335-337 | a prefix of the live level-"C" tasks in list order, of length `min(50, count)`; every element is live and critical; when there are at most 50 of them, all are shown |
| `Views.NonCriticalTasks` | Planify/frontend/src/App.js:454-456 | same as the critical list, for live tasks of any other level |
| `Views.Agenda` | Planify/frontend/src/App.js:418-419 | a task is in the agenda iff it is in the list, has `delFlg == "N"` and is due today |
| `Views.UrgencyListsDisjoint` | Planify/frontend/src/App.js:336 | no task is in both urgency lists |
| `Views.UrgencyListsCoverLive` | Planify/frontend/src/App.js:455 | below the cap, every live task is in one of the urgency lists |
| `Views.NotLiveIsHidden` | Planify/frontend/src/App.js:419 | a task whose `delFlg` is not "N" is in none of the three lists |
| `Views.AgendaMultiplicity` | Planify/frontend/src/App.js:419 | the agenda is untruncated: each live task due today occurs as often as in the list |
| `Views.AgendaKeepsOrder` | Planify/frontend/src/App.js:419 | the agenda of a concatenation is the concatenation of the agendas |
| `Views.CriticalKeepsOrder` | Planify/frontend/src/App.js:336-337 | the critical list of `a + b` is a prefix of the critical tasks of `a` followed by those of `b` |
| `Stats.Band` | Planify/frontend/src/App.js:49-51 | the result is a multiple of 10 in `[0,100]`; it is the least multiple of ten at or above `100*done/total`; it is 0 iff nothing is done; it is 100 iff more than 9/10 are done |
| `Stats.BandBounds` | Planify/frontend/src/App.js:51 | the integer ceiling `q` of `10*done/total` satisfies `(q-1)*total < 10*done <= q*total` |
| `Stats.Percentage` | Planify/frontend/src/App.js:45-52 | 0 when no task is due today and not deleted; otherwise the banded share of the completed ones, with the same bounds and iff's as `Band`; all done gives 100 |
| `Stats.OneOfThreeShowsForty` | Planify/frontend/src/App.js:48-51 | one of three tasks done shows 40 |
| `Stats.NineteenOfTwentyShowsHundred` | Planify/frontend/src/App.js:51 | 19 of 20 done already shows 100 |
| `Stats.CompletedOnSnoc` | Planify/frontend/src/App.js:111-115 | one more task raises its own day's count by one if completed, and no other count |
| `Stats.CountCompletedTasks` | Planify/frontend/src/App.js:109-117 | after the loop, every day's counter (0 when absent) is the number of completed tasks due that day; only such days have entries |
| `Stats.InWindow` | Planify/frontend/src/App.js:96-107 | keeps the tasks due in `today-2..today+2`, whatever their `delFlg` |
| `Stats.WindowKeepsCounts` | Planify/frontend/src/App.js:96-107 | restricting to the window `today-2..today+2` changes no count of a day inside the window |
| `Stats.Histogram` | Planify/frontend/src/App.js:119-137 | exactly 5 labels and 5 counts; entry `k` is day `today-2+k`, in chronological order; count `k` is the number of completed tasks due that day |
| `Stats.OutsideWindowIgnored` | Planify/frontend/src/App.js:106 | a task that is not completed, or is due outside the window, adds nothing to any bar |
| `Stats.DeletedStillCounted` | Planify/frontend/src/App.js:112 | a completed task flagged deleted still adds one to its day |
| `Stats.HistogramWindowScenario` | Planify/frontend/src/App.js:126-136 | completed tasks on `today-1` and `today+4` give bars 0,1,0,0,0 |
| `Cache.Initial` | Planify/frontend/src/App.js:22-23 | an empty task list and a gauge of 0, which is the percentage of the empty list on any day |
| `Cache.AppendTask` | Planify/frontend/src/App.js:169 | the old list followed by exactly one new element |
| `Cache.CompleteById` | Planify/frontend/src/App.js:190-192 | same length and order; `compFlg` becomes "Y" exactly where `ids` matches; no other field of any task changes |
| `Cache.RemoveById` | Planify/frontend/src/App.js:211 | a task is kept iff it was in the list and does not carry the id |
| `Cache.FetchTasks` | Planify/frontend/src/App.js:37-58 | on success the list becomes the server's and the gauge is its `Percentage`; on failure nothing changes |
| `Cache.HandleSubmit` | Planify/frontend/src/App.js:158-178 | on success exactly one task is appended at the end; on failure the state is unchanged; the gauge never changes |
| `Cache.HandleComplete` | Planify/frontend/src/App.js:180-199 | on success only matching tasks change, and only in `compFlg`; on failure the state is unchanged; the gauge never changes |
| `Cache.HandleDelete` | Planify/frontend/src/App.js:201-218 | on success no task with the id remains and every other task stays; on failure the state is unchanged; the gauge never changes |
| `Cache.CompleteByIdIdempotent` | Planify/frontend/src/App.js:191 | completing twice equals completing once |
| `Cache.RemoveByIdKeepsOrder` | Planify/frontend/src/App.js:211 | the remaining tasks keep their relative order |
| `Cache.RemoveByIdKeepsOthers` | Planify/frontend/src/App.js:211 | every other task keeps its multiplicity |
| `Cache.CompleteThenDelete` | Planify/frontend/src/App.js:190-211 | a confirmed complete and then delete leaves no task with the id, and the gauge as it was |
| `Cache.StaleGauge` | Planify/frontend/src/App.js:45-54 | one pending task due today is loaded (gauge 0) and then completed: the gauge stays 0 while the new list's percentage is 100 |
| `Server.TaskById` | Planify/planEntry/views.py:9-13 | a record comes back iff an id is given and stored, and it is the stored one |
| `Server.GetResponse` | Planify/planEntry/views.py:34-46 | without an id, all tasks; with one, exactly the tasks of that level, and 404 iff there are none |
| `Server.FlagUpdate` | Planify/planEntry/views.py:70-77 | an update exists iff the body sets a flag to "Y"; `delFlg` wins over `compFlg`; each branch writes "Y" into its own flag only |
| `Server.PutOutcome` | Planify/planEntry/views.py:61-86 | 404 and no change for a missing id; 200 iff stored and the body sets a flag to "Y"; `Delegated` iff stored and the body sets neither flag; on 200 only that record changes, in the chosen flag (`delFlg` first); keys are unchanged |
| `Server.DeleteOutcome` | Planify/planEntry/views.py:89-94 | 404 and no change for a missing id; otherwise 200, exactly that key removed, every other entry untouched |
| `Server.ApiOutcome` | Planify/planEntry/views.py:21-31 | any other method gives 405 and no change; GET answers `GetResponse` and does not change the table; POST answers `Delegated`; PUT and DELETE go to their handlers |
| `Server.PutKeepsKeyed` | Planify/planEntry/views.py:70-77 | a flag PUT keeps each record stored under its own `ids` |
| `Server.PutFlagsOnlyRise` | Planify/planEntry/views.py:70-77 | after a flag PUT, a flag already "Y" stays "Y" |
| `Server.PutIdempotent` | Planify/planEntry/views.py:70-77 | sending a flag PUT twice gives the same response and table as sending it once |
| `Server.CompleteThenSoftDelete` | Planify/planEntry/views.py:70-77 | a compFlg PUT and then a delFlg PUT both give 200; the record remains with both flags "Y" |
| `Server.TaskTable.HandlePut` | Planify/planEntry/views.py:61-77 | the in-place update of the looked-up record, saved under its `ids`, matches `PutOutcome` and keeps the table keyed |
| `Server.TaskTable.HandleDelete` | Planify/planEntry/views.py:89-94 | the in-place delete matches `DeleteOutcome` and keeps the table keyed |
| `Server.TaskTable.AddTaskApi` | Planify/planEntry/views.py:20-31 | the endpoint's response and new table match `ApiOutcome` |

## Left out

- Network calls (`fetch`), `alert`, `console.error` and async ordering are left out. Each request is replaced by its outcome, given as a parameter. Two overlapping handlers racing on the captured `tasks` list are not modelled.
- The temperature and clock effects (App.js:63-93) are left out. They are timers and I/O that never touch the tasks.
- JSX markup, Chart.js drawing, routing and the history page are left out. They are presentation only.
- The JavaScript `Date`, `toISOString` and time zones are left out. The histogram's `new Date()` and the render-time `currentDate` are taken to be the same day. The labels' `toLocaleDateString` is the parameter `format`.
- Stats.Percentage: uses exact integers for `Math.ceil((c / t) * 100 / 10) * 10`. Where `10*c/t` is an exact integer, floating-point rounding could push the JavaScript result one band higher. This was not explored.
- Cache.HandleSubmit: the appended value is whatever JSON the server returned. The server's POST answers with a message body, not the stored record. That value is not modelled. The form keeps its values after a submit: `handleSubmit` does not reset it.
- The request body parsing (`JSONParser`) and the `AddTaskSerializers` paths are left out. This covers POST (views.py:49-58) and the full update of PUT (views.py:79-84). Their validation rules are not part of this model.
- Server.PutOutcome: for a stored id whose body sets neither flag to "Y", it answers `Delegated` and returns the table as it was. That table is a placeholder: the serializer's full update can rewrite any field, including writing "N" into either flag. No lemma states anything about it.
- Server.ApiOutcome: for POST it answers `Delegated` and returns the table as it was. That table is a placeholder: a valid POST inserts a record (views.py:52-55), which is not modelled.
- Server.TaskTable.HandlePut, Server.TaskTable.AddTaskApi: they match the placeholder outcomes above, so on the serializer paths they leave the table unchanged, unlike the program.
- The exception-to-500 paths, `csrf_exempt` and the JSON response bodies are left out. Only status codes are modelled.
- The Django ORM is a `map` from `ids` to task. GET results are sets, because the query order is unspecified.
