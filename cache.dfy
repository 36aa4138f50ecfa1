/** The client's task cache in App.js and the handlers that change it.
    Every request to the server is replaced by its outcome, given as a
    parameter: `None`/`false` is a failed or rejected request, after which
    the cache is left as it was. */
module Cache {
  import opened Tasks
  import Stats

  /** The component state the handlers touch: the `tasks` list and the
      `percentage` shown by the gauge. */
  datatype App = App(tasks: seq<Task>, percentage: nat)

  /** `useState([])` and `useState(0)`: no task cached, and a gauge of 0,
      which agrees with the percentage of the empty list on every day. This
      is also the state a failed first load leaves in place. */
  function Initial(): (a: App)
    ensures a.tasks == [] && a.percentage == 0
    ensures forall today :: a.percentage == Stats.Percentage(a.tasks, today)
  {
    App([], 0)
  }

  /** `[...tasks, newTask]`: the list with one more element at its end. */
  function AppendTask(tasks: seq<Task>, newTask: Task): (r: seq<Task>)
    ensures |r| == |tasks| + 1
    ensures r[..|tasks|] == tasks && r[|tasks|] == newTask
  {
    tasks + [newTask]
  }

  /** `tasks.map(task => task.ids === id ? {...task, compFlg: "Y"} : task)`:
      same length and order; the tasks carrying `id` get `compFlg` "Y" and
      nothing else of any task changes. */
  function CompleteById(tasks: seq<Task>, id: string): (r: seq<Task>)
    ensures |r| == |tasks|
    ensures forall i :: 0 <= i < |tasks| ==>
              r[i].compFlg == if tasks[i].ids == id then "Y" else tasks[i].compFlg
    ensures forall i :: 0 <= i < |tasks| ==> r[i].(compFlg := tasks[i].compFlg) == tasks[i]
  {
    if tasks == [] then []
    else
      var t := tasks[0];
      [if t.ids == id then t.(compFlg := "Y") else t] + CompleteById(tasks[1..], id)
  }

  function OtherId(id: string): Task -> bool
  {
    (t: Task) => t.ids != id
  }

  /** `tasks.filter(task => task.ids !== id)`: no task carries `id`
      afterwards, and every other task is kept. */
  function RemoveById(tasks: seq<Task>, id: string): (r: seq<Task>)
    ensures |r| <= |tasks|
    ensures forall t :: t in r <==> t in tasks && t.ids != id
  {
    Filter(tasks, OtherId(id))
  }

  /** `fetchTasks`: on success the cache becomes exactly the server's list and
      the gauge is set from it; on failure nothing changes. */
  function FetchTasks(app: App, response: Option<seq<Task>>, today: int): (r: App)
    ensures response.None? ==> r == app
    ensures response.Some? ==> r.tasks == response.value
    ensures response.Some? ==> r.percentage == Stats.Percentage(response.value, today)
  {
    match response
    case None => app
    case Some(data) => App(data, Stats.Percentage(data, today))
  }

  /** `handleSubmit`: on success the returned task is appended; the gauge is
      not recomputed. */
  function HandleSubmit(app: App, response: Option<Task>): (r: App)
    ensures r.percentage == app.percentage
    ensures response.None? ==> r == app
    ensures response.Some? ==> |r.tasks| == |app.tasks| + 1 && r.tasks[..|app.tasks|] == app.tasks
    ensures response.Some? ==> r.tasks[|app.tasks|] == response.value
  {
    match response
    case None => app
    case Some(newTask) => app.(tasks := AppendTask(app.tasks, newTask))
  }

  /** `handleComplete`: on success the tasks carrying `taskId` are marked
      completed in place; the gauge is not recomputed. */
  function HandleComplete(app: App, taskId: string, ok: bool): (r: App)
    ensures r.percentage == app.percentage
    ensures !ok ==> r == app
    ensures ok ==> |r.tasks| == |app.tasks|
    ensures ok ==> forall i :: 0 <= i < |app.tasks| && app.tasks[i].ids == taskId ==>
                     r.tasks[i] == app.tasks[i].(compFlg := "Y")
    ensures ok ==> forall i :: 0 <= i < |app.tasks| && app.tasks[i].ids != taskId ==>
                     r.tasks[i] == app.tasks[i]
  {
    if ok then app.(tasks := CompleteById(app.tasks, taskId)) else app
  }

  /** `handleDelete`: on success the tasks carrying `taskId` leave the cache
      altogether; the gauge is not recomputed. */
  function HandleDelete(app: App, taskId: string, ok: bool): (r: App)
    ensures r.percentage == app.percentage
    ensures !ok ==> r == app
    ensures ok ==> forall t :: t in r.tasks <==> t in app.tasks && t.ids != taskId
  {
    if ok then app.(tasks := RemoveById(app.tasks, taskId)) else app
  }

  /** Completing the same id twice gives the list that completing it once gives. */
  lemma CompleteByIdIdempotent(tasks: seq<Task>, id: string)
    ensures CompleteById(CompleteById(tasks, id), id) == CompleteById(tasks, id)
  {
  }

  /** Deleting keeps the relative order of the remaining tasks: removing from
      a concatenation is removing from each part. */
  lemma RemoveByIdKeepsOrder(a: seq<Task>, b: seq<Task>, id: string)
    ensures RemoveById(a + b, id) == RemoveById(a, id) + RemoveById(b, id)
  {
    FilterAppend(a, b, OtherId(id));
  }

  /** Deleting keeps every other task as often as it occurred before. */
  lemma RemoveByIdKeepsOthers(tasks: seq<Task>, id: string, t: Task)
    requires t.ids != id
    ensures multiset(RemoveById(tasks, id))[t] == multiset(tasks)[t]
  {
    FilterMultiplicity(tasks, OtherId(id), t);
  }

  /** Completing and then deleting `id`, both confirmed, leaves no task with
      that id in the cache, and the gauge where the last load put it. */
  lemma CompleteThenDelete(app: App, id: string)
    ensures var r := HandleDelete(HandleComplete(app, id, true), id, true);
            (forall t :: t in r.tasks ==> t.ids != id) && r.percentage == app.percentage
  {
  }

  /** The gauge goes stale: one pending task due today, loaded, then completed.
      The gauge still shows 0 although the percentage of the new list is 100. */
  lemma StaleGauge(today: int)
    ensures var t := Task("1", "Plan", "Write plan", today, "C", "N", "N");
            var loaded := FetchTasks(Initial(), Some([t]), today);
            var done := HandleComplete(loaded, "1", true);
            && loaded.percentage == 0
            && done.percentage == 0
            && Stats.Percentage(done.tasks, today) == 100
  {
  }
}
