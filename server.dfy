/** The task endpoint of the planner's server (planEntry/views.py): one view
    function dispatching on the HTTP method over the table of stored tasks,
    keyed by `ids`. Only status codes are modelled, not the JSON bodies. */
module Server {
  import opened Tasks

  /** What a request answers: the serialized tasks of a query (status 200),
      a bare status code, or `Delegated` for the two paths that hand the
      request body to the serializer, which this model leaves out. */
  datatype Response = Listing(tasks: set<Task>) | Status(code: int) | Delegated

  /** The answer to a request together with the table after it. */
  datatype Outcome = Outcome(response: Response, rows: map<string, Task>)

  /** Every stored record sits under its own `ids`. */
  ghost predicate Keyed(rows: map<string, Task>)
  {
    forall k :: k in rows ==> rows[k].ids == k
  }

  /** `'key' in task_data and task_data['key'] == 'Y'`. */
  predicate SetsY(body: map<string, string>, key: string)
  {
    key in body && body[key] == "Y"
  }

  /** `get_task_by_id`: the record stored under the id, or `None` when there
      is none (no id at all finds nothing either). */
  function TaskById(rows: map<string, Task>, id: Option<string>): (r: Option<Task>)
    ensures r.Some? <==> id.Some? && id.value in rows
    ensures r.Some? ==> r.value == rows[id.value]
  {
    if id.Some? && id.value in rows then Some(rows[id.value]) else None
  }

  /** `handle_get_request`: without an id, all tasks; with one, the tasks
      whose `level` equals it, or 404 when there are none. */
  function GetResponse(rows: map<string, Task>, id: Option<string>): (r: Response)
    ensures r.Listing? || r == Status(404)
    ensures id.None? ==> r.Listing? && forall t :: t in r.tasks <==> t in rows.Values
    ensures id.Some? ==> (r == Status(404) <==> forall k :: k in rows ==> rows[k].level != id.value)
    ensures id.Some? && r.Listing? ==>
              forall t :: t in r.tasks <==> t in rows.Values && t.level == id.value
  {
    match id
    case None => Listing(rows.Values)
    case Some(level) =>
      var matching := set t | t in rows.Values && t.level == level;
      if matching != {} then Listing(matching)
      else
        assert forall k :: k in rows ==> rows[k].level != level by {
          forall k | k in rows ensures rows[k].level != level {
            assert rows[k] in rows.Values;
            assert rows[k] !in matching;
          }
        }
        Status(404)
  }

  /** The flag branch of `handle_put_request` on one record: a `delFlg` of
      "Y" in the body wins over a `compFlg` of "Y"; each writes only "Y" into
      its own flag. `None` when the body sets neither flag. */
  function FlagUpdate(t: Task, body: map<string, string>): (r: Option<Task>)
    ensures r.Some? <==> SetsY(body, "delFlg") || SetsY(body, "compFlg")
    ensures SetsY(body, "delFlg") ==> r == Some(t.(delFlg := "Y"))
    ensures !SetsY(body, "delFlg") && SetsY(body, "compFlg") ==> r == Some(t.(compFlg := "Y"))
  {
    if SetsY(body, "delFlg") then Some(t.(delFlg := "Y"))
    else if SetsY(body, "compFlg") then Some(t.(compFlg := "Y"))
    else None
  }

  /** `handle_put_request`: 404 and no change when the id is not stored; a
      flag update of that one record otherwise, answered with 200; the full
      update through the serializer is `Delegated`. */
  function PutOutcome(rows: map<string, Task>, id: Option<string>, body: map<string, string>): (o: Outcome)
    ensures o.rows.Keys == rows.Keys
    ensures (id.None? || id.value !in rows) ==> o == Outcome(Status(404), rows)
    ensures o.response == Status(200) <==>
              id.Some? && id.value in rows && (SetsY(body, "delFlg") || SetsY(body, "compFlg"))
    ensures o.response == Delegated <==>
              id.Some? && id.value in rows && !SetsY(body, "delFlg") && !SetsY(body, "compFlg")
    ensures forall k :: k in rows && Some(k) != id ==> o.rows[k] == rows[k]
    ensures id.Some? && id.value in rows && SetsY(body, "delFlg") ==>
              o.rows[id.value] == rows[id.value].(delFlg := "Y")
    ensures id.Some? && id.value in rows && !SetsY(body, "delFlg") && SetsY(body, "compFlg") ==>
              o.rows[id.value] == rows[id.value].(compFlg := "Y")
  {
    match TaskById(rows, id)
    case None => Outcome(Status(404), rows)
    case Some(task) =>
      match FlagUpdate(task, body)
      case Some(updated) => Outcome(Status(200), rows[id.value := updated])
      case None => Outcome(Delegated, rows)
  }

  /** `handle_delete_request`: 404 and no change when the id is not stored;
      otherwise that one record is removed and the rest stay as they were. */
  function DeleteOutcome(rows: map<string, Task>, id: Option<string>): (o: Outcome)
    ensures (id.None? || id.value !in rows) ==> o == Outcome(Status(404), rows)
    ensures id.Some? && id.value in rows ==>
              o.response == Status(200) && o.rows.Keys == rows.Keys - {id.value}
    ensures forall k :: k in o.rows ==> k in rows && o.rows[k] == rows[k]
  {
    match TaskById(rows, id)
    case None => Outcome(Status(404), rows)
    case Some(_) => Outcome(Status(200), rows - {id.value})
  }

  /** `addTaskApi`: dispatch on the request method; any method other than
      GET, POST, PUT and DELETE is answered with 405 and changes nothing. */
  function ApiOutcome(rows: map<string, Task>, verb: string, id: Option<string>, body: map<string, string>): (o: Outcome)
    ensures verb !in {"GET", "POST", "PUT", "DELETE"} ==> o == Outcome(Status(405), rows)
    ensures verb == "GET" ==> o == Outcome(GetResponse(rows, id), rows)
    ensures verb == "POST" ==> o.response == Delegated
    ensures verb == "PUT" ==> o == PutOutcome(rows, id, body)
    ensures verb == "DELETE" ==> o == DeleteOutcome(rows, id)
  {
    if verb == "GET" then Outcome(GetResponse(rows, id), rows)
    else if verb == "POST" then Outcome(Delegated, rows)
    else if verb == "PUT" then PutOutcome(rows, id, body)
    else if verb == "DELETE" then DeleteOutcome(rows, id)
    else Outcome(Status(405), rows)
  }

  /** A flag PUT keeps every record under its own id. */
  lemma PutKeepsKeyed(rows: map<string, Task>, id: Option<string>, body: map<string, string>)
    requires SetsY(body, "delFlg") || SetsY(body, "compFlg")
    requires Keyed(rows)
    ensures Keyed(PutOutcome(rows, id, body).rows)
  {
  }

  /** The flag branches only ever write "Y": after a flag PUT, a flag that
      was "Y" is still "Y". */
  lemma PutFlagsOnlyRise(rows: map<string, Task>, id: Option<string>, body: map<string, string>, k: string)
    requires SetsY(body, "delFlg") || SetsY(body, "compFlg")
    requires k in rows
    ensures rows[k].delFlg == "Y" ==> PutOutcome(rows, id, body).rows[k].delFlg == "Y"
    ensures rows[k].compFlg == "Y" ==> PutOutcome(rows, id, body).rows[k].compFlg == "Y"
  {
  }

  /** Sending the same flag PUT twice answers the same and leaves the table
      as sending it once does. */
  lemma PutIdempotent(rows: map<string, Task>, id: Option<string>, body: map<string, string>)
    requires SetsY(body, "delFlg") || SetsY(body, "compFlg")
    ensures var once := PutOutcome(rows, id, body);
            PutOutcome(once.rows, id, body) == once
  {
  }

  /** The client's complete and then delete, both confirmed by the server:
      the record is still stored, soft-deleted, with both flags "Y". */
  lemma CompleteThenSoftDelete(rows: map<string, Task>, id: string)
    requires id in rows
    ensures var completed := PutOutcome(rows, Some(id), map["compFlg" := "Y"]);
            var deleted := PutOutcome(completed.rows, Some(id), map["delFlg" := "Y"]);
            && completed.response == Status(200) && deleted.response == Status(200)
            && id in deleted.rows
            && deleted.rows[id] == rows[id].(compFlg := "Y", delFlg := "Y")
  {
  }

  /** The stored table, changed in place by the PUT and DELETE handlers. */
  class TaskTable {
    var rows: map<string, Task>

    ghost predicate Valid()
      reads this
    {
      Keyed(rows)
    }

    constructor (initial: map<string, Task>)
      requires Keyed(initial)
      ensures Valid() && rows == initial
    {
      rows := initial;
    }

    /** `handle_put_request`: looks the task up, sets one flag on the record
      and saves it back under its own id. */
    method HandlePut(id: Option<string>, body: map<string, string>) returns (r: Response)
      requires Valid()
      modifies this
      ensures Valid()
      ensures Outcome(r, rows) == PutOutcome(old(rows), id, body)
    {
      var task := TaskById(rows, id);
      if task.None? {
        return Status(404);
      }
      var record := task.value;
      if SetsY(body, "delFlg") {
        record := record.(delFlg := "Y");
        rows := rows[record.ids := record];
        return Status(200);
      } else if SetsY(body, "compFlg") {
        record := record.(compFlg := "Y");
        rows := rows[record.ids := record];
        return Status(200);
      }
      return Delegated;
    }

    /** `handle_delete_request`: looks the task up and deletes its record. */
    method HandleDelete(id: Option<string>) returns (r: Response)
      requires Valid()
      modifies this
      ensures Valid()
      ensures Outcome(r, rows) == DeleteOutcome(old(rows), id)
    {
      var task := TaskById(rows, id);
      if task.None? {
        return Status(404);
      }
      rows := rows - {task.value.ids};
      return Status(200);
    }

    /** `addTaskApi`: the endpoint itself. */
    method AddTaskApi(verb: string, id: Option<string>, body: map<string, string>) returns (r: Response)
      requires Valid()
      modifies this
      ensures Valid()
      ensures Outcome(r, rows) == ApiOutcome(old(rows), verb, id, body)
    {
      if verb == "GET" {
        r := GetResponse(rows, id);
      } else if verb == "POST" {
        r := Delegated;
      } else if verb == "PUT" {
        r := HandlePut(id, body);
      } else if verb == "DELETE" {
        r := HandleDelete(id);
      } else {
        r := Status(405);
      }
    }
  }
}
