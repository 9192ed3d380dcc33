/** The REST handlers of the task server, as transforms of the task array that
    `loadTasks` returns and `saveTasks` writes back. The UUID and the current time are
    parameters. */
module Server {
  import opened Js
  import opened Tasks

  /** The JSON body a handler answers with (or the static entry page). */
  datatype Payload =
    | TaskJson(task: Task)
    | ErrorJson(error: string)
    | SuccessJson
    | IndexPage

  datatype Response = Response(status: int, payload: Payload)

  /** The two fields of a request body the handlers read; a missing field is `Undefined`. */
  datatype Body = Body(title: JsValue, done: JsValue)

  /** The new array to save (or the unchanged one) and the response, for a handler that
      builds a fresh array instead of changing the loaded one. */
  datatype Outcome = Outcome(tasks: seq<Task>, response: Response)

  const NOT_FOUND := Response(404, ErrorJson("Task not found"))

  /** The create handler's guard, `!title || typeof title !== 'string'`: it turns away
      exactly the values that are not a non-empty string. */
  predicate RejectsTitle(title: JsValue)
  {
    !Truthy(title) || TypeOf(title) != StringType
  }

  lemma RejectsTitleIff(title: JsValue)
    ensures RejectsTitle(title) <==> !(title.String? && title.sval != "")
  {
  }

  /** The record the create handler builds: `done` defaults to `false` and is coerced with
      `!!`, so it is the truthiness of whatever was sent; the title is trimmed and may end
      up empty; there is no `updatedAt`. */
  function NewTask(id: string, title: string, done: JsValue, now: string): (t: Task)
    ensures t.id == id && t.createdAt == now && t.updatedAt == None
    ensures t.title == Trim(title)
    ensures t.done == Truthy(done)
  {
    Task(id, Trim(title), Truthy(WithDefault(done, Boolean(false))), now, None)
  }

  /** The task the update handler leaves at the matched position: the title is replaced by
      the trimmed value only when a string was sent, `done` only when a boolean was sent,
      `updatedAt` always; `id` and `createdAt` are kept. */
  function Patched(t: Task, body: Body, now: string): (r: Task)
    ensures r.id == t.id && r.createdAt == t.createdAt && r.updatedAt == Some(now)
    ensures body.title.String? ==> r.title == Trim(body.title.sval)
    ensures !body.title.String? ==> r.title == t.title
    ensures body.done.Boolean? ==> r.done == body.done.bval
    ensures !body.done.Boolean? ==> r.done == t.done
  {
    Task(t.id,
         if TypeOf(body.title) == StringType then Trim(body.title.sval) else t.title,
         if TypeOf(body.done) == BooleanType then body.done.bval else t.done,
         t.createdAt,
         Some(now))
  }

  /** Repeating an update with the same body and time changes nothing more. */
  lemma PatchedIdempotent(t: Task, body: Body, now: string)
    ensures Patched(Patched(t, body, now), body, now) == Patched(t, body, now)
  {
  }

  /** An update whose body omits `done` (or omits the title) leaves that stored field alone;
      one that omits both only stamps `updatedAt`. */
  lemma PatchedOneField(t: Task, title: JsValue, done: JsValue, now: string)
    ensures Patched(t, Body(title, Undefined), now).done == t.done
    ensures Patched(t, Body(Undefined, done), now).title == t.title
    ensures Patched(t, Body(Undefined, Undefined), now) == t.(updatedAt := Some(now))
  {
  }

  /** The array loaded for one request, which the create and update handlers change in place
      before saving it. */
  class TaskArray {
    var tasks: seq<Task>

    /** `loadTasks()`. */
    constructor (loaded: seq<Task>)
      ensures tasks == loaded
    {
      tasks := loaded;
    }

    /** POST /api/tasks: reject a title that is not a non-empty string with 400 and leave the
        array alone; otherwise push one new task at the end and answer 201 with it. */
    method Create(body: Body, newId: string, now: string) returns (response: Response)
      modifies this
      ensures response.status == 400 <==> RejectsTitle(body.title)
      ensures RejectsTitle(body.title) ==>
                tasks == old(tasks) && response.payload == ErrorJson("Invalid title")
      ensures !RejectsTitle(body.title) ==>
                |tasks| == |old(tasks)| + 1 && tasks[..|old(tasks)|] == old(tasks) &&
                tasks[|old(tasks)|] == NewTask(newId, body.title.sval, body.done, now) &&
                response == Response(201, TaskJson(tasks[|old(tasks)|]))
    {
      var done := WithDefault(body.done, Boolean(false));
      if !Truthy(body.title) || TypeOf(body.title) != StringType {
        return Response(400, ErrorJson("Invalid title"));
      }
      var newTask := Task(newId, Trim(body.title.sval), Truthy(done), now, None);
      tasks := tasks + [newTask];
      response := Response(201, TaskJson(newTask));
    }

    /** PUT /api/tasks/:id: answer 404 and leave the array alone when no task has the id;
        otherwise patch the first task with the id in place and answer with it. */
    method Update(id: string, body: Body, now: string) returns (response: Response)
      modifies this
      ensures response.status == 404 <==> !HasId(old(tasks), id)
      ensures !HasId(old(tasks), id) ==> tasks == old(tasks) && response == NOT_FOUND
      ensures HasId(old(tasks), id) ==>
                var i := FindIndex(old(tasks), id);
                tasks == old(tasks)[i := Patched(old(tasks)[i], body, now)] &&
                response == Response(200, TaskJson(tasks[i]))
    {
      var idx := FindIndex(tasks, id);
      if idx == -1 {
        return NOT_FOUND;
      }
      var task := tasks[idx];
      if TypeOf(body.title) == StringType {
        task := task.(title := Trim(body.title.sval));
      }
      if TypeOf(body.done) == BooleanType {
        task := task.(done := body.done.bval);
      }
      task := task.(updatedAt := Some(now));
      assert task == Patched(old(tasks)[idx], body, now);
      tasks := tasks[idx := task];
      response := Response(200, TaskJson(tasks[idx]));
    }
  }

  /** DELETE /api/tasks/:id: filter out every task with the id; when nothing was removed
      answer 404 and keep the array, otherwise save the filtered array and answer success. */
  function Delete(tasks: seq<Task>, id: string): (r: Outcome)
    ensures r.response.status == 404 <==> !HasId(tasks, id)
    ensures !HasId(tasks, id) ==> r.tasks == tasks && r.response == NOT_FOUND
    ensures HasId(tasks, id) ==>
              r.tasks == RemoveId(tasks, id) && r.response == Response(200, SuccessJson) &&
              |r.tasks| < |tasks|
  {
    RemoveIdSameLengthIff(tasks, id);
    var newTasks := RemoveId(tasks, id);
    if |newTasks| == |tasks| then Outcome(tasks, NOT_FOUND)
    else Outcome(newTasks, Response(200, SuccessJson))
  }

  /** After a successful delete no task has the id, so a second delete (and an update) of it
      answers 404, while every other id is as present as before. */
  lemma {:induction false} DeleteTwiceNotFound(tasks: seq<Task>, id: string, other: string)
    ensures !HasId(Delete(tasks, id).tasks, id)
    ensures Delete(Delete(tasks, id).tasks, id).response == NOT_FOUND
    ensures FindIndex(Delete(tasks, id).tasks, id) == -1
    ensures other != id ==> (HasId(Delete(tasks, id).tasks, other) <==> HasId(tasks, other))
  {
    RemoveIdHasId(tasks, id, other);
  }

  /** A task appended by a create can be deleted again: the delete succeeds and leaves what
      the earlier tasks filter to, in order. */
  lemma {:induction false} CreateThenDelete(tasks: seq<Task>, t: Task)
    ensures Delete(tasks + [t], t.id).response == Response(200, SuccessJson)
    ensures Delete(tasks + [t], t.id).tasks == RemoveId(tasks, t.id)
  {
    assert (tasks + [t])[|tasks|].id == t.id;
    RemoveIdAppend(tasks, [t], t.id);
    assert RemoveId([t], t.id) == [] by {
      assert [t][1..] == [];
    }
    assert RemoveId(tasks, t.id) + [] == RemoveId(tasks, t.id);
  }

  /** The catch-all GET: a path under `/api/` that no route matched is a JSON 404, every
      other path gets the client's entry page. */
  function Fallback(path: string): (r: Response)
    ensures r.status == 404 <==> exists rest :: path == "/api/" + rest
    ensures r.status == 404 ==> r.payload == ErrorJson("Not found")
    ensures r.status != 404 ==> r == Response(200, IndexPage)
  {
    if StartsWith(path, "/api/") then
      assert path == "/api/" + path[5..];
      Response(404, ErrorJson("Not found"))
    else
      assert forall rest :: ("/api/" + rest)[..5] == "/api/";
      Response(200, IndexPage)
  }

  /** A title made only of white space passes the create guard and is stored as the empty
      string: the handler checks the title before trimming it. */
  lemma BlankTitleStoredEmpty(title: string, id: string, done: JsValue, now: string)
    requires title != "" && AllSpace(title)
    ensures !RejectsTitle(String(title))
    ensures NewTask(id, title, done, now).title == ""
  {
  }

  /** The life of one task on an empty store: create it, mark it done, delete it, and fail to
      delete it again. */
  method Scenario(id: string, title: string, t0: string, t1: string)
    requires title != ""
  {
    var store := new TaskArray([]);
    assert !RejectsTitle(String(title));
    var created := store.Create(Body(String(title), Undefined), id, t0);
    var made := Task(id, Trim(title), false, t0, None);
    assert NewTask(id, title, Undefined, t0) == made;
    assert created == Response(201, TaskJson(made));
    assert |store.tasks| == 1 && store.tasks[0] == made;
    assert store.tasks == [made];

    var updated := store.Update(id, Body(Undefined, Boolean(true)), t1);
    var marked := Task(id, Trim(title), true, t0, Some(t1));
    assert [made][0].id == id;
    assert FindIndex([made], id) == 0;
    assert Patched(made, Body(Undefined, Boolean(true)), t1) == marked;
    assert store.tasks == [marked];
    assert updated == Response(200, TaskJson(marked));

    var deleted := Delete(store.tasks, id);
    assert [marked][0].id == id;
    assert RemoveId([marked], id) == [] by {
      assert [marked][1..] == [];
    }
    assert deleted.response == Response(200, SuccessJson) && deleted.tasks == [];
    assert Delete(deleted.tasks, id).response == NOT_FOUND;
  }
}
