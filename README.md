# Task list server: request handlers

The server keeps a list of to-do tasks in one JSON file. A mutating request that succeeds loads
the whole task array, changes it in memory, writes the whole array back, and answers with a
status and a JSON body. On a 400 or 404 nothing is written; a rejected create does not even load
the array. The model returns the unchanged array in those cases. This project models that
in-memory step of the three mutating handlers and the routing test of the catch-all GET, and
proves what each handler does to the array and what it answers.

- `js.dfy` (module `Js`) holds the few JavaScript semantics the handlers depend on:
  - the values a parsed JSON body can hold;
  - truthiness (`!x`, `!!x`) and `typeof`;
  - the destructuring default;
  - `String.prototype.trim`, over the ECMAScript white-space and line-terminator characters;
  - `startsWith`.
- `tasks.dfy` (module `Tasks`) holds the stored `Task` record and the two array searches the
  handlers use:
  - `findIndex` by id, as `FindIndex`;
  - `filter` by id, as `RemoveId`.
  The lemmas in this file state what those two searches keep and what they drop.
- `server.dfy` (module `Server`) holds the handlers:
  - `TaskArray` is the loaded array. POST and PUT change it in place, as the source does with
    `push` and field assignments.
  - DELETE builds a new array with `filter`, so it is a function from the old array to the new
    array and the response.
  - The catch-all GET decides between a JSON 404 and the entry page.
  - `Scenario` walks one task through create, update, delete and a second delete.

The request body is a `Body` of two `JsValue` fields, `title` and `done`; a field the client did
not send is `Undefined`. The new task's UUID and the current ISO time are parameters.

Two places where the code does less than one would expect of a task list; the model follows
the code:
- The create guard checks the title before it is trimmed. A title of only white space is
  accepted and stored as the empty string (`BlankTitleStoredEmpty`). An update can also store
  an empty title. Titles are evidently meant to be non-empty, but stored titles are not
  guaranteed to be.
- The route comment at server.js:76 says delete removes "a task", but the filter at server.js:80
  removes every task with the id, not only the first one.

## Model

`Truthy`, `TypeOf`, `WithDefault`, `StartsWith` and `RejectsTitle` model the `!` and `!!`
operators, `typeof`, the destructuring default `done = false` (server.js:51), `startsWith`
(server.js:88) and the create guard (server.js:52). They are definitions with no
contract of their own; the members below state their properties (`DoneDefaultInert` for the
default).

| member | source | states |
|---|---|---|
| Js.DoneDefaultInert | server.js:51-56 | The `done = false` default never changes the stored `done`: after the `!!` coercion an omitted `done` is false either way. |
| Js.Trim | server.js:56 | The trimmed title is no longer than the input. It is empty exactly when the input is all white space. Otherwise it neither starts nor ends with white space. |
| Js.TrimIsInfix | server.js:56 | The trimmed title is a contiguous part of the input with only white space before and after it, so trimming removes nothing but leading and trailing white space. |
| Js.TrimIdempotent | server.js:69 | Trimming an already trimmed title changes nothing. |
| Tasks.FindIndex | server.js:67 | The result is -1 exactly when no task has the id. Otherwise it is the position of a task with the id, and no earlier task has it. |
| Tasks.RemoveId | server.js:80 | The filtered array is no longer than the input and contains no task with the id. |
| Tasks.RemoveIdSameLengthIff | server.js:80-81 | The filtered array has the original length exactly when no task has the id; this is the test the delete handler uses for 404. |
| Tasks.RemoveIdCount | server.js:80 | Every task with the id is dropped. Every other task occurs in the result exactly as often as in the input. |
| Tasks.RemoveIdAppend | server.js:80 | Filtering a concatenation is the concatenation of the filtered parts, so the kept tasks stay in their original order. |
| Tasks.RemoveIdNoMatch | server.js:80-81 | An array with no task of the id is returned unchanged. |
| Tasks.RemoveIdHasId | server.js:80 | No task with the id is left after filtering. Every other id is present afterwards exactly when it was present before. |
| Server.RejectsTitleIff | server.js:52 | The create guard rejects a title exactly when it is not a non-empty string (undefined, null, a boolean, a number, an array, an object or `""`). |
| Server.NewTask | server.js:51-56 | The created task has the given id and creation time and no `updatedAt`. Its title is the trimmed input. Its `done` is the truthiness of the sent value, and false when the value was omitted. |
| Server.Patched | server.js:69-71 | The title is replaced by the trimmed value only when a string was sent. `done` is replaced only when a boolean was sent. Otherwise the old values stay. `updatedAt` is always set to the current time. `id` and `createdAt` never change. |
| Server.PatchedIdempotent | server.js:69-71 | Applying the same update twice at the same time gives the same task as applying it once. |
| Server.PatchedOneField | server.js:69-71 | An update that sends only one of the two fields leaves the other alone. An update that sends neither only sets `updatedAt`. |
| Server.TaskArray.constructor | server.js:55 | The loaded array is the one the handler works on. |
| Server.TaskArray.Create | server.js:50-60 | The answer is 400 exactly when the guard rejects the title. On a rejection the array is unchanged and the error is "Invalid title". Otherwise: the array grows by one; every earlier task is unchanged; the new last task is `NewTask` of the input; the answer is 201 with that task. |
| Server.TaskArray.Update | server.js:63-74 | The answer is 404 exactly when no task has the id; the array is then unchanged and the error is "Task not found". Otherwise only the first task with the id is replaced, by `Patched` of itself, and the answer is 200 with the new task. |
| Server.Delete | server.js:77-84 | The answer is 404 exactly when no task has the id, with the array unchanged. Otherwise the new array is the filtered one, strictly shorter, and the answer is `{ success: true }`. |
| Server.DeleteTwiceNotFound | server.js:77-84 | After a delete no task has the id. A second delete answers 404 and `findIndex` finds nothing. Every other id is as present as before. |
| Server.CreateThenDelete | server.js:57-83 | Deleting the id of a task just appended succeeds. It leaves the earlier tasks minus those with that id, in order. |
| Server.Fallback | server.js:87-90 | An unmatched GET answers a JSON 404 "Not found" exactly when its path starts with `/api/`. Every other path gets the entry page. |
| Server.BlankTitleStoredEmpty | server.js:52-56 | A non-empty title made only of white space passes the guard, and the task is stored with an empty title. |

## Left out

- Reading and writing the data file, including creating the file when it is missing and
  swallowing read and write errors (server.js:18-39). The array loaded for a request is the
  `TaskArray` constructor's argument. On a 400 or 404 nothing is written; the model returns the
  unchanged array instead. On success the array the handler saves is the state after the method,
  or `Delete`'s `tasks`.
- JSON parsing and serialisation. Stored records are assumed to be well-formed `Task` values,
  and the response body is a `Payload` value rather than text.
- `uuidv4()` and `new Date().toISOString()` are parameters. Ids are not assumed unique, and
  nothing is claimed about their format.
- GET /api/tasks (server.js:44-47) returns the loaded array unchanged, so it has no model of its
  own.
- Express, the body parser, CORS, static file serving and `app.listen` (server.js:2-15, 93-95).
  The entry page sent by `sendFile` is the payload `IndexPage` with status 200.
- Interleaved requests, and the lost update they can cause between one request's load and
  another's save: concurrency is outside the model.
- The browser client in `public/main.js` (DOM, `fetch`, prompts) is not part of this model.
- Arrays and objects in a request body carry no contents, because the handlers only test their
  truthiness and `typeof`. Numbers are exact reals: JSON cannot produce NaN, and only the
  comparison with zero matters.
- JavaScript strings are sequences of UTF-16 code units, while a Dafny `string` is a sequence of
  Unicode scalar values, so a lone surrogate that a JSON body can carry has no model. `trim` is
  unaffected: every character it removes is a single character of the Basic Multilingual Plane.
