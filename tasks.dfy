/** The stored task records and the two array operations the handlers run on them:
    `Array.prototype.findIndex` by id and `Array.prototype.filter` by id. */
module Tasks {

  datatype Option<T> = None | Some(value: T)

  /** One stored task. `id` comes from a UUID generator and the two timestamps from the
      clock, as ISO-8601 text; `updatedAt` is absent until the first update. */
  datatype Task = Task(id: string, title: string, done: bool, createdAt: string, updatedAt: Option<string>)

  predicate HasId(tasks: seq<Task>, id: string)
  {
    exists k :: 0 <= k < |tasks| && tasks[k].id == id
  }

  /** `tasks.findIndex(t => t.id === id)`: the position of the first task with that id, or -1. */
  function FindIndex(tasks: seq<Task>, id: string): (r: int)
    ensures -1 <= r < |tasks|
    ensures r == -1 <==> !HasId(tasks, id)
    ensures r >= 0 ==> tasks[r].id == id && forall k :: 0 <= k < r ==> tasks[k].id != id
  {
    if tasks == [] then -1
    else if tasks[0].id == id then 0
    else
      var r := FindIndex(tasks[1..], id);
      assert forall k :: 1 <= k < |tasks| ==> tasks[1..][k - 1] == tasks[k];
      if r == -1 then -1 else r + 1
  }

  /** `tasks.filter(t => t.id !== id)`: every task whose id differs, in the original order. */
  function RemoveId(tasks: seq<Task>, id: string): (r: seq<Task>)
    ensures |r| <= |tasks|
    ensures forall k :: 0 <= k < |r| ==> r[k].id != id
  {
    if tasks == [] then []
    else
      var rest := RemoveId(tasks[1..], id);
      if tasks[0].id == id then rest else [tasks[0]] + rest
  }

  /** Filtering keeps the length exactly when no task has the id: the delete handler's test. */
  lemma {:induction false} RemoveIdSameLengthIff(tasks: seq<Task>, id: string)
    ensures |RemoveId(tasks, id)| == |tasks| <==> !HasId(tasks, id)
  {
    if tasks != [] {
      RemoveIdSameLengthIff(tasks[1..], id);
      assert HasId(tasks, id) <==> tasks[0].id == id || HasId(tasks[1..], id) by {
        if HasId(tasks, id) && tasks[0].id != id {
          var k :| 0 <= k < |tasks| && tasks[k].id == id;
          assert tasks[1..][k - 1].id == id;
        }
        if HasId(tasks[1..], id) {
          var k :| 0 <= k < |tasks| - 1 && tasks[1..][k].id == id;
          assert tasks[k + 1].id == id;
        }
      }
    }
  }

  lemma RemoveIdCons(t: Task, rest: seq<Task>, id: string)
    ensures RemoveId([t] + rest, id) == (if t.id == id then [] else [t]) + RemoveId(rest, id)
  {
    assert ([t] + rest)[0] == t && ([t] + rest)[1..] == rest;
  }

  /** Filtering distributes over concatenation: the relative order of the kept tasks is the original one. */
  lemma {:induction false} RemoveIdAppend(a: seq<Task>, b: seq<Task>, id: string)
    ensures RemoveId(a + b, id) == RemoveId(a, id) + RemoveId(b, id)
  {
    if a == [] {
      assert a + b == b;
    } else {
      var first, rest := a[0], a[1..];
      var head := if first.id == id then [] else [first];
      assert RemoveId(a + b, id) == head + RemoveId(rest + b, id) by {
        assert a + b == [first] + (rest + b);
        RemoveIdCons(first, rest + b, id);
      }
      assert RemoveId(a, id) == head + RemoveId(rest, id) by {
        assert a == [first] + rest;
        RemoveIdCons(first, rest, id);
      }
      RemoveIdAppend(rest, b, id);
      assert head + (RemoveId(rest, id) + RemoveId(b, id)) == (head + RemoveId(rest, id)) + RemoveId(b, id);
    }
  }

  /** Every task with the id is dropped, and every other task is kept as often as it occurs. */
  lemma {:induction false} RemoveIdCount(tasks: seq<Task>, id: string, t: Task)
    ensures multiset(RemoveId(tasks, id))[t] == if t.id == id then 0 else multiset(tasks)[t]
  {
    if tasks != [] {
      var rest := tasks[1..];
      RemoveIdCount(rest, id, t);
      assert multiset(tasks) == multiset{tasks[0]} + multiset(rest) by {
        assert tasks == [tasks[0]] + rest;
      }
      if tasks[0].id != id {
        assert multiset(RemoveId(tasks, id)) == multiset{tasks[0]} + multiset(RemoveId(rest, id));
      }
    }
  }

  /** A collection without the id is left exactly as it was. */
  lemma {:induction false} RemoveIdNoMatch(tasks: seq<Task>, id: string)
    requires !HasId(tasks, id)
    ensures RemoveId(tasks, id) == tasks
  {
    if tasks != [] {
      assert forall k :: 0 <= k < |tasks| - 1 ==> tasks[1..][k] == tasks[k + 1];
      RemoveIdNoMatch(tasks[1..], id);
    }
  }

  /** Filtering leaves no task with the id, and keeps the presence of every other id unchanged. */
  lemma RemoveIdHasId(tasks: seq<Task>, id: string, other: string)
    ensures !HasId(RemoveId(tasks, id), id)
    ensures other != id ==> (HasId(RemoveId(tasks, id), other) <==> HasId(tasks, other))
  {
    var r := RemoveId(tasks, id);
    if other != id && HasId(tasks, other) {
      var k :| 0 <= k < |tasks| && tasks[k].id == other;
      RemoveIdCount(tasks, id, tasks[k]);
      assert tasks[k] in multiset(tasks);
      assert tasks[k] in r;
      var j :| 0 <= j < |r| && r[j] == tasks[k];
    }
    if other != id && HasId(r, other) {
      var k :| 0 <= k < |r| && r[k].id == other;
      assert r[k] in multiset(r);
      RemoveIdCount(tasks, id, r[k]);
      assert r[k] in tasks;
      var j :| 0 <= j < |tasks| && tasks[j] == r[k];
    }
  }
}
