/** The task record of the app (`TaskData`) and the list operations that both
    task stores perform on it: find the first task with an id, flip its
    completion, replace it, and the two ways of deleting. */
module Tasks {
  import opened Common

  /** A task. `dueDate` is milliseconds since the epoch; `order` is the manual
      position within one due date, 0 until the task is reordered. */
  datatype Task = Task(
    id: string,
    name: string,
    description: string,
    dueDate: int,
    completed: bool,
    tags: seq<string>,
    order: int)

  /** Why a store operation failed, by the message it throws. */
  datatype Error =
    | TaskNotFound               // "Task not found"
    | TaskWithIdNotFound(id: string)  // "Task with id <id> not found"
    | Unparsable                 // `JSON.parse` rejected the stored text

  datatype Result<T> = Ok(value: T) | Err(error: Error)

  /** The settled state of a `Promise<void>`. */
  datatype Outcome = Done | Failed(error: Error)

  function HasId(id: string): Task -> bool {
    (t: Task) => t.id == id
  }

  function LacksId(id: string): Task -> bool {
    (t: Task) => t.id != id
  }

  function IsIncomplete(t: Task): bool { !t.completed }

  function IsCompleted(t: Task): bool { t.completed }

  function OrderOf(t: Task): int { t.order }

  /** The incomplete and the completed tasks split a list: each task is in
      exactly one of the two, as often as in the list. */
  lemma CompletionPartition(ts: seq<Task>)
    ensures multiset(Filter(ts, IsIncomplete)) + multiset(Filter(ts, IsCompleted)) == multiset(ts)
    ensures |Filter(ts, IsIncomplete)| + |Filter(ts, IsCompleted)| == |ts|
    ensures forall t :: t in Filter(ts, IsIncomplete) <==> t in ts && !t.completed
    ensures forall t :: t in Filter(ts, IsCompleted) <==> t in ts && t.completed
  {
    FilterComplement(ts, IsIncomplete, IsCompleted);
    forall t ensures t in Filter(ts, IsIncomplete) <==> t in ts && !t.completed {
      FilterMembers(ts, IsIncomplete, t);
    }
    forall t ensures t in Filter(ts, IsCompleted) <==> t in ts && t.completed {
      FilterMembers(ts, IsCompleted, t);
    }
  }

  function Flipped(t: Task): Task {
    t.(completed := !t.completed)
  }

  predicate Contains(ts: seq<Task>, id: string) {
    exists k | 0 <= k < |ts| :: ts[k].id == id
  }

  /** `k` is the position `findIndex` reports for `id`. */
  predicate IsFirstWithId(ts: seq<Task>, id: string, k: int) {
    0 <= k < |ts| && ts[k].id == id && forall j | 0 <= j < k :: ts[j].id != id
  }

  /** Two lists hold the same ids at the same positions. */
  predicate SameIds(a: seq<Task>, b: seq<Task>) {
    |a| == |b| && forall k | 0 <= k < |a| :: a[k].id == b[k].id
  }

  lemma FirstWithIdSameIds(a: seq<Task>, b: seq<Task>, id: string, k: int)
    requires SameIds(a, b)
    ensures IsFirstWithId(a, id, k) <==> IsFirstWithId(b, id, k)
  {
  }

  /** The first task with `id`, as `find` returns it. */
  function FindById(ts: seq<Task>, id: string): (r: Result<Task>)
    ensures r.Err? <==> !Contains(ts, id)
    ensures r.Err? ==> r.error == TaskNotFound
    ensures r.Ok? ==> exists k :: IsFirstWithId(ts, id, k) && r.value == ts[k]
  {
    match FirstIndex(ts, HasId(id))
    case None => Err(TaskNotFound)
    case Some(i) => Ok(ts[i])
  }

  /** `toggleTaskStatus` on a list: flip `completed` of the first task with
      `id`, or fail with "Task not found". */
  function ToggleStatus(ts: seq<Task>, id: string): (r: Result<seq<Task>>)
    ensures r.Err? <==> !Contains(ts, id)
    ensures r.Err? ==> r.error == TaskNotFound
    ensures r.Ok? ==> |r.value| == |ts|
    ensures r.Ok? ==> forall k | 0 <= k < |ts| ::
      r.value[k] == if IsFirstWithId(ts, id, k) then Flipped(ts[k]) else ts[k]
  {
    match FirstIndex(ts, HasId(id))
    case None => Err(TaskNotFound)
    case Some(i) => Ok(ts[i := Flipped(ts[i])])
  }

  /** Toggling the same id twice restores the list. */
  lemma ToggleTwiceRestores(ts: seq<Task>, id: string)
    requires Contains(ts, id)
    ensures ToggleStatus(ts, id).Ok?
    ensures ToggleStatus(ToggleStatus(ts, id).value, id) == Ok(ts)
  {
    var once := ToggleStatus(ts, id).value;
    assert SameIds(ts, once);
    forall k | 0 <= k < |ts| ensures IsFirstWithId(ts, id, k) <==> IsFirstWithId(once, id, k) {
      FirstWithIdSameIds(ts, once, id, k);
    }
    var twice := ToggleStatus(once, id).value;
    assert twice == ts;
  }

  /** `updateTask` on a list: overwrite the first task whose id is the new
      task's id, or fail with "Task not found". */
  function ReplaceTask(ts: seq<Task>, task: Task): (r: Result<seq<Task>>)
    ensures r.Err? <==> !Contains(ts, task.id)
    ensures r.Err? ==> r.error == TaskNotFound
    ensures r.Ok? ==> |r.value| == |ts|
    ensures r.Ok? ==> forall k | 0 <= k < |ts| ::
      r.value[k] == if IsFirstWithId(ts, task.id, k) then task else ts[k]
  {
    match FirstIndex(ts, HasId(task.id))
    case None => Err(TaskNotFound)
    case Some(i) => Ok(ts[i := task])
  }

  /** Writing back a task that `FindById` returned changes nothing. */
  lemma ReplaceWithFoundIsIdentity(ts: seq<Task>, id: string)
    requires Contains(ts, id)
    ensures FindById(ts, id).Ok?
    ensures ReplaceTask(ts, FindById(ts, id).value) == Ok(ts)
  {
    var t := FindById(ts, id).value;
    var k :| IsFirstWithId(ts, id, k) && t == ts[k];
    forall j | 0 <= j < |ts| ensures IsFirstWithId(ts, t.id, j) <==> j == k {
    }
    assert ReplaceTask(ts, t).value == ts;
  }

  /** The real store's `deleteTask`: drop every task with `id`. */
  function DeleteAll(ts: seq<Task>, id: string): (r: seq<Task>)
    ensures !Contains(r, id)
    ensures multiset(r) <= multiset(ts)
    ensures forall t | t in ts && t.id != id :: t in r
  {
    FilterKept(ts, LacksId(id));
    FilterSubMultiset(ts, LacksId(id));
    forall t | t in ts && t.id != id ensures t in Filter(ts, LacksId(id)) {
      FilterMembers(ts, LacksId(id), t);
    }
    Filter(ts, LacksId(id))
  }

  /** Deleting is idempotent, and deleting an absent id changes nothing. */
  lemma DeleteAllIdempotent(ts: seq<Task>, id: string)
    ensures DeleteAll(DeleteAll(ts, id), id) == DeleteAll(ts, id)
    ensures !Contains(ts, id) ==> DeleteAll(ts, id) == ts
  {
    FilterIdempotent(ts, LacksId(id));
    if !Contains(ts, id) {
      FilterAll(ts, LacksId(id));
    }
  }

  /** Deleting keeps the other tasks in their relative order: deleting from a
      concatenation is deleting from each part. */
  lemma DeleteAllKeepsOrder(a: seq<Task>, b: seq<Task>, id: string)
    ensures DeleteAll(a + b, id) == DeleteAll(a, id) + DeleteAll(b, id)
  {
    FilterAppend(a, b, LacksId(id));
  }

  /** The debug store's `deleteTask`: splice out the first task with `id`, or
      fail with "Task not found". */
  function RemoveFirst(ts: seq<Task>, id: string): (r: Result<seq<Task>>)
    ensures r.Err? <==> !Contains(ts, id)
    ensures r.Err? ==> r.error == TaskNotFound
    ensures r.Ok? ==> exists k :: IsFirstWithId(ts, id, k) && r.value == ts[..k] + ts[k + 1..]
  {
    match FirstIndex(ts, HasId(id))
    case None => Err(TaskNotFound)
    case Some(i) => Ok(ts[..i] + ts[i + 1..])
  }

  lemma {:induction false} ContainsAppend(a: seq<Task>, b: seq<Task>, id: string)
    ensures Contains(a + b, id) <==> Contains(a, id) || Contains(b, id)
  {
    if Contains(a + b, id) {
      var k :| 0 <= k < |a + b| && (a + b)[k].id == id;
      if k >= |a| {
        assert b[k - |a|].id == id;
      }
    }
    if Contains(a, id) {
      var k :| 0 <= k < |a| && a[k].id == id;
      assert (a + b)[k].id == id;
    }
    if Contains(b, id) {
      var k :| 0 <= k < |b| && b[k].id == id;
      assert (a + b)[|a| + k].id == id;
    }
  }

  /** Deleting the only task with `id` from around it. */
  lemma {:induction false} DeleteOnly(a: seq<Task>, x: Task, b: seq<Task>, id: string)
    requires x.id == id && !Contains(a, id) && !Contains(b, id)
    ensures DeleteAll(a + [x] + b, id) == a + b
  {
    var p := LacksId(id);
    assert Filter(a, p) == a by { FilterAll(a, p); }
    assert Filter(b, p) == b by { FilterAll(b, p); }
    assert Filter([x], p) == [] by {
      FilterCons(x, [], p);
      assert [x] + [] == [x];
    }
    FilterAppend(a + [x], b, p);
    FilterAppend(a, [x], p);
    assert Filter(a + [x] + b, p) == a + b;
  }

  /** The two deletes agree exactly when the id occurs once; on an absent id
      the debug store fails where the real store succeeds unchanged, and on a
      repeated id the debug store leaves the later copies in place. */
  lemma DeletesCompared(ts: seq<Task>, id: string)
    ensures !Contains(ts, id) ==> RemoveFirst(ts, id).Err? && DeleteAll(ts, id) == ts
    ensures Contains(ts, id) ==> RemoveFirst(ts, id).Ok?
    ensures RemoveFirst(ts, id).Ok? ==>
      (RemoveFirst(ts, id).value == DeleteAll(ts, id) <==> !Contains(RemoveFirst(ts, id).value, id))
  {
    if !Contains(ts, id) {
      FilterAll(ts, LacksId(id));
    } else {
      assert RemoveFirst(ts, id).Ok?;
      var k :| IsFirstWithId(ts, id, k) && RemoveFirst(ts, id).value == ts[..k] + ts[k + 1..];
      var before, after := ts[..k], ts[k + 1..];
      if !Contains(before + after, id) {
        ContainsAppend(before, after, id);
        assert ts == before + [ts[k]] + after;
        DeleteOnly(before, ts[k], after, id);
      }
    }
  }
}
