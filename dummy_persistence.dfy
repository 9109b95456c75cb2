/** The in-memory task store used during development
    (`DummyTaskPersistence`): every operation works on one module-level list,
    seeded with three tasks, that it changes in place. */
module DummyPersistence {
  import opened Common
  import opened Tasks

  /** One day in milliseconds. */
  const DayMillis := 86400000

  /** The three seed tasks. Each record reads the clock afresh while the
      module loads, so `n0`, `n1` and `n2` are the three readings in order:
      bought the day before the first, cleaning at the second, a workout the
      day after the third. The seed records carry no tags and no order. */
  function Seed(n0: int, n1: int, n2: int): (r: seq<Task>)
    ensures |r| == 3
    ensures r[0].dueDate == n0 - DayMillis && r[1].dueDate == n1 && r[2].dueDate == n2 + DayMillis
  {
    [Task("1", "Buy milk", "Get oat milk from store", n0 - DayMillis, true, [], 0),
     Task("2", "Clean room", "Do it before mom visits", n1, false, [], 0),
     Task("3", "Workout", "Leg day \U{1F4AA}", n2 + DayMillis, false, [], 0)]
  }

  /** The seed has distinct ids; only the first task is completed, so the
      incomplete view starts with the other two, in order. */
  lemma SeedViews(n0: int, n1: int, n2: int)
    ensures forall i, j | 0 <= i < j < 3 :: Seed(n0, n1, n2)[i].id != Seed(n0, n1, n2)[j].id
    ensures Filter(Seed(n0, n1, n2), IsCompleted) == [Seed(n0, n1, n2)[0]]
    ensures Filter(Seed(n0, n1, n2), IsIncomplete) == [Seed(n0, n1, n2)[1], Seed(n0, n1, n2)[2]]
  {
    var s := Seed(n0, n1, n2);
    assert s[..0] == [] && s[..3] == s;
    FilterPrefixStep(s, 0, IsCompleted);
    FilterPrefixStep(s, 1, IsCompleted);
    FilterPrefixStep(s, 2, IsCompleted);
    FilterPrefixStep(s, 0, IsIncomplete);
    FilterPrefixStep(s, 1, IsIncomplete);
    FilterPrefixStep(s, 2, IsIncomplete);
  }

  /** Appending a task whose id is new makes it findable by that id. */
  lemma AddedIsFound(ts: seq<Task>, task: Task)
    requires !Contains(ts, task.id)
    ensures FindById(ts + [task], task.id) == Ok(task)
  {
    var s := ts + [task];
    assert HasId(task.id)(s[|ts|]);
    var k := FirstIndex(s, HasId(task.id)).value;
    assert k == |ts|;
  }

  /** The debug store. `dataStore` is the module-level list. */
  class DummyTaskStore {
    var dataStore: seq<Task>

    constructor (n0: int, n1: int, n2: int)
      ensures dataStore == Seed(n0, n1, n2)
    {
      dataStore := Seed(n0, n1, n2);
    }

    /** `getAllTasks`: a shallow copy of the list. */
    method GetAllTasks() returns (r: seq<Task>)
      ensures r == dataStore
    {
      r := dataStore[..];
    }

    /** `getIncompleteTasks`: the incomplete tasks, in store order. */
    method GetIncompleteTasks() returns (r: seq<Task>)
      ensures multiset(r) <= multiset(dataStore)
      ensures forall t :: t in r <==> t in dataStore && !t.completed
      ensures r == Filter(dataStore, IsIncomplete)
    {
      r := Filter(dataStore, IsIncomplete);
      CompletionPartition(dataStore);
      FilterSubMultiset(dataStore, IsIncomplete);
    }

    /** `getCompletedTasks`: the completed tasks, in store order. */
    method GetCompletedTasks() returns (r: seq<Task>)
      ensures multiset(r) <= multiset(dataStore)
      ensures forall t :: t in r <==> t in dataStore && t.completed
      ensures r == Filter(dataStore, IsCompleted)
    {
      r := Filter(dataStore, IsCompleted);
      CompletionPartition(dataStore);
      FilterSubMultiset(dataStore, IsCompleted);
    }

    /** `toggleTaskStatus`: flip the first task with `id` in place, or fail
        with "Task not found" and leave the list alone. */
    method ToggleTaskStatus(id: string) returns (o: Outcome)
      modifies this
      ensures ToggleStatus(old(dataStore), id).Err? ==>
        o == Failed(TaskNotFound) && dataStore == old(dataStore)
      ensures ToggleStatus(old(dataStore), id).Ok? ==>
        o == Done && dataStore == ToggleStatus(old(dataStore), id).value
    {
      var index := FirstIndex(dataStore, HasId(id));
      if index.None? {
        return Failed(TaskNotFound);
      }
      var i := index.value;
      dataStore := dataStore[i := dataStore[i].(completed := !dataStore[i].completed)];
      o := Done;
    }

    /** `addTask`: push the task at the end. */
    method AddTask(task: Task)
      modifies this
      ensures dataStore == old(dataStore) + [task]
    {
      dataStore := dataStore + [task];
    }

    /** `getTaskById`: the first task with `id`, or "Task not found". */
    method GetTaskById(id: string) returns (r: Result<Task>)
      ensures r.Err? <==> !Contains(dataStore, id)
      ensures r.Err? ==> r.error == TaskNotFound
      ensures r.Ok? ==> exists k :: IsFirstWithId(dataStore, id, k) && r.value == dataStore[k]
    {
      var index := FirstIndex(dataStore, HasId(id));
      if index.None? {
        return Err(TaskNotFound);
      }
      r := Ok(dataStore[index.value]);
      assert IsFirstWithId(dataStore, id, index.value);
    }

    /** `updateTask`: overwrite the first task with the new task's id, or
        fail with "Task not found" and leave the list alone. */
    method UpdateTask(task: Task) returns (o: Outcome)
      modifies this
      ensures ReplaceTask(old(dataStore), task).Err? ==>
        o == Failed(TaskNotFound) && dataStore == old(dataStore)
      ensures ReplaceTask(old(dataStore), task).Ok? ==>
        o == Done && dataStore == ReplaceTask(old(dataStore), task).value
    {
      var index := FirstIndex(dataStore, HasId(task.id));
      if index.None? {
        return Failed(TaskNotFound);
      }
      dataStore := dataStore[index.value := task];
      o := Done;
    }

    /** `deleteTask`: splice out the first task with `id`, or fail with
        "Task not found" and leave the list alone. */
    method DeleteTask(id: string) returns (o: Outcome)
      modifies this
      ensures RemoveFirst(old(dataStore), id).Err? ==>
        o == Failed(TaskNotFound) && dataStore == old(dataStore)
      ensures RemoveFirst(old(dataStore), id).Ok? ==>
        o == Done && dataStore == RemoveFirst(old(dataStore), id).value
    {
      var index := FirstIndex(dataStore, HasId(id));
      if index.None? {
        return Failed(TaskNotFound);
      }
      dataStore := dataStore[..index.value] + dataStore[index.value + 1..];
      o := Done;
    }
  }
}
