/** The widget's side of the shared task list: the stored array of
    `TodoTask` records, the filter/sort/prefix pipeline that picks what the
    widget shows, and the widget's own "mark complete" write. */
module WidgetStore {
  import opened Common
  import opened Sorting
  import opened TimeInterval

  /** A decoded `TodoTask`. `dueDate` is in seconds since the epoch. */
  datatype TodoTask = TodoTask(
    id: string,
    name: string,
    description: string,
    dueDate: int,
    completed: bool,
    tags: seq<string>,
    order: int)

  /** `DataStoreRequestOptions`. */
  datatype RequestOptions = RequestOptions(includeOverdue: bool, maxCount: int)

  /** The options `getTasks` uses when given none. */
  const DefaultOptions := RequestOptions(true, 10)

  function DueOf(t: TodoTask): int { t.dueDate }

  function OrderOf(t: TodoTask): int { t.order }

  function IsPending(t: TodoTask): bool { !t.completed }

  function DueByToday(day: Day): TodoTask -> bool {
    (t: TodoTask) => IsTodayOrEarlier(t.dueDate, day)
  }

  function NotOverdue(day: Day): TodoTask -> bool {
    (t: TodoTask) => !IsBeforeToday(t.dueDate, day)
  }

  // `OrderOf`, `HasId` and `IsFirstWithId` mirror the `Tasks` definitions of
  // the same names: the widget's `TodoTask` is a record of its own.
  function HasId(id: string): TodoTask -> bool {
    (t: TodoTask) => t.id == id
  }

  /** `k` is the position `firstIndex(where:)` reports for `id`. */
  predicate IsFirstWithId(ts: seq<TodoTask>, id: string, k: int) {
    0 <= k < |ts| && ts[k].id == id && forall j | 0 <= j < k :: ts[j].id != id
  }

  /** Swift's `prefix(n)`: the first `n` elements, or all when there are fewer. */
  function Prefix<T>(s: seq<T>, n: nat): (r: seq<T>)
    ensures |r| <= n && |r| <= |s| && r == s[..|r|]
    ensures |r| == n || r == s
  {
    if n < |s| then s[..n] else s
  }

  /** The tasks that pass `getTasks`' three filters. */
  function Eligible(all: seq<TodoTask>, options: RequestOptions, day: Day): seq<TodoTask> {
    var current := Filter(Filter(all, IsPending), DueByToday(day));
    if options.includeOverdue then current else Filter(current, NotOverdue(day))
  }

  /** The eligible tasks sorted by due date, then (stably) by `order`. */
  function Arranged(all: seq<TodoTask>, options: RequestOptions, day: Day): seq<TodoTask> {
    SortBy(SortBy(Eligible(all, options, day), DueOf), OrderOf)
  }

  /** What `getTasks` returns: nothing when the stored data is absent or
      does not decode, otherwise the first `maxCount` arranged tasks. */
  function Fetched(stored: Option<seq<TodoTask>>, options: RequestOptions, day: Day): seq<TodoTask>
    requires options.maxCount >= 0
  {
    match stored
    case None => []
    case Some(all) => Prefix(Arranged(all, options, day), options.maxCount)
  }

  /** A task is eligible exactly when it is stored, incomplete, due before
      tomorrow and, unless overdue tasks are wanted, not due before today. */
  lemma EligibleIff(all: seq<TodoTask>, options: RequestOptions, day: Day, t: TodoTask)
    ensures t in Eligible(all, options, day) <==>
      t in all && !t.completed && IsTodayOrEarlier(t.dueDate, day)
      && (options.includeOverdue || !IsBeforeToday(t.dueDate, day))
  {
    var pending := Filter(all, IsPending);
    var current := Filter(pending, DueByToday(day));
    FilterMembers(all, IsPending, t);
    FilterMembers(pending, DueByToday(day), t);
    FilterMembers(current, NotOverdue(day), t);
  }

  /** The arranged tasks are the eligible ones, sorted by `order`. */
  lemma ArrangedPermutes(all: seq<TodoTask>, options: RequestOptions, day: Day)
    ensures multiset(Arranged(all, options, day)) == multiset(Eligible(all, options, day))
    ensures SortedBy(Arranged(all, options, day), OrderOf)
  {
    var e := Eligible(all, options, day);
    assert multiset(SortBy(e, DueOf)) == multiset(e);
  }

  /** `getTasks` returns at most `maxCount` tasks, sorted by `order`, a
      prefix of the arranged list, cut only at `maxCount`; each one is a
      stored task that passes the filters. */
  lemma FetchedShape(stored: Option<seq<TodoTask>>, options: RequestOptions, day: Day, t: TodoTask)
    requires options.maxCount >= 0
    ensures |Fetched(stored, options, day)| <= options.maxCount
    ensures SortedBy(Fetched(stored, options, day), OrderOf)
    ensures stored.Some? ==>
      var arranged := Arranged(stored.value, options, day);
      Fetched(stored, options, day) == arranged[..|Fetched(stored, options, day)|]
      && (|Fetched(stored, options, day)| == options.maxCount || Fetched(stored, options, day) == arranged)
    ensures t in Fetched(stored, options, day) ==>
      stored.Some? && t in stored.value && !t.completed && IsTodayOrEarlier(t.dueDate, day)
      && (options.includeOverdue || !IsBeforeToday(t.dueDate, day))
  {
    if stored.Some? {
      var all := stored.value;
      var arranged := Arranged(all, options, day);
      var r := Fetched(stored, options, day);
      ArrangedPermutes(all, options, day);
      PrefixSorted(arranged, |r|, OrderOf);
      if t in r {
        assert t in multiset(arranged);
        EligibleIff(all, options, day, t);
      }
    }
  }

  /** Called with the default options, `getTasks` keeps overdue tasks: a
      task is eligible exactly when it is stored, incomplete and due before
      tomorrow, and at most ten of them are shown. */
  lemma FetchedUnderDefaults(stored: Option<seq<TodoTask>>, day: Day, t: TodoTask)
    ensures |Fetched(stored, DefaultOptions, day)| <= 10
    ensures stored.Some? ==>
      (t in Eligible(stored.value, DefaultOptions, day) <==>
       t in stored.value && !t.completed && IsTodayOrEarlier(t.dueDate, day))
  {
    FetchedShape(stored, DefaultOptions, day, t);
    if stored.Some? {
      EligibleIff(stored.value, DefaultOptions, day, t);
    }
  }

  /** When every eligible task fits, `getTasks` shows all of them. */
  lemma FetchedAllWhenRoom(all: seq<TodoTask>, options: RequestOptions, day: Day)
    requires 0 <= |Eligible(all, options, day)| <= options.maxCount
    ensures multiset(Fetched(Some(all), options, day)) == multiset(Eligible(all, options, day))
  {
    ArrangedPermutes(all, options, day);
  }

  /** Tasks that share an `order` are shown earliest-due first: the second
      sort keeps the first sort's order among equal keys. */
  lemma FetchedTieBreak(stored: Option<seq<TodoTask>>, options: RequestOptions, day: Day, v: int)
    requires options.maxCount >= 0
    ensures SortedBy(Filter(Fetched(stored, options, day), KeyIs(OrderOf, v)), DueOf)
  {
    var r := Fetched(stored, options, day);
    var p := KeyIs(OrderOf, v);
    if stored.Some? {
      var byDue := SortBy(Eligible(stored.value, options, day), DueOf);
      var arranged := SortBy(byDue, OrderOf);
      SortByStable(byDue, OrderOf, v);
      FilterSorted(byDue, p, DueOf);
      FilterPrefixSorted(arranged, |r|, p, DueOf);
    }
  }

  /** `completeTask` on a decoded list: set `completed` on the first task
      with `id`. Only that task's `completed` changes, and it becomes true;
      an absent id leaves the list as it was. */
  function MarkCompleted(ts: seq<TodoTask>, id: string): (r: seq<TodoTask>)
    ensures |r| == |ts|
    ensures forall k | 0 <= k < |ts| ::
      r[k] == ts[k].(completed := r[k].completed)
      && r[k].completed == (ts[k].completed || IsFirstWithId(ts, id, k))
    ensures (forall k | 0 <= k < |ts| :: ts[k].id != id) ==> r == ts
  {
    match FirstIndex(ts, HasId(id))
    case None => ts
    case Some(i) => ts[i := ts[i].(completed := true)]
  }

  /** Marking the same id complete again changes nothing. */
  lemma MarkCompletedIdempotent(ts: seq<TodoTask>, id: string)
    ensures MarkCompleted(MarkCompleted(ts, id), id) == MarkCompleted(ts, id)
  {
    var once := MarkCompleted(ts, id);
    var twice := MarkCompleted(once, id);
    forall k | 0 <= k < |ts| ensures twice[k] == once[k] {
      assert IsFirstWithId(once, id, k) <==> IsFirstWithId(ts, id, k);
    }
  }

  /** Ids are unique among the stored tasks. */
  predicate DistinctIds(ts: seq<TodoTask>) {
    forall i, j | 0 <= i < j < |ts| :: ts[i].id != ts[j].id
  }

  /** With unique ids, a task the widget marks complete no longer shows. */
  lemma CompletedTaskLeavesWidget(ts: seq<TodoTask>, id: string, options: RequestOptions, day: Day)
    requires DistinctIds(ts) && options.maxCount >= 0
    ensures forall t | t in Fetched(Some(MarkCompleted(ts, id)), options, day) :: t.id != id
  {
    var after := MarkCompleted(ts, id);
    forall t | t in Fetched(Some(after), options, day) ensures t.id != id {
      FetchedShape(Some(after), options, day, t);
      var k :| 0 <= k < |after| && after[k] == t;
    }
  }

  /** The widget's view of the shared defaults entry. `stored` is `None`
      when the entry is missing or does not decode as a list of tasks. */
  class TodoDataStore {
    var stored: Option<seq<TodoTask>>

    constructor(stored: Option<seq<TodoTask>>)
      ensures this.stored == stored
    {
      this.stored := stored;
    }

    /** `getTasks(options:)`, with the day boundaries as a parameter. A
        negative `maxCount` is a runtime trap in `prefix`. */
    method GetTasks(options: RequestOptions, day: Day) returns (r: seq<TodoTask>)
      requires options.maxCount >= 0
      ensures r == Fetched(stored, options, day)
    {
      if stored.None? {
        return [];
      }
      var filteredTasks := stored.value;
      filteredTasks := Filter(filteredTasks, IsPending);
      filteredTasks := Filter(filteredTasks, DueByToday(day));
      if !options.includeOverdue {
        filteredTasks := Filter(filteredTasks, NotOverdue(day));
      }
      filteredTasks := SortBy(filteredTasks, DueOf);
      filteredTasks := SortBy(filteredTasks, OrderOf);
      r := Prefix(filteredTasks, options.maxCount);
    }

    /** `completeTask(id:)`: mark the first task with `id` complete and write
        the list back; missing or undecodable data is left alone. */
    method CompleteTask(id: string)
      modifies this
      ensures stored == if old(stored).None? then None else Some(MarkCompleted(old(stored).value, id))
    {
      if stored.None? {
        return;
      }
      var tasks := stored.value;
      var index := FirstIndex(tasks, HasId(id));
      if index.Some? {
        tasks := tasks[index.value := tasks[index.value].(completed := true)];
        stored := Some(tasks);
      }
    }
  }
}
