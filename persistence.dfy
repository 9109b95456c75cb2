/** The app's canonical task store (`AsyncTaskPersistence`): a
    read-modify-write layer over one stored list of tasks, which pushes the
    whole list to the widget mirror after every change and pulls completion
    flips back from it (`syncFromWidget`). */
module Persistence {
  import opened Common
  import opened Tasks

  /** A stored record as `JSON.parse` returns it. Records written by older
      versions of the app may lack `tags` or `order`. */
  datatype RawTask = RawTask(
    id: string,
    name: string,
    description: string,
    dueDate: int,
    completed: bool,
    tags: Option<seq<string>>,
    order: Option<int>)

  /** The item stored under the key "TASKS": nothing (or the empty string),
      text that `JSON.parse` rejects, or a parsed array of records. */
  datatype Blob = Empty | Malformed | Records(records: seq<RawTask>)

  /** The record shape of a mirror entry: a task without `order`. */
  datatype WidgetRecord = WidgetRecord(
    id: string,
    name: string,
    description: string,
    dueDate: int,
    completed: bool,
    tags: seq<string>)

  // ---------------------------------------------------------------------
  // Reading and writing the stored list

  /** `loadTasks`' per-record mapping: missing tags become [], a missing
      order becomes 0. */
  function Normalize(raw: RawTask): Task {
    Task(raw.id, raw.name, raw.description, raw.dueDate, raw.completed,
         if raw.tags.Some? then raw.tags.value else [],
         if raw.order.Some? then raw.order.value else 0)
  }

  /** `loadTasks`: the stored list, normalised. */
  function Load(b: Blob): (r: Result<seq<Task>>)
    ensures b.Empty? ==> r == Ok([])
    ensures b.Malformed? ==> r == Err(Unparsable)
    ensures b.Records? ==> r.Ok? && |r.value| == |b.records|
  {
    match b
    case Empty => Ok([])
    case Malformed => Err(Unparsable)
    case Records(rs) => Ok(seq(|rs|, i requires 0 <= i < |rs| => Normalize(rs[i])))
  }

  /** Each loaded task carries its record's fields; a record without tags
      loads with no tags, and one without an order loads with order 0. */
  lemma LoadFillsDefaults(b: Blob, i: int)
    requires b.Records? && 0 <= i < |b.records|
    ensures var raw, t := b.records[i], Load(b).value[i];
      && t.id == raw.id && t.name == raw.name && t.description == raw.description
      && t.dueDate == raw.dueDate && t.completed == raw.completed
      && (raw.tags.None? ==> t.tags == [])
      && (raw.tags.Some? ==> t.tags == raw.tags.value)
      && (raw.order.None? ==> t.order == 0)
      && (raw.order.Some? ==> t.order == raw.order.value)
  {
  }

  function Stored(t: Task): RawTask {
    RawTask(t.id, t.name, t.description, t.dueDate, t.completed, Some(t.tags), Some(t.order))
  }

  /** `saveTasks`: `JSON.stringify` of the list. */
  function Save(ts: seq<Task>): Blob {
    Records(seq(|ts|, i requires 0 <= i < |ts| => Stored(ts[i])))
  }

  /** What is saved loads back unchanged. */
  lemma LoadSave(ts: seq<Task>)
    ensures Load(Save(ts)) == Ok(ts)
  {
    var b := Save(ts);
    var r := Load(b).value;
    assert |r| == |ts|;
    forall i | 0 <= i < |ts| ensures r[i] == ts[i] {
      assert b.records[i] == Stored(ts[i]);
      assert r[i] == Normalize(b.records[i]);
    }
    assert r == ts;
  }

  /** Loading normalises once and for all: a loaded list saved and loaded
      again is the same list. */
  lemma LoadIsStable(b: Blob)
    requires Load(b).Ok?
    ensures Load(Save(Load(b).value)) == Load(b)
  {
    LoadSave(Load(b).value);
  }

  // ---------------------------------------------------------------------
  // The mirror push (`WidgetService.syncTasksToWidget`)

  function ToWidget(t: Task): WidgetRecord {
    WidgetRecord(t.id, t.name, t.description, t.dueDate, t.completed, t.tags)
  }

  function Project(ts: seq<Task>): seq<WidgetRecord> {
    seq(|ts|, i requires 0 <= i < |ts| => ToWidget(ts[i]))
  }

  /** The push drops `order` and nothing else: two lists project alike
      exactly when they differ at most in their orders. */
  lemma ProjectDropsOnlyOrder(a: seq<Task>, b: seq<Task>)
    ensures Project(a) == Project(b) <==>
      |a| == |b| && forall i | 0 <= i < |a| :: a[i].(order := 0) == b[i].(order := 0)
  {
    if Project(a) == Project(b) {
      assert |a| == |Project(a)|;
      forall i | 0 <= i < |a| ensures a[i].(order := 0) == b[i].(order := 0) {
        assert Project(a)[i] == Project(b)[i];
      }
    }
  }

  // ---------------------------------------------------------------------
  // updateOrder on a list

  function DueOn(date: int): Task -> bool {
    (t: Task) => t.dueDate == date
  }

  function NotDueOn(date: int): Task -> bool {
    (t: Task) => t.dueDate != date
  }

  /** The tasks due at exactly `date`, in store order. */
  function Group(ts: seq<Task>, date: int): seq<Task> {
    Filter(ts, DueOn(date))
  }

  /** The tasks due at any other instant, in store order. */
  function Others(ts: seq<Task>, date: int): seq<Task> {
    Filter(ts, NotDueOn(date))
  }

  /** The task `id` names in `ts` when a later task overwrites an earlier
      one with the same id: the last one. */
  function Named(ts: seq<Task>, id: string): (r: Option<Task>)
    ensures r.None? <==> !Contains(ts, id)
    ensures r.Some? ==> r.value in ts && r.value.id == id
  {
    match LastIndex(ts, HasId(id))
    case None => None
    case Some(k) => Some(ts[k])
  }

  /** `new Map(ts.map(t => [t.id, t]))`: later entries overwrite earlier
      ones with the same id. */
  function ById(ts: seq<Task>): map<string, Task>
    decreases |ts|
  {
    if ts == [] then map[]
    else ById(ts[..|ts| - 1])[ts[|ts| - 1].id := ts[|ts| - 1]]
  }

  /** The map has an entry for exactly the ids the list holds, and each
      entry is the task that id names: the last one with it. */
  lemma {:induction false} ByIdSpec(ts: seq<Task>, id: string)
    ensures id in ById(ts) <==> Contains(ts, id)
    ensures id in ById(ts) ==> Named(ts, id) == Some(ById(ts)[id])
    decreases |ts|
  {
    if ts != [] {
      var init, last := ts[..|ts| - 1], ts[|ts| - 1];
      ByIdSpec(init, id);
      if id != last.id {
        assert LastIndex(ts, HasId(id)) == LastIndex(init, HasId(id));
        if Contains(ts, id) {
          var k :| 0 <= k < |ts| && ts[k].id == id;
          assert init[k].id == id;
        }
        if Contains(init, id) {
          var k :| 0 <= k < |init| && init[k].id == id;
          assert ts[k].id == id;
        }
      } else {
        assert ts[|ts| - 1].id == id;
      }
    }
  }

  /** `taskIds.map((id, index) => ...)`: the task each id names, renumbered
      from `first`; the first id with no task aborts the whole mapping. */
  function Renumber(ids: seq<string>, m: map<string, Task>, first: int): (r: Result<seq<Task>>)
    ensures r.Ok? ==> |r.value| == |ids|
  {
    if ids == [] then Ok([])
    else if ids[0] !in m then Err(TaskWithIdNotFound(ids[0]))
    else match Renumber(ids[1..], m, first + 1)
      case Err(e) => Err(e)
      case Ok(rest) => Ok([m[ids[0]].(order := first)] + rest)
  }

  /** The mapping fails exactly when some id is not in the map, and then it
      reports the first such id. */
  lemma {:induction false} RenumberOutcome(ids: seq<string>, m: map<string, Task>, first: int)
    ensures Renumber(ids, m, first).Err? <==> exists i | 0 <= i < |ids| :: ids[i] !in m
    ensures Renumber(ids, m, first).Err? ==> exists i | 0 <= i < |ids| ::
      && ids[i] !in m
      && (forall j | 0 <= j < i :: ids[j] in m)
      && Renumber(ids, m, first).error == TaskWithIdNotFound(ids[i])
    decreases |ids|
  {
    if ids != [] && ids[0] in m {
      RenumberOutcome(ids[1..], m, first + 1);
      assert forall i | 1 <= i <= |ids[1..]| :: ids[i] == ids[1..][i - 1];
    }
  }

  /** One position of a successful mapping: the id is in the map, and its
      task is renumbered `first + i`. */
  lemma {:induction false} RenumberAt(ids: seq<string>, m: map<string, Task>, first: int, i: int)
    requires Renumber(ids, m, first).Ok? && 0 <= i < |ids|
    ensures ids[i] in m && Renumber(ids, m, first).value[i] == m[ids[i]].(order := first + i)
    decreases |ids|
  {
    if i > 0 {
      RenumberAt(ids[1..], m, first + 1, i - 1);
      assert ids[1..][i - 1] == ids[i];
    }
  }

  /** `updateOrder(ids, date)` on a list: the tasks due at another instant
      keep their places, followed by the task each id names among those due
      at exactly `date`, numbered 1, 2, ...; an id naming none of them fails
      the whole operation. */
  function Reorder(ts: seq<Task>, ids: seq<string>, date: int): (r: Result<seq<Task>>)
    ensures r.Ok? ==> |r.value| == |Others(ts, date)| + |ids|
  {
    var targetDateTasks := Group(ts, date);
    var otherTasks := Others(ts, date);
    match Renumber(ids, ById(targetDateTasks), 1)
    case Err(e) => Err(e)
    case Ok(reordered) => Ok(otherTasks + reordered)
  }

  /** A reorder fails exactly when some id names no task due at `date`; on
      success the tasks due at other instants come first, unchanged. */
  lemma ReorderOutcome(ts: seq<Task>, ids: seq<string>, date: int)
    ensures Reorder(ts, ids, date).Err? <==> exists i | 0 <= i < |ids| :: !Contains(Group(ts, date), ids[i])
    ensures Reorder(ts, ids, date).Ok? ==> Reorder(ts, ids, date).value[..|Others(ts, date)|] == Others(ts, date)
  {
    var m := ById(Group(ts, date));
    var rn := Renumber(ids, m, 1);
    RenumberOutcome(ids, m, 1);
    forall i | 0 <= i < |ids| ensures ids[i] in m <==> Contains(Group(ts, date), ids[i]) {
      ByIdSpec(Group(ts, date), ids[i]);
    }
    if rn.Ok? {
      assert Reorder(ts, ids, date).value == Others(ts, date) + rn.value;
    }
  }

  /** One renumbered position of a successful reorder: the task the id names
      in the group, with order `i + 1`. */
  lemma ReorderEntry(ts: seq<Task>, ids: seq<string>, date: int, i: int)
    requires Reorder(ts, ids, date).Ok? && 0 <= i < |ids|
    ensures Named(Group(ts, date), ids[i]).Some?
    ensures Reorder(ts, ids, date).value[|Others(ts, date)| + i] ==
      Named(Group(ts, date), ids[i]).value.(order := i + 1)
  {
    var g := Group(ts, date);
    var m := ById(g);
    var rn := Renumber(ids, m, 1).value;
    var others := Others(ts, date);
    assert Reorder(ts, ids, date).value[|others| + i] == rn[i] by {
      assert Reorder(ts, ids, date).value == others + rn;
    }
    assert ids[i] in m && rn[i] == m[ids[i]].(order := i + 1) by {
      RenumberAt(ids, m, 1, i);
    }
    ByIdSpec(g, ids[i]);
  }

  /** A failed reorder reports the first id that names no task due at `date`. */
  lemma ReorderReportsFirstUnknownId(ts: seq<Task>, ids: seq<string>, date: int)
    requires Reorder(ts, ids, date).Err?
    ensures exists i | 0 <= i < |ids| ::
      && !Contains(Group(ts, date), ids[i])
      && (forall j | 0 <= j < i :: Contains(Group(ts, date), ids[j]))
      && Reorder(ts, ids, date).error == TaskWithIdNotFound(ids[i])
  {
    var m := ById(Group(ts, date));
    assert Renumber(ids, m, 1).Err?;
    RenumberOutcome(ids, m, 1);
    forall i | 0 <= i < |ids| ensures ids[i] in m <==> Contains(Group(ts, date), ids[i]) {
      ByIdSpec(Group(ts, date), ids[i]);
    }
  }

  /** A list of tasks due elsewhere followed by tasks due at `date` splits
      back into the two. */
  lemma SplitByDate(a: seq<Task>, b: seq<Task>, date: int)
    requires forall k | 0 <= k < |a| :: a[k].dueDate != date
    requires forall k | 0 <= k < |b| :: b[k].dueDate == date
    ensures Others(a + b, date) == a && Group(a + b, date) == b
  {
    FilterAppend(a, b, NotDueOn(date));
    FilterAppend(a, b, DueOn(date));
    FilterAll(a, NotDueOn(date));
    FilterNone(a, DueOn(date));
    FilterAll(b, DueOn(date));
    FilterNone(b, NotDueOn(date));
    assert a + [] == a;
    assert [] + b == b;
  }

  /** The task an id names within the group is due at `date`. */
  lemma NamedInGroup(ts: seq<Task>, date: int, id: string)
    requires Named(Group(ts, date), id).Some?
    ensures Named(Group(ts, date), id).value.dueDate == date
    ensures Named(Group(ts, date), id).value in ts
  {
    FilterMembers(ts, DueOn(date), Named(Group(ts, date), id).value);
  }

  /** The stored list after a successful reorder splits back into the other
      tasks and the renumbered group. */
  lemma ReorderSplit(ts: seq<Task>, ids: seq<string>, date: int)
    requires Reorder(ts, ids, date).Ok?
    ensures var r := Reorder(ts, ids, date).value;
      && Others(r, date) == Others(ts, date)
      && Group(r, date) == r[|Others(ts, date)|..]
  {
    var r := Reorder(ts, ids, date).value;
    var others := Others(ts, date);
    var reordered := r[|others|..];
    assert r == others + reordered by {
      ReorderOutcome(ts, ids, date);
      assert r[..|others|] == others;
    }
    FilterKept(ts, NotDueOn(date));
    forall i | 0 <= i < |reordered| ensures reordered[i].dueDate == date {
      ReorderEntry(ts, ids, date, i);
      NamedInGroup(ts, date, ids[i]);
    }
    SplitByDate(others, reordered, date);
  }

  /** One task due at `date` in a successfully reordered list. */
  lemma ReorderGroupEntry(ts: seq<Task>, ids: seq<string>, date: int, x: Task)
    requires Reorder(ts, ids, date).Ok?
    requires x in Reorder(ts, ids, date).value && x.dueDate == date
    ensures exists i | 0 <= i < |ids| :: x.id == ids[i] && x.order == i + 1
  {
    var r := Reorder(ts, ids, date).value;
    var n := |Others(ts, date)|;
    assert x in r[n..] by {
      ReorderSplit(ts, ids, date);
      FilterMembers(r, DueOn(date), x);
    }
    var p :| 0 <= p < |r[n..]| && r[n..][p] == x;
    ReorderEntry(ts, ids, date, p);
    assert r[n + p] == x;
  }

  /** After a successful reorder, every task due at `date` is one the ids
      named, numbered by its position in the ids; the tasks due at `date`
      whose ids were not listed are gone. */
  lemma ReorderDropsUnlisted(ts: seq<Task>, ids: seq<string>, date: int)
    requires Reorder(ts, ids, date).Ok?
    ensures forall x | x in Reorder(ts, ids, date).value && x.dueDate == date ::
      exists i | 0 <= i < |ids| :: x.id == ids[i] && x.order == i + 1
    ensures forall t | t in ts && t.dueDate == date && t.id !in ids ::
      t !in Reorder(ts, ids, date).value
  {
    forall x | x in Reorder(ts, ids, date).value && x.dueDate == date
      ensures exists i | 0 <= i < |ids| :: x.id == ids[i] && x.order == i + 1
    {
      ReorderGroupEntry(ts, ids, date, x);
    }
  }

  /** One position of the group due at `date` in a reordered list. */
  lemma ReorderedGroupAt(ts: seq<Task>, ids: seq<string>, date: int, i: int)
    requires Reorder(ts, ids, date).Ok? && 0 <= i < |ids|
    ensures var r := Reorder(ts, ids, date).value;
      && |Group(r, date)| == |ids|
      && Group(r, date)[i] == r[|Others(ts, date)| + i]
      && Group(r, date)[i].id == ids[i]
  {
    ReorderSplit(ts, ids, date);
    ReorderEntry(ts, ids, date, i);
  }

  /** In a reordered list, the group due at `date` lists the ids in order. */
  lemma ReorderedGroupIds(ts: seq<Task>, ids: seq<string>, date: int)
    requires Reorder(ts, ids, date).Ok?
    ensures |Group(Reorder(ts, ids, date).value, date)| == |ids|
    ensures forall i | 0 <= i < |ids| ::
      Group(Reorder(ts, ids, date).value, date)[i] == Reorder(ts, ids, date).value[|Others(ts, date)| + i]
    ensures forall i | 0 <= i < |ids| :: Group(Reorder(ts, ids, date).value, date)[i].id == ids[i]
  {
    ReorderSplit(ts, ids, date);
    forall i | 0 <= i < |ids|
      ensures Group(Reorder(ts, ids, date).value, date)[i] == Reorder(ts, ids, date).value[|Others(ts, date)| + i]
      ensures Group(Reorder(ts, ids, date).value, date)[i].id == ids[i]
    {
      ReorderedGroupAt(ts, ids, date, i);
    }
  }

  /** Looking an id up again in the reordered group finds the task the
      first reorder placed for it. */
  lemma RenamedAgain(ts: seq<Task>, ids: seq<string>, date: int, i: int)
    requires Reorder(ts, ids, date).Ok? && 0 <= i < |ids|
    ensures var r := Reorder(ts, ids, date).value;
      Named(Group(r, date), ids[i]).Some? &&
      Named(Group(r, date), ids[i]).value.(order := i + 1) == r[|Others(ts, date)| + i]
  {
    var r := Reorder(ts, ids, date).value;
    var regroup := Group(r, date);
    ReorderedGroupAt(ts, ids, date, i);
    assert HasId(ids[i])(regroup[i]);
    var k := LastIndex(regroup, HasId(ids[i])).value;
    ReorderedGroupAt(ts, ids, date, k);
    ReorderEntry(ts, ids, date, i);
    ReorderEntry(ts, ids, date, k);
  }

  /** The second reorder, at one renumbered position. */
  lemma ReorderAgainAt(ts: seq<Task>, ids: seq<string>, date: int, i: int)
    requires Reorder(ts, ids, date).Ok? && 0 <= i < |ids|
    ensures var r := Reorder(ts, ids, date).value;
      var n := |Others(ts, date)|;
      Reorder(r, ids, date).Ok? && n + i < |r| && n + i < |Reorder(r, ids, date).value| &&
      Reorder(r, ids, date).value[n + i] == r[n + i]
  {
    var r := Reorder(ts, ids, date).value;
    var n := |Others(ts, date)|;
    assert Reorder(r, ids, date).Ok? && |Others(r, date)| == n by {
      ReorderAgainOk(ts, ids, date);
    }
    RenamedAgain(ts, ids, date, i);
    ReorderEntry(r, ids, date, i);
  }

  /** The second reorder succeeds and sees the same other tasks. */
  lemma ReorderAgainOk(ts: seq<Task>, ids: seq<string>, date: int)
    requires Reorder(ts, ids, date).Ok?
    ensures Reorder(Reorder(ts, ids, date).value, ids, date).Ok?
    ensures Others(Reorder(ts, ids, date).value, date) == Others(ts, date)
  {
    var r := Reorder(ts, ids, date).value;
    ReorderSplit(ts, ids, date);
    forall i | 0 <= i < |ids| ensures Contains(Group(r, date), ids[i]) {
      ReorderedGroupAt(ts, ids, date, i);
    }
    ReorderOutcome(r, ids, date);
  }

  /** Reordering is idempotent: repeating the same reorder changes nothing. */
  lemma ReorderIdempotent(ts: seq<Task>, ids: seq<string>, date: int)
    requires Reorder(ts, ids, date).Ok?
    ensures Reorder(Reorder(ts, ids, date).value, ids, date) == Reorder(ts, ids, date)
  {
    var r := Reorder(ts, ids, date).value;
    var n := |Others(ts, date)|;
    ReorderAgainOk(ts, ids, date);
    var r2 := Reorder(r, ids, date).value;
    assert |r2| == |r|;
    forall p | 0 <= p < |r| ensures r2[p] == r[p] {
      if p < n {
        ReorderAgainPrefix(ts, ids, date, p);
      } else {
        ReorderAgainAt(ts, ids, date, p - n);
      }
    }
    assert r2 == r;
  }

  /** The second reorder keeps the other tasks where the first put them. */
  lemma ReorderAgainPrefix(ts: seq<Task>, ids: seq<string>, date: int, p: int)
    requires Reorder(ts, ids, date).Ok? && 0 <= p < |Others(ts, date)|
    requires Reorder(Reorder(ts, ids, date).value, ids, date).Ok?
    requires Others(Reorder(ts, ids, date).value, date) == Others(ts, date)
    ensures var r := Reorder(ts, ids, date).value;
      p < |r| && p < |Reorder(r, ids, date).value| &&
      Reorder(r, ids, date).value[p] == r[p]
  {
    var r := Reorder(ts, ids, date).value;
    var r2 := Reorder(r, ids, date).value;
    var others := Others(ts, date);
    ReorderOutcome(ts, ids, date);
    ReorderOutcome(r, ids, date);
    assert r2[..|others|] == others;
    assert r[..|others|] == others;
    assert r2[..|others|][p] == r2[p];
    assert r[..|others|][p] == r[p];
  }

  /** A task due at another instant survives a reorder unchanged. */
  lemma ReorderKeepsOther(ts: seq<Task>, ids: seq<string>, date: int, t: Task)
    requires Reorder(ts, ids, date).Ok?
    requires t in ts && t.dueDate != date
    ensures t in Reorder(ts, ids, date).value
  {
    var r := Reorder(ts, ids, date).value;
    var others := Others(ts, date);
    FilterMembers(ts, NotDueOn(date), t);
    ReorderOutcome(ts, ids, date);
    var p :| 0 <= p < |others| && others[p] == t;
    assert r[..|others|][p] == t;
  }

  /** A task due at `date` whose id is listed, and is the only one in the
      group with that id, survives a reorder with a new order. */
  lemma ReorderKeepsListed(ts: seq<Task>, ids: seq<string>, date: int, t: Task, i: int)
    requires Reorder(ts, ids, date).Ok?
    requires t in ts && t.dueDate == date && 0 <= i < |ids| && ids[i] == t.id
    requires forall u | u in Group(ts, date) && u.id == t.id :: u == t
    ensures t.(order := i + 1) in Reorder(ts, ids, date).value
  {
    var r := Reorder(ts, ids, date).value;
    var n := |Others(ts, date)|;
    ReorderEntry(ts, ids, date, i);
    var u := Named(Group(ts, date), ids[i]).value;
    assert u in Group(ts, date) && u.id == t.id;
    assert r[n + i] == t.(order := i + 1);
  }

  lemma OnlyOneWithId(ts: seq<Task>, t: Task)
    requires forall i, j | 0 <= i < j < |ts| :: ts[i].id != ts[j].id
    requires t in ts
    ensures forall u | u in ts && u.id == t.id :: u == t
  {
    var q :| 0 <= q < |ts| && ts[q] == t;
    forall u | u in ts && u.id == t.id ensures u == t {
      var q' :| 0 <= q' < |ts| && ts[q'] == u;
      assert q == q';
    }
  }

  /** When the ids list every task due at `date` once, and those tasks have
      distinct ids, no task is lost: only orders change. */
  lemma ReorderKeepsListedGroup(ts: seq<Task>, ids: seq<string>, date: int)
    requires forall i, j | 0 <= i < j < |Group(ts, date)| :: Group(ts, date)[i].id != Group(ts, date)[j].id
    requires |ids| == |Group(ts, date)|
    requires forall i | 0 <= i < |ids| :: Contains(Group(ts, date), ids[i])
    requires forall t | t in Group(ts, date) :: t.id in ids
    ensures Reorder(ts, ids, date).Ok?
    ensures |Reorder(ts, ids, date).value| == |ts|
    ensures forall t | t in ts :: exists x | x in Reorder(ts, ids, date).value :: x == t.(order := x.order)
  {
    var group := Group(ts, date);
    FilterComplement(ts, DueOn(date), NotDueOn(date));
    ReorderOutcome(ts, ids, date);
    var r := Reorder(ts, ids, date).value;
    forall t | t in ts ensures exists x | x in r :: x == t.(order := x.order) {
      if t.dueDate != date {
        ReorderKeepsOther(ts, ids, date, t);
        assert t == t.(order := t.order);
      } else {
        FilterMembers(ts, DueOn(date), t);
        var i :| 0 <= i < |ids| && ids[i] == t.id;
        OnlyOneWithId(group, t);
        ReorderKeepsListed(ts, ids, date, t, i);
        var x := t.(order := i + 1);
        assert x == t.(order := x.order);
      }
    }
  }

  lemma TwoTaskGroups(a: Task, b: Task)
    requires a.dueDate == b.dueDate
    ensures Group([a, b], a.dueDate) == [a, b]
    ensures Others([a, b], a.dueDate) == []
  {
    FilterAll([a, b], DueOn(a.dueDate));
    FilterNone([a, b], NotDueOn(a.dueDate));
  }

  lemma TwoTaskNames(a: Task, b: Task)
    requires a.id != b.id
    ensures Named([a, b], a.id) == Some(a)
    ensures Named([a, b], b.id) == Some(b)
  {
    assert [a, b][..1] == [a];
    assert LastIndex([a, b], HasId(a.id)) == LastIndex([a], HasId(a.id));
  }

  /** Two tasks due at the same instant, first A then B, reordered as
      [B, A], are numbered B = 1 and A = 2. */
  lemma ReorderTwoTasksExample(a: Task, b: Task)
    requires a.id != b.id && a.dueDate == b.dueDate
    ensures Reorder([a, b], [b.id, a.id], a.dueDate) == Ok([b.(order := 1), a.(order := 2)])
  {
    var ts, ids, date := [a, b], [b.id, a.id], a.dueDate;
    TwoTaskGroups(a, b);
    assert Reorder(ts, ids, date).Ok? by {
      assert ts[1].id == ids[0] && ts[0].id == ids[1];
      ReorderOutcome(ts, ids, date);
    }
    var r := Reorder(ts, ids, date).value;
    assert |r| == 2;
    assert r[0] == b.(order := 1) by {
      ReorderEntry(ts, ids, date, 0);
      TwoTaskNames(a, b);
    }
    assert r[1] == a.(order := 2) by {
      ReorderEntry(ts, ids, date, 1);
      TwoTaskNames(a, b);
    }
    assert r == [b.(order := 1), a.(order := 2)];
  }

  // ---------------------------------------------------------------------
  // syncFromWidget on lists

  /** The test `syncFromWidget` applies to each mirror record: it is
      completed while the first app task with its id, in the snapshot read
      before any toggle, is not. */
  function NeedsCompletion(snapshot: seq<Task>): WidgetRecord -> bool {
    (w: WidgetRecord) =>
      w.completed && match FindById(snapshot, w.id)
        case Ok(t) => !t.completed
        case Err(_) => false
  }

  /** The mirror records that trigger a toggle, in mirror order. */
  function Pending(snapshot: seq<Task>, mirror: seq<WidgetRecord>): seq<WidgetRecord> {
    Filter(mirror, NeedsCompletion(snapshot))
  }

  /** The store after `toggleTaskStatus` for each record of `plan` in turn. */
  function ApplyToggles(ts: seq<Task>, plan: seq<WidgetRecord>): seq<Task>
    decreases |plan|
  {
    if plan == [] then ts
    else
      var prev := ApplyToggles(ts, plan[..|plan| - 1]);
      match ToggleStatus(prev, plan[|plan| - 1].id)
      case Ok(next) => next
      case Err(_) => prev
  }

  /** The mirror pushes those toggles make, one per toggle. */
  function TogglePushes(ts: seq<Task>, plan: seq<WidgetRecord>): seq<seq<WidgetRecord>>
    decreases |plan|
  {
    if plan == [] then []
    else TogglePushes(ts, plan[..|plan| - 1]) + [Project(ApplyToggles(ts, plan))]
  }

  /** An odd number of records of `plan` carry `id`. */
  function OddCount(plan: seq<WidgetRecord>, id: string): bool
    decreases |plan|
  {
    if plan == [] then false
    else OddCount(plan[..|plan| - 1], id) != (plan[|plan| - 1].id == id)
  }

  /** One toggle, seen at position `k` of a list with the ids of `ts`. */
  lemma ToggleAtPosition(ts: seq<Task>, prev: seq<Task>, id: string, k: int)
    requires SameIds(ts, prev) && 0 <= k < |ts|
    ensures ToggleStatus(prev, id).Ok? ==>
      ToggleStatus(prev, id).value[k] == (if IsFirstWithId(ts, id, k) then Flipped(prev[k]) else prev[k])
    ensures ToggleStatus(prev, id).Err? ==> ts[k].id != id
  {
    FirstWithIdSameIds(ts, prev, id, k);
  }

  /** Applying toggles flips the first task with an id once per record
      naming it, so only the parity counts; nothing else changes. */
  lemma {:induction false} ApplyTogglesEffect(ts: seq<Task>, plan: seq<WidgetRecord>)
    ensures |ApplyToggles(ts, plan)| == |ts|
    ensures forall k | 0 <= k < |ts| ::
      ApplyToggles(ts, plan)[k] ==
        (if IsFirstWithId(ts, ts[k].id, k) && OddCount(plan, ts[k].id)
         then Flipped(ts[k]) else ts[k])
    decreases |plan|
  {
    if plan != [] {
      var init, w := plan[..|plan| - 1], plan[|plan| - 1];
      ApplyTogglesEffect(ts, init);
      var prev := ApplyToggles(ts, init);
      var r := ApplyToggles(ts, plan);
      assert SameIds(ts, prev);
      assert r == match ToggleStatus(prev, w.id) case Ok(next) => next case Err(_) => prev;
      forall k | 0 <= k < |ts|
        ensures r[k] ==
          (if IsFirstWithId(ts, ts[k].id, k) && OddCount(plan, ts[k].id)
           then Flipped(ts[k]) else ts[k])
      {
        ToggleAtPosition(ts, prev, w.id, k);
      }
    }
  }

  /** One more toggle of an id the store holds succeeds, and adds one push. */
  lemma ToggleStep(ts: seq<Task>, plan: seq<WidgetRecord>, w: WidgetRecord)
    requires Contains(ts, w.id)
    ensures ToggleStatus(ApplyToggles(ts, plan), w.id) == Ok(ApplyToggles(ts, plan + [w]))
    ensures TogglePushes(ts, plan + [w]) == TogglePushes(ts, plan) + [Project(ApplyToggles(ts, plan + [w]))]
  {
    var prev := ApplyToggles(ts, plan);
    assert Contains(prev, w.id) by {
      ApplyTogglesEffect(ts, plan);
      var k :| 0 <= k < |ts| && ts[k].id == w.id;
      assert prev[k].id == w.id;
    }
    assert (plan + [w])[..|plan|] == plan;
  }

  /** No two records of the mirror share an id. */
  predicate DistinctIds(mirror: seq<WidgetRecord>) {
    forall i, j | 0 <= i < j < |mirror| :: mirror[i].id != mirror[j].id
  }

  /** The mirror holds a completed record with `id`. */
  predicate MirrorCompleted(mirror: seq<WidgetRecord>, id: string) {
    exists j | 0 <= j < |mirror| :: mirror[j].id == id && mirror[j].completed
  }

  lemma {:induction false} OddCountOfDistinct(mirror: seq<WidgetRecord>, p: WidgetRecord -> bool, id: string)
    requires DistinctIds(mirror)
    ensures OddCount(Filter(mirror, p), id) <==>
      exists j | 0 <= j < |mirror| :: mirror[j].id == id && p(mirror[j])
    decreases |mirror|
  {
    if mirror != [] {
      var init, w := mirror[..|mirror| - 1], mirror[|mirror| - 1];
      OddCountOfDistinct(init, p, id);
      var f := Filter(init, p);
      if p(w) {
        assert (f + [w])[..|f + [w]| - 1] == f;
      } else {
        assert Filter(mirror, p) == f + [];
        assert f + [] == f;
      }
      if exists j | 0 <= j < |mirror| :: mirror[j].id == id && p(mirror[j]) {
        var j :| 0 <= j < |mirror| && mirror[j].id == id && p(mirror[j]);
        if j < |mirror| - 1 {
          assert init[j] == mirror[j];
        }
      }
    }
  }

  /** With distinct mirror ids, a sync completes exactly the tasks that are
      the first with their id, are incomplete, and have a completed mirror
      record; it never un-completes a task and changes no other field. */
  lemma SyncCompletesOnly(ts: seq<Task>, mirror: seq<WidgetRecord>)
    requires DistinctIds(mirror)
    ensures |ApplyToggles(ts, Pending(ts, mirror))| == |ts|
    ensures forall k | 0 <= k < |ts| ::
      ApplyToggles(ts, Pending(ts, mirror))[k] ==
        ts[k].(completed := ts[k].completed || (IsFirstWithId(ts, ts[k].id, k) && MirrorCompleted(mirror, ts[k].id)))
  {
    var plan := Pending(ts, mirror);
    ApplyTogglesEffect(ts, plan);
    forall k | 0 <= k < |ts| && IsFirstWithId(ts, ts[k].id, k)
      ensures OddCount(plan, ts[k].id) <==> !ts[k].completed && MirrorCompleted(mirror, ts[k].id)
    {
      var id := ts[k].id;
      OddCountOfDistinct(mirror, NeedsCompletion(ts), id);
      assert FindById(ts, id) == Ok(ts[k]);
      if MirrorCompleted(mirror, id) && !ts[k].completed {
        var j :| 0 <= j < |mirror| && mirror[j].id == id && mirror[j].completed;
        assert NeedsCompletion(ts)(mirror[j]);
      }
    }
  }

  /** With distinct mirror ids, a second sync against the same mirror finds
      nothing to toggle. */
  lemma SyncIdempotent(ts: seq<Task>, mirror: seq<WidgetRecord>)
    requires DistinctIds(mirror)
    ensures Pending(ApplyToggles(ts, Pending(ts, mirror)), mirror) == []
  {
    var after := ApplyToggles(ts, Pending(ts, mirror));
    SyncCompletesOnly(ts, mirror);
    assert SameIds(ts, after);
    forall j | 0 <= j < |mirror| ensures !NeedsCompletion(after)(mirror[j]) {
      var w := mirror[j];
      if w.completed && Contains(after, w.id) {
        var k := FirstIndex(after, HasId(w.id)).value;
        assert IsFirstWithId(after, w.id, k);
        FirstWithIdSameIds(ts, after, w.id, k);
        assert MirrorCompleted(mirror, w.id);
        assert FindById(after, w.id) == Ok(after[k]);
      }
    }
    FilterNone(mirror, NeedsCompletion(after));
  }

  /** As written, the snapshot is not refreshed between toggles: a mirror
      listing the same completed task twice toggles it twice, and the task
      ends incomplete. */
  lemma SyncRepeatedIdTogglesTwice(t: Task)
    requires !t.completed
    ensures var w := ToWidget(t).(completed := true);
      && Pending([t], [w, w]) == [w, w]
      && ApplyToggles([t], [w, w]) == [t]
  {
    var w := ToWidget(t).(completed := true);
    assert FindById([t], t.id) == Ok(t) by {
      assert IsFirstWithId([t], t.id, 0);
    }
    assert NeedsCompletion([t])(w);
    assert [w, w][..1] == [w];
    assert [w][..0] == [];
    assert Pending([t], [w]) == [w];
    assert ApplyToggles([t], [w]) == [Flipped(t)];
    assert [w, w][..1] == [w];
  }

  // ---------------------------------------------------------------------
  // The store

  /** How a mutating operation leaves the store: on failure nothing is saved
      or pushed; on success the new list is saved and pushed once. */
  ghost predicate Committed(o: Outcome, step: Result<seq<Task>>,
                            blob0: Blob, pushes0: seq<seq<WidgetRecord>>,
                            blob1: Blob, pushes1: seq<seq<WidgetRecord>>)
  {
    match step
    case Err(e) => o == Failed(e) && blob1 == blob0 && pushes1 == pushes0
    case Ok(ts) => o == Done && blob1 == Save(ts) && pushes1 == pushes0 + [Project(ts)]
  }

  /** What a sync pass against `mirror` does to a store that loaded as
      `ts`: one toggle and one push per pending record, then one more push;
      with nothing pending, nothing at all. */
  ghost predicate Reconciled(ts: seq<Task>, mirror: seq<WidgetRecord>,
                             blob0: Blob, pushes0: seq<seq<WidgetRecord>>,
                             blob1: Blob, pushes1: seq<seq<WidgetRecord>>)
  {
    var plan := Pending(ts, mirror);
    var synced := ApplyToggles(ts, plan);
    && (plan == [] ==> blob1 == blob0 && pushes1 == pushes0)
    && (plan != [] ==> blob1 == Save(synced) && pushes1 == pushes0 + TogglePushes(ts, plan) + [Project(synced)])
  }

  class AsyncTaskStore {
    /** The item under the key "TASKS". */
    var blob: Blob
    /** Every list pushed to the widget mirror, oldest first. A push that
        the transport drops is still recorded; its failure is swallowed. */
    ghost var pushes: seq<seq<WidgetRecord>>

    constructor (stored: Blob)
      ensures blob == stored && pushes == []
    {
      blob := stored;
      pushes := [];
    }

    method LoadTasks() returns (r: Result<seq<Task>>)
      ensures r == Load(blob)
    {
      match blob
      case Empty => r := Ok([]);
      case Malformed => r := Err(Unparsable);
      case Records(rs) =>
        var tasks: seq<Task> := [];
        for i := 0 to |rs|
          invariant tasks == seq(i, k requires 0 <= k < i => Normalize(rs[k]))
        {
          tasks := tasks + [Normalize(rs[i])];
        }
        r := Ok(tasks);
    }

    method SaveTasks(ts: seq<Task>)
      modifies this`blob
      ensures blob == Save(ts)
    {
      blob := Save(ts);
    }

    /** `syncToWidget`: reload the stored list and push it. */
    method SyncToWidget() returns (o: Outcome)
      modifies this`pushes
      ensures Load(blob).Err? ==> o == Failed(Load(blob).error) && pushes == old(pushes)
      ensures Load(blob).Ok? ==> o == Done && pushes == old(pushes) + [Project(Load(blob).value)]
    {
      var loaded := LoadTasks();
      if loaded.Err? {
        return Failed(loaded.error);
      }
      pushes := pushes + [Project(loaded.value)];
      o := Done;
    }

    /** Save, then push what was saved. */
    method Commit(ts: seq<Task>) returns (o: Outcome)
      modifies this
      ensures o == Done && blob == Save(ts) && pushes == old(pushes) + [Project(ts)]
    {
      SaveTasks(ts);
      LoadSave(ts);
      o := SyncToWidget();
    }

    method GetAllTasks() returns (r: Result<seq<Task>>)
      ensures r == Load(blob)
    {
      r := LoadTasks();
    }

    method GetIncompleteTasks() returns (r: Result<seq<Task>>)
      ensures Load(blob).Err? ==> r == Load(blob)
      ensures Load(blob).Ok? ==> r == Ok(Filter(Load(blob).value, IsIncomplete))
    {
      var tasks := LoadTasks();
      if tasks.Err? {
        return tasks;
      }
      r := Ok(Filter(tasks.value, IsIncomplete));
    }

    method GetCompletedTasks() returns (r: Result<seq<Task>>)
      ensures Load(blob).Err? ==> r == Load(blob)
      ensures Load(blob).Ok? ==> r == Ok(Filter(Load(blob).value, IsCompleted))
    {
      var tasks := LoadTasks();
      if tasks.Err? {
        return tasks;
      }
      r := Ok(Filter(tasks.value, IsCompleted));
    }

    method ToggleTaskStatus(id: string) returns (o: Outcome)
      modifies this
      ensures Committed(o, if Load(old(blob)).Err? then Load(old(blob)) else ToggleStatus(Load(old(blob)).value, id),
                        old(blob), old(pushes), blob, pushes)
    {
      var loaded := LoadTasks();
      if loaded.Err? {
        return Failed(loaded.error);
      }
      var tasks := loaded.value;
      var index := FirstIndex(tasks, HasId(id));
      if index.None? {
        return Failed(TaskNotFound);
      }
      var i := index.value;
      tasks := tasks[i := tasks[i].(completed := !tasks[i].completed)];
      o := Commit(tasks);
    }

    method AddTask(task: Task) returns (o: Outcome)
      modifies this
      ensures Committed(o, if Load(old(blob)).Err? then Load(old(blob)) else Ok(Load(old(blob)).value + [task]),
                        old(blob), old(pushes), blob, pushes)
    {
      var loaded := LoadTasks();
      if loaded.Err? {
        return Failed(loaded.error);
      }
      var tasks := loaded.value + [task];
      o := Commit(tasks);
    }

    method GetTaskById(id: string) returns (r: Result<Task>)
      ensures Load(blob).Err? ==> r == Err(Load(blob).error)
      ensures Load(blob).Ok? ==> r == FindById(Load(blob).value, id)
    {
      var loaded := LoadTasks();
      if loaded.Err? {
        return Err(loaded.error);
      }
      r := FindById(loaded.value, id);
    }

    method UpdateTask(task: Task) returns (o: Outcome)
      modifies this
      ensures Committed(o, if Load(old(blob)).Err? then Load(old(blob)) else ReplaceTask(Load(old(blob)).value, task),
                        old(blob), old(pushes), blob, pushes)
    {
      var loaded := LoadTasks();
      if loaded.Err? {
        return Failed(loaded.error);
      }
      var tasks := loaded.value;
      var index := FirstIndex(tasks, HasId(task.id));
      if index.None? {
        return Failed(TaskNotFound);
      }
      tasks := tasks[index.value := task];
      o := Commit(tasks);
    }

    method DeleteTask(id: string) returns (o: Outcome)
      modifies this
      ensures Committed(o, if Load(old(blob)).Err? then Load(old(blob)) else Ok(DeleteAll(Load(old(blob)).value, id)),
                        old(blob), old(pushes), blob, pushes)
    {
      var loaded := LoadTasks();
      if loaded.Err? {
        return Failed(loaded.error);
      }
      var updated := Filter(loaded.value, LacksId(id));
      o := Commit(updated);
    }

    method UpdateOrder(taskIds: seq<string>, date: int) returns (o: Outcome)
      modifies this
      ensures Committed(o, if Load(old(blob)).Err? then Load(old(blob)) else Reorder(Load(old(blob)).value, taskIds, date),
                        old(blob), old(pushes), blob, pushes)
    {
      var loaded := LoadTasks();
      if loaded.Err? {
        return Failed(loaded.error);
      }
      var tasks := loaded.value;
      var targetDateTasks := Filter(tasks, DueOn(date));
      var otherTasks := Filter(tasks, NotDueOn(date));
      var taskMap := ById(targetDateTasks);
      var reordered := Renumber(taskIds, taskMap, 1);
      if reordered.Err? {
        return Failed(reordered.error);
      }
      o := Commit(otherTasks + reordered.value);
    }

    /** `syncFromWidget`. `pulled` is what the mirror read resolved with, or
        None when it rejected; any failure ends the pass silently. */
    method SyncFromWidget(pulled: Option<seq<WidgetRecord>>)
      modifies this
      ensures Load(old(blob)).Err? || pulled.None? ==> blob == old(blob) && pushes == old(pushes)
      ensures Load(old(blob)).Ok? && pulled.Some? ==>
        Reconciled(Load(old(blob)).value, pulled.value, old(blob), old(pushes), blob, pushes)
    {
      var appTasks := GetAllTasks();
      if appTasks.Err? || pulled.None? {
        return;
      }
      ApplyMirror(appTasks.value, pulled.value);
    }

    /** The loop of `syncFromWidget`: toggle each task that the snapshot
        shows incomplete and the mirror shows completed, then push once more
        if anything changed. */
    method ApplyMirror(appTasks: seq<Task>, widgetTasks: seq<WidgetRecord>)
      requires Load(blob) == Ok(appTasks)
      modifies this
      ensures Reconciled(appTasks, widgetTasks, old(blob), old(pushes), blob, pushes)
    {
      var hasChanges := false;
      ghost var plan: seq<WidgetRecord> := [];
      for i := 0 to |widgetTasks|
        invariant plan == Filter(widgetTasks[..i], NeedsCompletion(appTasks))
        invariant hasChanges <==> plan != []
        invariant plan == [] ==> blob == old(blob)
        invariant plan != [] ==> blob == Save(ApplyToggles(appTasks, plan))
        invariant Load(blob) == Ok(ApplyToggles(appTasks, plan))
        invariant pushes == old(pushes) + TogglePushes(appTasks, plan)
      {
        var widgetTask := widgetTasks[i];
        var appTask := FindById(appTasks, widgetTask.id);
        FilterPrefixStep(widgetTasks, i, NeedsCompletion(appTasks));
        if appTask.Ok? && !appTask.value.completed && widgetTask.completed {
          ghost var next := plan + [widgetTask];
          ghost var pushed := Project(ApplyToggles(appTasks, next));
          ToggleStep(appTasks, plan, widgetTask);
          LoadSave(ApplyToggles(appTasks, next));
          label before:
          var _ := ToggleTaskStatus(widgetTask.id);
          assert pushes == old@before(pushes) + [pushed];
          AppendAssociates(old(pushes), TogglePushes(appTasks, plan), [pushed]);
          hasChanges := true;
          plan := next;
        }
      }
      assert widgetTasks[..|widgetTasks|] == widgetTasks;
      assert plan == Pending(appTasks, widgetTasks);
      if hasChanges {
        var _ := SyncToWidget();
      }
    }
  }
}
