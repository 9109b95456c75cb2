# Organiser task store, modelled in Dafny

This project models the task store of the Organiser app in Dafny. The app is a to-do list for phones, and an iOS home-screen widget shares its tasks. The model has six parts:

- **The canonical store** (`AsyncTaskPersistence`, module `Persistence`). It keeps one JSON list under the key "TASKS" and rewrites the whole list on every change. After each change it pushes the list to the widget's mirror. `syncFromWidget` pulls completion flips back from the mirror. The store is a class: `blob` is the stored item and the ghost `pushes` records every mirror push. Each operation is a method, proved against a pure step function on lists: `ToggleStatus`, `ReplaceTask`, `DeleteAll`, `Reorder`, `ApplyToggles`.
- **The debug store** (`DummyTaskPersistence`, module `DummyPersistence`). It is an in-memory list that its methods change in place. It is seeded with three tasks relative to the clock.
- **The view helpers** (module `TaskUtils`).
  - Grouping upcoming tasks into Overdue, Today, Tomorrow and Coming Up.
  - Grouping completed tasks into Today, Yesterday, This Week and Older.
  - The view-side completion toggle.
  - The grouping functions are methods with the source's single loop over four buckets. Each is proved equal to a specification. Lemmas show that specification is a partition, in heading order, with every task under the right heading.
- **The widget's reader and writer** (`TodoDataStore`, module `WidgetStore`). It filters, sorts twice and truncates to pick the tasks the widget shows, and it marks a task complete.
- **The widget's two day tests** (module `TimeInterval`).
- **The pure helpers of the HTTP client** (module `Api`).
  - The audio MIME type chosen for an upload.
  - The error messages thrown for failed responses, on a small model of JavaScript values: falsy for `||`, nullish for `??`, `typeof` and `String()`.
  - The query string, with the `application/x-www-form-urlencoded` serializer and a proved decode round trip.
  - The request body and the request built from the options.

`Common` and `Sorting` hold shared definitions. `Common` has `Filter`, `FirstIndex` and `LastIndex` with their laws. `Sorting` has a stable insertion sort by an integer key, which stands for `Array.prototype.sort` and Swift's `sorted(by:)`. It is proved sorted, a permutation and stable.

Clock readings, storage contents, the mirror's contents and HTTP responses are all parameters. Behaviour of the code that is easy to misread:
- `getAudioMimeType` labels a name with no "." by its whole text, so "mp3" is "audio/mpeg". It is not always the fallback.
- `isThisWeek` is strict at both ends of the ISO week.
- `updateOrder` compares due dates for exact equality.
- `updateOrder` takes the last task due at that instant when two share an id.

## Model

| member | source | states |
|---|---|---|
| Tasks.CompletionPartition | services/persistence.ts:86-94 | the incomplete and the completed views split the list: multisets add up to the list, each view holds exactly the tasks of its kind |
| Tasks.FindById | services/persistence.ts:112-117 | fails with "Task not found" exactly when no task has the id; otherwise returns the first task with it |
| Tasks.ToggleStatus | services/persistence.ts:96-100 | fails exactly when the id is absent; otherwise flips `completed` of the first task with the id and changes nothing else |
| Tasks.ToggleTwiceRestores | services/persistence.ts:96-100 | toggling the same present id twice gives back the original list |
| Tasks.ReplaceTask | services/persistence.ts:119-123 | fails exactly when the new task's id is absent; otherwise overwrites only the first task with that id |
| Tasks.ReplaceWithFoundIsIdentity | services/persistence.ts:112-123 | writing back the task that lookup returned leaves the list unchanged |
| Tasks.DeleteAll | services/persistence.ts:128-131 | no task with the id remains, every other task is kept, and nothing is added |
| Tasks.DeleteAllIdempotent | services/persistence.ts:128-131 | deleting twice is deleting once; deleting an absent id changes nothing |
| Tasks.DeleteAllKeepsOrder | services/persistence.ts:130 | deleting from a concatenation deletes from each part, so survivors keep their order |
| Tasks.DeleteOnly | services/persistence.ts:130 | removing the only task with an id leaves exactly the tasks around it |
| Tasks.RemoveFirst | services/debug/dummyPersistence.ts:60-64 | fails exactly when the id is absent; otherwise splices out the first task with it |
| Tasks.DeletesCompared | services/debug/dummyPersistence.ts:60-64 | the debug delete fails where the real one is a no-op, and the two agree exactly when the id occurs once |
| Persistence.Load | services/persistence.ts:55-75 | a missing or empty item loads as [], unparsable text fails, records load one task each |
| Persistence.LoadFillsDefaults | services/persistence.ts:64-72 | each loaded task carries its record's fields, with missing tags as [] and a missing order as 0 |
| Persistence.LoadSave | services/persistence.ts:55-79 | what is saved loads back unchanged |
| Persistence.LoadIsStable | services/persistence.ts:55-79 | a loaded list saved and loaded again is the same list |
| Persistence.ProjectDropsOnlyOrder | services/widgetSync.ts:17-24 | two lists push the same mirror exactly when they differ at most in `order` |
| Persistence.Named | services/persistence.ts:140 | the task an id names is in the list with that id, and exists exactly when the id does |
| Persistence.ByIdSpec | services/persistence.ts:140 | the id map has an entry exactly for the ids present, holding the last task with that id |
| Persistence.Renumber | services/persistence.ts:142-146 | a successful mapping has one task per id |
| Persistence.RenumberOutcome | services/persistence.ts:142-146 | the mapping fails exactly when some id is unknown, and it reports the first unknown id |
| Persistence.RenumberAt | services/persistence.ts:142-145 | position i of a successful mapping is the task for `ids[i]` with order first + i |
| Persistence.Reorder | services/persistence.ts:134-148 | a successful reorder holds the other tasks plus one task per listed id |
| Persistence.ReorderOutcome | services/persistence.ts:137-148 | a reorder fails exactly when some id names no task due at the date; on success the other tasks come first, unchanged |
| Persistence.ReorderEntry | services/persistence.ts:140-148 | the task after the others at offset i is the one `ids[i]` names in the group, with order i + 1 |
| Persistence.ReorderReportsFirstUnknownId | services/persistence.ts:142-144 | a failed reorder reports the first id that names no task due at the date |
| Persistence.SplitByDate | services/persistence.ts:137-138 | other-date tasks followed by same-date tasks split back into the two groups |
| Persistence.NamedInGroup | services/persistence.ts:137-143 | a task found in the group is due at the date and comes from the list |
| Persistence.ReorderSplit | services/persistence.ts:137-148 | the reordered list splits back into the untouched other tasks and the renumbered group |
| Persistence.ReorderGroupEntry | services/persistence.ts:142-148 | every task due at the date after a reorder carries a listed id, with order equal to its position + 1 |
| Persistence.ReorderDropsUnlisted | services/persistence.ts:137-148 | after a reorder, same-date tasks whose ids were not listed are gone |
| Persistence.ReorderedGroupAt | services/persistence.ts:137-148 | position i of the reordered group is the renumbered task for `ids[i]` |
| Persistence.ReorderedGroupIds | services/persistence.ts:142-148 | the reordered group has one task per listed id, in the listed order, numbered 1, 2, … |
| Persistence.RenamedAgain | services/persistence.ts:140-145 | looking a listed id up in the reordered group finds the task the first reorder placed |
| Persistence.ReorderAgainAt | services/persistence.ts:142-145 | a second identical reorder puts the same task at each renumbered position |
| Persistence.ReorderAgainOk | services/persistence.ts:137-144 | a second identical reorder succeeds and sees the same other tasks |
| Persistence.ReorderAgainPrefix | services/persistence.ts:138-148 | a second identical reorder keeps the other tasks where the first put them |
| Persistence.ReorderIdempotent | services/persistence.ts:134-148 | repeating the same reorder changes nothing |
| Persistence.ReorderKeepsOther | services/persistence.ts:138-148 | a task due at another instant survives a reorder unchanged |
| Persistence.ReorderKeepsListed | services/persistence.ts:140-148 | a listed task that is unique by id in its group survives with its new order |
| Persistence.ReorderKeepsListedGroup | services/persistence.ts:134-148 | when the ids list the group exactly once, the reorder succeeds, keeps the length and loses no task; only orders change |
| Persistence.ReorderTwoTasksExample | services/persistence.ts:134-148 | A then B due together, reordered as [B, A], gives B order 1 and A order 2 |
| Persistence.ApplyTogglesEffect | services/persistence.ts:36-41 | applying the toggles flips each task once per record naming it (only parity counts); nothing else changes |
| Persistence.ToggleStep | services/persistence.ts:39 | one more toggle of a present id succeeds and adds exactly one mirror push |
| Persistence.OddCountOfDistinct | services/persistence.ts:36-38 | with distinct mirror ids, a filtered mirror names an id an odd number of times exactly when one kept record has it |
| Persistence.SyncCompletesOnly | services/persistence.ts:36-42 | with distinct mirror ids, a sync completes exactly the incomplete tasks the mirror shows completed; it never un-completes and changes no other field |
| Persistence.SyncIdempotent | services/persistence.ts:27-48 | with distinct mirror ids, a second sync against the same mirror has nothing to toggle |
| Persistence.SyncRepeatedIdTogglesTwice | services/persistence.ts:30-41 | because the snapshot is not refreshed, a mirror naming an id twice toggles it twice and the task stays incomplete |
| Persistence.AsyncTaskStore.constructor | services/persistence.ts:18 | the store holds the given item and has pushed nothing |
| Persistence.AsyncTaskStore.LoadTasks | services/persistence.ts:55-75 | returns the loaded list or the parse failure |
| Persistence.AsyncTaskStore.SaveTasks | services/persistence.ts:77-79 | the item becomes the list's serialization |
| Persistence.AsyncTaskStore.SyncToWidget | services/persistence.ts:21-24 | reloads and pushes the stored list once; a failed load pushes nothing |
| Persistence.AsyncTaskStore.Commit | services/persistence.ts:101-102 | saves the list, then pushes exactly it once |
| Persistence.AsyncTaskStore.GetAllTasks | services/persistence.ts:82-84 | the loaded list |
| Persistence.AsyncTaskStore.GetIncompleteTasks | services/persistence.ts:86-89 | the incomplete tasks in store order, or the load failure |
| Persistence.AsyncTaskStore.GetCompletedTasks | services/persistence.ts:91-94 | the completed tasks in store order, or the load failure |
| Persistence.AsyncTaskStore.ToggleTaskStatus | services/persistence.ts:96-103 | on an absent id fails with nothing saved or pushed; otherwise saves and pushes the toggled list |
| Persistence.AsyncTaskStore.AddTask | services/persistence.ts:105-110 | saves and pushes the list with the task appended |
| Persistence.AsyncTaskStore.GetTaskById | services/persistence.ts:112-117 | the first task with the id, or "Task not found", or the load failure |
| Persistence.AsyncTaskStore.UpdateTask | services/persistence.ts:119-126 | on an absent id fails with nothing saved; otherwise saves and pushes the list with the first match replaced |
| Persistence.AsyncTaskStore.DeleteTask | services/persistence.ts:128-133 | saves and pushes the list without any task with the id |
| Persistence.AsyncTaskStore.UpdateOrder | services/persistence.ts:134-151 | on an unknown id fails with nothing saved; otherwise saves and pushes the reordered list once |
| Persistence.AsyncTaskStore.SyncFromWidget | services/persistence.ts:27-53 | a failed load or mirror read changes nothing; otherwise one toggle and one push per pending record, then one more push, or nothing when none is pending |
| Persistence.AsyncTaskStore.ApplyMirror | services/persistence.ts:33-48 | the loop over the mirror leaves the store reconciled with the snapshot and the mirror |
| DummyPersistence.Seed | services/debug/dummyPersistence.ts:4-26 | three tasks, due a day before the first, at the second and a day after the third clock reading |
| DummyPersistence.SeedViews | services/debug/dummyPersistence.ts:4-40 | the seed's ids are distinct; the completed view is task "1", the incomplete view tasks "2" and "3" |
| DummyPersistence.AddedIsFound | services/debug/dummyPersistence.ts:47-54 | a task added under a new id is found by that id |
| DummyPersistence.DummyTaskStore.constructor | services/debug/dummyPersistence.ts:4-26 | the list starts as the seed |
| DummyPersistence.DummyTaskStore.GetAllTasks | services/debug/dummyPersistence.ts:30-32 | a shallow copy of the list; the task objects are shared with the store |
| DummyPersistence.DummyTaskStore.GetIncompleteTasks | services/debug/dummyPersistence.ts:34-36 | exactly the incomplete tasks, a sub-multiset of the list, in store order |
| DummyPersistence.DummyTaskStore.GetCompletedTasks | services/debug/dummyPersistence.ts:38-40 | exactly the completed tasks, a sub-multiset of the list, in store order |
| DummyPersistence.DummyTaskStore.ToggleTaskStatus | services/debug/dummyPersistence.ts:42-46 | fails and leaves the list alone on an absent id; otherwise flips the first match in place |
| DummyPersistence.DummyTaskStore.AddTask | services/debug/dummyPersistence.ts:47-49 | the task is appended |
| DummyPersistence.DummyTaskStore.GetTaskById | services/debug/dummyPersistence.ts:50-54 | the first task with the id, or "Task not found" exactly when none has it |
| DummyPersistence.DummyTaskStore.UpdateTask | services/debug/dummyPersistence.ts:55-59 | fails and leaves the list alone on an absent id; otherwise overwrites the first match |
| DummyPersistence.DummyTaskStore.DeleteTask | services/debug/dummyPersistence.ts:60-64 | fails and leaves the list alone on an absent id; otherwise splices out the first match |
| TaskUtils.ShownMembers | utils/taskUtils.ts:50-58 | the pushed sections are exactly the candidates with tasks |
| TaskUtils.ShownAscending | utils/taskUtils.ts:50-58 | skipping empty sections keeps the headings' order |
| TaskUtils.ShownFlatten | utils/taskUtils.ts:50-58 | skipping empty sections loses no task |
| TaskUtils.FourWayPartition | utils/taskUtils.ts:32-44 | four distinct headings covering every task split the tasks exactly |
| TaskUtils.PushNonEmpty | utils/taskUtils.ts:50 | a section is pushed only when it has tasks |
| TaskUtils.PushFour | utils/taskUtils.ts:50-58 | four conditional pushes give the candidates with tasks, in order |
| TaskUtils.UpcomingTitleBounds | utils/taskUtils.ts:20-43 | with non-decreasing boundaries, each heading is one half-open interval of due instants, and later due instants never get an earlier heading |
| TaskUtils.UpcomingSectionsOrdered | utils/taskUtils.ts:50-58 | sections come in the order Overdue, Today, Tomorrow, Coming Up |
| TaskUtils.UpcomingSectionsContent | utils/taskUtils.ts:50-58 | every section is a non-empty bucket, Today sorted by order and the others in input order |
| TaskUtils.UpcomingSectionsComplete | utils/taskUtils.ts:50-58 | every non-empty bucket has its section |
| TaskUtils.UpcomingSectionsPartition | utils/taskUtils.ts:18-61 | the sections together hold each input task exactly as often as the input |
| TaskUtils.UpcomingPlacement | utils/taskUtils.ts:32-44 | a task shown under a heading is due in that heading's interval |
| TaskUtils.UpcomingTodayOrdered | utils/taskUtils.ts:52-56 | Today is sorted by order, is a permutation of its bucket, and keeps input order among equal orders |
| TaskUtils.GroupUpcomingTasksByDate | utils/taskUtils.ts:18-61 | the loop and pushes return exactly the specified sections |
| TaskUtils.CompletedWeekEdges | utils/taskUtils.ts:11-15 | a task due exactly at the week's first or last instant is Older; strictly inside it is This Week |
| TaskUtils.CompletedSectionsOrdered | utils/taskUtils.ts:90-93 | sections come in the order Today, Yesterday, This Week, Older |
| TaskUtils.CompletedSectionsContent | utils/taskUtils.ts:90-93 | every section is a non-empty bucket in input order |
| TaskUtils.CompletedSectionsComplete | utils/taskUtils.ts:90-93 | every non-empty bucket has its section |
| TaskUtils.CompletedSectionsPartition | utils/taskUtils.ts:64-96 | the sections together hold each input task exactly as often as the input |
| TaskUtils.CompletedPlacement | utils/taskUtils.ts:72-84 | a task shown under a heading is one the first-match classification sends there |
| TaskUtils.GroupCompletedTasksByDate | utils/taskUtils.ts:64-96 | the loop and pushes return exactly the specified sections |
| TaskUtils.ToggleOnView | utils/taskUtils.ts:99-105 | same length; only `completed` changes, and it flips exactly on tasks with the id |
| TaskUtils.ToggleOnViewTwice | utils/taskUtils.ts:99-105 | toggling twice on the view restores the list |
| TaskUtils.ToggleOnViewAbsent | utils/taskUtils.ts:99-105 | an absent id leaves the view unchanged where the store's toggle fails |
| TaskUtils.ToggleOnViewMatchesStore | utils/taskUtils.ts:99-105 | when exactly one task has the id, the view's toggle equals the store's |
| TimeInterval.DayEdges | ios/widget/Extensions/TimeInterval+Extensions.swift:12-35 | both tests are strict: today's midnight is today-or-earlier but not before today; tomorrow's midnight is neither |
| TimeInterval.BeforeTodayIsTodayOrEarlier | ios/widget/Extensions/TimeInterval+Extensions.swift:12-35 | before-today implies today-or-earlier, and the difference is exactly today's interval |
| WidgetStore.Prefix | ios/widget/Utility/TodoDataStore.swift:61 | the first n elements, or all when there are fewer |
| WidgetStore.EligibleIff | ios/widget/Utility/TodoDataStore.swift:42-53 | a task passes the filters exactly when it is stored, incomplete, due before tomorrow and, unless overdue tasks are wanted, not before today |
| WidgetStore.ArrangedPermutes | ios/widget/Utility/TodoDataStore.swift:55-59 | the two sorts permute the eligible tasks and leave them sorted by order |
| WidgetStore.FetchedShape | ios/widget/Utility/TodoDataStore.swift:35-62 | at most maxCount tasks, sorted by order, a prefix of the arranged list cut only at maxCount, each an eligible stored task; nothing when the data is missing |
| WidgetStore.FetchedUnderDefaults | ios/widget/Utility/TodoDataStore.swift:14-19 | with the default options overdue tasks are kept: a task is eligible exactly when it is stored, incomplete and due before tomorrow; at most ten are shown |
| WidgetStore.FetchedAllWhenRoom | ios/widget/Utility/TodoDataStore.swift:61 | when every eligible task fits, all are shown |
| WidgetStore.FetchedTieBreak | ios/widget/Utility/TodoDataStore.swift:55-59 | tasks sharing an order are shown earliest-due first |
| WidgetStore.MarkCompleted | ios/widget/Utility/TodoDataStore.swift:72-73 | only the first task with the id changes, and only its `completed`, which becomes true; an absent id changes nothing |
| WidgetStore.MarkCompletedIdempotent | ios/widget/Utility/TodoDataStore.swift:72-73 | marking the same id again changes nothing |
| WidgetStore.CompletedTaskLeavesWidget | ios/widget/Utility/TodoDataStore.swift:45-73 | with unique ids, a task the widget marks complete is no longer shown |
| WidgetStore.TodoDataStore.constructor | ios/widget/Utility/TodoDataStore.swift:29-32 | the store sees the given decoded entry |
| WidgetStore.TodoDataStore.GetTasks | ios/widget/Utility/TodoDataStore.swift:35-62 | the filter, sort, sort and prefix pipeline returns the specified tasks |
| WidgetStore.TodoDataStore.CompleteTask | ios/widget/Utility/TodoDataStore.swift:65-80 | missing data is left alone; otherwise the entry becomes the list with the first match completed |
| Sorting.SortBy | ios/widget/Utility/TodoDataStore.swift:56-59 | the result is sorted by the key and is a permutation of the input |
| Sorting.SortByStable | utils/taskUtils.ts:55 | among equal keys, the sort keeps input order |
| Common.FilterComplement | services/persistence.ts:130 | a filter and its complement split the list as a multiset |
| Api.NatText | services/api.ts:109 | a status is written as decimal digits without leading zeros |
| Api.NatTextRoundTrip | services/api.ts:174 | reading the written digits back gives the number |
| Api.CodeOf | services/api.ts:168 | extracts the text between a leading "[" and the first "]" |
| Api.FormatCodeRoundTrip | services/api.ts:168 | the code can be read back off a formatted message when it holds no "]" |
| Api.CodeRoundTrip | services/api.ts:162-169 | a structured message leads with the error's code, "unknown_error" when the code is falsy |
| Api.EmptyErrorMessage | services/api.ts:103-107 | an error with no fields, or one that is not an object, gets every default |
| Api.FalsyVersusNullish | services/api.ts:163-166 | an empty code, type or message falls back to its default, but an empty param stays empty and a zero param is written as 0 |
| Api.SendVersusUpload | services/api.ts:100-110 | a structured error object gives the same message on both paths; a truthy non-object error gives all defaults on upload but the unstructured fallback on a request; a falsy error on upload reports the status |
| Api.UnparsedBodyReportsStatus | services/api.ts:145-176 | a body that does not parse leaves "API Error: " and the status, which can be read back |
| Api.SendRequestOutcome | services/api.ts:145-179 | succeeds exactly when the response is ok, returning the parsed body or null when it does not parse; otherwise throws SendRequestError of that data and the status |
| Api.UploadOutcome | services/api.ts:96-112 | an unparsable body fails whatever the status; an ok response returns the parsed body; otherwise throws UploadError of the body and the status |
| Api.FailedOutcomes | services/api.ts:99-176 | a failed request with an unparsed body throws the readable status; a structured error object gives both calls the same message; an upload without an error reports its status |
| Api.Lower | services/api.ts:36 | same length, no upper-case letter left, only upper-case letters changed, each to its lower-case form |
| Api.LowerIdempotent | services/api.ts:36 | lowering twice is lowering once |
| Api.Extension | services/api.ts:36 | a suffix of the name with no ".", preceded by a "." unless it is the whole name |
| Api.MimeFor | services/api.ts:37-60 | always one of the seven audio types; any extension not listed is "audio/m4a" |
| Api.MimeIgnoresCase | services/api.ts:35-36 | the type does not depend on letter case |
| Api.ExtensionAfterDot | services/api.ts:36 | the extension of prefix + "." + ext, where ext has no ".", is ext |
| Api.MimeAfterLastDot | services/api.ts:35-60 | only the text after the last "." decides the type |
| Api.MimeWithoutDot | services/api.ts:35-60 | a name without "." is its own extension |
| Api.MimeOfBareExtension | services/api.ts:35-60 | "mp3" with no dot is labelled "audio/mpeg" |
| Api.Utf8 | services/api.ts:193 | one to four bytes, a single byte exactly for ASCII, continuation bytes in 0x80-0xBF |
| Api.EncodeByte | services/api.ts:193 | an encoded byte uses only "+", "%" and unreserved characters |
| Api.FormEncode | services/api.ts:193 | an encoded name or value never contains "&", "=", "?", "#" or a space |
| Api.DecodeByte | services/api.ts:193 | decoding an encoded byte gives the byte back and leaves the rest |
| Api.DecodeEncodeBytes | services/api.ts:193 | decoding undoes encoding for every byte string |
| Api.FormRoundTrip | services/api.ts:193 | a form-encoded string decodes to the UTF-8 bytes of the original |
| Api.Serialize | services/api.ts:193 | the serialization is empty exactly when there are no pairs |
| Api.BuildQueryString | services/api.ts:191-194 | "" exactly when the record is missing or has no keys; otherwise "?" followed by the serialized pairs |
| Api.BuildRequestBody | services/api.ts:183-188 | a form is sent as is; an undefined body is no body; any other value is sent as JSON |
| Api.RequestShape | services/api.ts:126-143 | without options the request is a bodiless GET of url + endpoint; queries only ever add text after url + endpoint, and add some exactly when there are pairs |

## Left out

- Storage, the widget mirror's native transport, `fetch`, `FormData` and the UI are not modelled. The stored item, the mirror's contents, the clock and HTTP responses are parameters.
- Asynchrony: each store operation runs to completion, with no interleaving between the awaits of two operations.
- Persistence.AsyncTaskStore: `pushes` is ghost. A push the transport drops, or one skipped on the simulator, is still recorded, because its failure is swallowed.
- Persistence.Load: records are assumed to be objects with the six fields. A stored value that parses but is not an array, or a falsy non-array `tags` value, is outside the model.
- Persistence.Save: `JSON.stringify` of a list of tasks is assumed to succeed.
- Persistence.ProjectDropsOnlyOrder: the mirror stores due dates in seconds (`dueDate * 1000` on the way back), but the app pushes milliseconds. The model keeps one integer and does not model that unit mismatch.
- WidgetStore.TodoTask: the widget's struct in ios/widget/Model/TodoTask.swift has no `order` field, yet `getTasks` sorts by `$0.order`. The model gives the record an `order` so that the sort can be stated.
- WidgetStore.TodoDataStore.GetTasks: `sorted(by:)` is modelled as a stable sort.
- WidgetStore.TodoDataStore.GetTasks: a negative `maxCount` traps in `prefix`, so it is a precondition.
- WidgetStore.TodoDataStore.CompleteTask: a failure of `JSONEncoder` is not modelled. It would leave the entry unchanged.
- TimeInterval: `TimeInterval` is a floating-point number of seconds. The model uses integers, and the day boundaries are parameters.
- `toReadableDate` (date formatting) is not modelled.
- TaskUtils: the dayjs calendar (local midnight, ISO weeks, daylight-saving shifts) is reduced to boundary instants passed in. Today, yesterday and the week are half-open or open intervals of due instants.
- TaskUtils.GroupCompletedTasksByDate: the source reads the clock again for every task, because `isToday`, `isYesterday` and `isThisWeek` each call `dayjs()`. The model classifies all tasks against one set of boundaries, so it does not show two tasks due at the same instant landing under different headings when midnight passes during the loop.
- TaskUtils.CompletedBounds: one set of boundaries stands for the many clock readings of `groupCompletedTasksByDate`. `groupUpcomingTasksByDate` reads the clock once, so its boundaries are exact.
- WidgetStore.TodoDataStore.GetTasks: the source reads the clock again for every task, because `isBeforeToday` and `isTodayOrEarlier` each call `Date()`. The model filters all tasks against one `Day`, so it does not show a task kept or dropped differently from another with the same due date when midnight passes during the filter.
- WidgetStore.Fetched: like `GetTasks`, it takes one `Day` where the source takes a clock reading per task and per test.
- DummyPersistence.Seed: the seed records have no `tags` or `order` in the source. The model fills in [] and 0.
- DummyPersistence: the debug store has no `updateOrder` in the source, so the model has none.
- DummyPersistence.DummyTaskStore.GetTaskById: the source returns the live object, so mutations through it alias the store. The model returns a value.
- DummyPersistence.DummyTaskStore.GetAllTasks: the source copies only the array. The task objects in the result are the store's own, so a later `toggleTaskStatus` shows through a list returned earlier. The model returns a value that later calls do not change.
- DummyPersistence.DummyTaskStore.GetIncompleteTasks: the filtered list holds the store's own task objects, with the same sharing as `getAllTasks`. The model returns values.
- DummyPersistence.DummyTaskStore.GetCompletedTasks: the filtered list holds the store's own task objects, with the same sharing as `getAllTasks`. The model returns values.
- DummyPersistence.DummyTaskStore.ToggleTaskStatus: the source flips `completed` on the shared task object, so every list returned before sees the change. The model replaces the task in `dataStore` only.
- DummyPersistence.DummyTaskStore.AddTask: the source stores the caller's object itself, so later changes by the caller reach the store and the reverse. The model stores a value.
- Api.Lower: only ASCII letters are lowered. `toLowerCase` also maps other Unicode letters.
- Api.Text: numbers are integers. Fractions, NaN, -0 and the exponent form used from 1e21 up are not modelled. Built-in properties such as `length` are not read by `Get`.
- Api.FormEncode: JavaScript strings are UTF-16, and a lone surrogate would become U+FFFD before encoding. Dafny characters cannot hold lone surrogates, so that case is not modelled.
- Api.FormRoundTrip: the round trip is stated at the level of UTF-8 bytes. UTF-8 decoding back to characters is not modelled.
- Api.BuildRequestBody: `JSON.stringify` is not modelled. A JSON body carries the value it encodes.
- Api: `uploadFile`'s form assembly and the `fetch` call are not modelled. Its MIME choice, error messages and outcome are.
- Persistence.ById: it has no contract of its own. Which ids it holds and the task kept under each one are characterized by `ByIdSpec`.
- Persistence.Renumber: its own contract states only the length. The contents are characterized by `RenumberOutcome` and `RenumberAt`.
- Persistence.Reorder: its own contract states only the length. The contents are characterized by `ReorderOutcome` and `ReorderEntry`.
