# Task queue of a terminal to-do list, in Dafny

This project models the in-memory core of a single-user, terminal to-do list.
The core has three parts:

- a **task**: a description, a priority from five labels, and a status, Pending or Completed;
- a generic FIFO **queue** over one sequence, whose head is the oldest element;
- a **task queue** that adds status-aware lookups ("next pending", "next completed") and three listings to the queue.

The model also covers the two steps the interactive menu performs on the core:

- adding a task, which always starts out Pending;
- marking the next pending task as completed.

It also proves properties of these operations.

Files and modules, following the program's own structure:

- `wrappers.dfy` (`Wrappers`): `Option`, the "absent" result that the source writes as `undefined`.
- `tasks.dfy` (`Tasks`): the `Priority` and `Status` enumerations with their display labels (`Muito Baixa` … `Muito Alta`, `Pendente`, `Completa`); the value `Record` of one task's three fields; the rendering `<priority> - <description> - <status>`; and the class `Task`, whose setters overwrite one field in place. The three getters are not separate members: `Task.Snapshot()` returns all three fields at once as a `Record`, and every task-queue contract reads the tasks through it. `Task.ToString` is `Rendering` of the task's current fields.
- `queues.dfy` (`Queues`): the class `Queue<T>` over the field `elements: seq<T>`, and the reference function `Reversed`.
- `task_views.dfy` (`TaskViews`): pure views over a sequence of task records:
  - `FirstWithStatus`, the plain linear scan;
  - `Matching`, the filter by status;
  - the emitted listings `PendingListing`, `CompletedListing` and `FullListing`. A listing is a sequence of `Row(record)` and `Warning(notice)` items, standing in for console output;
  - `MarkCompleted`, the effect of completing one task.

  Each warning is a token named after the text it shows; `Notice.Text` holds the exact strings.
- `task_queue.dfy` (`TaskQueues`): the class `TaskQueue`. It holds a `Queue<Task>` instead of extending it, because the model has no class inheritance. Its methods are proved against `TaskViews` through the ghost function `Records()`, which gives the tasks' current fields in queue order.
- `session.dfy` (`Session`): the outcomes of two short menu sessions.
  - Adding two tasks and completing the first is one method on a fresh queue (`CompleteFirstOfTwo`, built on `AddTwo`).
  - The later lookups (`LookUpAfterCompletingFirst`) and the listing (`ListAfterCompletingFirst`) are separate methods. Each takes any task queue whose records are the pair `CompleteFirstOfTwo` ends with. They join that session only because their `requires` is its `ensures`; no single method runs the whole session.
  - Clearing a non-empty queue, then peeking and dequeuing, is one method on a fresh queue (`ClearThenLookUp`).

Points where the model follows the code rather than its descriptions:

- The comment above `list()` (src/index.ts:166) says completed tasks are listed first. The code lists the pending ones first, and so does the model.
- The "none" notices are swapped, and the model keeps them as written. The pending listing ends with the warning that says there are no *completed* notes (`NoCompletedNotes`, src/index.ts:143). The completed listing ends with the one that says there are no *pending* notes (`NoPendingNotes`, src/index.ts:163).
- The pending lookups test `status != Completed`, as the code does. The pending listing tests `status == Pending` instead, while the code tests `!== Completed` (src/index.ts:132). With two statuses the two tests agree.
- One task object may sit at two positions of the queue, because `enqueue` does not prevent it. `CompleteNext` therefore states its effect on every position holding the marked object. It states the exact one-position result only under `Distinct()`. `AddTask` keeps `Distinct()`, because its task is always new.

## Model

| member | source | states |
|---|---|---|
| `Tasks.Priority.Label` | src/index.ts:3-9 | the display string of each priority, by definition: the enum's string values `Muito Baixa`, `Baixa`, `Média`, `Alta`, `Muito Alta`; the contract states only their length, 4 to 11 characters |
| `Tasks.Status.Label` | src/index.ts:11-14 | the display string of each status, by definition: `Pendente` and `Completa`; the contract states only their 8-character length |
| `Tasks.LabelsDistinct` | src/index.ts:3-14 | different priorities have different display strings, and so do the two statuses |
| `Tasks.Task.ToString` | src/index.ts:53-55 | the task's current fields rendered as `<priority label> - <description> - <status label>`. The format is given by definition, in `Rendering`; `RenderingInjective` is the property proved about it |
| `Tasks.RenderingInjective` | src/index.ts:53-55 | two tasks whose `<priority> - <description> - <status>` renderings are equal have equal priority, description and status, so the rendering loses no field |
| `Tasks.Task.constructor` | src/index.ts:39-43 | a new task holds exactly the given description, priority and status |
| `Tasks.Task.SetDescription` | src/index.ts:49 | replaces the description; priority and status are unchanged |
| `Tasks.Task.SetPriority` | src/index.ts:50 | replaces the priority; description and status are unchanged |
| `Tasks.Task.SetStatus` | src/index.ts:51 | replaces the status; description and priority are unchanged |
| `Queues.Reversed` | src/index.ts:73 | the reversal has the same length and holds at position i the element at position n-1-i |
| `Queues.ReversedInvolution` | src/index.ts:73 | reversing twice gives back the original sequence |
| `Queues.ReversedSameElements` | src/index.ts:73 | reversing keeps the same multiset of elements |
| `Queues.Queue.constructor` | src/index.ts:59 | a new queue is empty |
| `Queues.Queue.Length` | src/index.ts:62 | the number of elements; zero exactly for the empty queue |
| `Queues.Queue.IsEmpty` | src/index.ts:68 | true exactly when the queue holds no element |
| `Queues.Queue.Last` | src/index.ts:64 | the tail element, absent exactly when the queue is empty |
| `Queues.Queue.First` | src/index.ts:65 | the head element, absent exactly when the queue is empty |
| `Queues.Queue.Includes` | src/index.ts:67 | true exactly when some position holds the given element |
| `Queues.Queue.Peek` | src/index.ts:69 | the head element without removing it; absent exactly when the queue is empty |
| `Queues.Queue.Dequeue` | src/index.ts:70 | on an empty queue: absent and no change; otherwise returns the old head and leaves the old contents minus position 0 |
| `Queues.Queue.Enqueue` | src/index.ts:71 | appends at the tail; the length grows by one and every earlier element keeps its position |
| `Queues.Queue.Clear` | src/index.ts:72 | the queue becomes empty: length 0 and peek absent |
| `Queues.Queue.Reverse` | src/index.ts:73 | the new contents are the reversal of the old ones, with the same elements; on a non-empty queue the old first and last swap places |
| `Queues.Queue.FindIndex` | src/index.ts:82-85 | the least position whose element satisfies the predicate, or -1 exactly when none does; nothing is changed |
| `TaskViews.FirstWithStatus` | src/index.ts:104-108 | the plain scan: the least position holding the given status, or -1 exactly when no position does |
| `TaskViews.FirstWithStatusUnique` | src/index.ts:118-122 | any position that holds the status and has none before it, or -1 when none holds it, is the scan's result |
| `TaskViews.MatchingMembers` | src/index.ts:131-140 | the filter keeps exactly the records with the given status |
| `TaskViews.MatchingAppend` | src/index.ts:151-160 | the filter keeps queue order: filtering a concatenation gives the concatenation of the filtered parts |
| `TaskViews.MatchingPartition` | src/index.ts:174-175 | the pending and the completed records together are the whole queue, each record counted once |
| `TaskViews.MatchingAll` | src/index.ts:131-140 | when every record has the status, the filter returns them all in order |
| `TaskViews.FirstMatchHeadsMatching` | src/index.ts:98-123 | the next task of a status is absent exactly when that listing has no rows, and is otherwise its first row |
| `TaskViews.MarkCompleted` | src/index.ts:227 | marking position k changes only that record's status, to Completed; -1 changes nothing |
| `TaskViews.CompleteNextEffect` | src/index.ts:224-231 | completing the next pending task lowers the pending count by one and raises the completed count by one; with no pending task nothing changes |
| `TaskViews.Notice.Text` | src/index.ts:143-170 | the exact warning texts, by definition: `Não há notas concluídas na fila.` (line 143), `Não há notas pendentes na fila.` (line 163) and `Não há notas na fila.` (line 170); the contract states only that they are non-empty |
| `TaskViews.NoticeTextsDistinct` | src/index.ts:163-170 | the three warnings have three different texts |
| `TaskViews.StatusListingExact` | src/index.ts:126-164 | a status listing shows a task exactly when it has that status; its warning appears exactly when no task has the status, and then it is the only line; no other warning appears |
| `TaskViews.FullListingShowsAll` | src/index.ts:167-176 | on a non-empty queue the full listing shows every task and only tasks of the queue, and no "no notes" warning |
| `TaskViews.FullListingAllPending` | src/index.ts:167-176 | a non-empty all-pending queue lists every task in queue order, then the completed part's warning |
| `TaskViews.FullListingAllCompleted` | src/index.ts:167-176 | a non-empty all-completed queue gives the pending part's warning, then every task in queue order |
| `TaskQueues.TaskQueue.constructor` | src/index.ts:96 | a new task queue holds no task |
| `TaskQueues.TaskQueue.NextPending` | src/index.ts:98-109 | the head check followed by the fallback scan returns the earliest task that is not completed, or absent when there is none; the same result as the plain scan, also on an empty queue; nothing is changed |
| `TaskQueues.TaskQueue.NextCompleted` | src/index.ts:112-123 | the head check followed by the fallback scan returns the earliest completed task, or absent when there is none; the same result as the plain scan; nothing is changed |
| `TaskQueues.TaskQueue.ListWithStatus` | src/index.ts:129-143 | one pass emits a row for each task of the status in queue order, then the warning when no row was emitted |
| `TaskQueues.TaskQueue.ListPending` | src/index.ts:126-144 | emits the pending listing; the "no completed notes" warning when nothing is pending |
| `TaskQueues.TaskQueue.ListCompleted` | src/index.ts:147-164 | emits the completed listing; the "no pending notes" warning when nothing is completed |
| `TaskQueues.TaskQueue.List` | src/index.ts:167-176 | an empty queue gives exactly the "no notes" warning; otherwise the pending listing, then the completed listing |
| `TaskQueues.TaskQueue.AddTask` | src/index.ts:208-215 | a new task with the given description and priority and status Pending is appended at the tail; distinct positions stay distinct |
| `TaskQueues.TaskQueue.CompleteNext` | src/index.ts:224-227 | marks the task the next-pending lookup returns, if any. Only that task's status changes, to Completed. Queue order and every other task are unchanged. Without duplicate objects the records are the old ones marked at that position |
| `Session.AddTwo` | src/index.ts:208-215 | adding "Buy milk" and then "File taxes" to a new queue gives two pending tasks in that order |
| `Session.CompleteFirstOfTwo` | src/index.ts:224-227 | from there, the next pending task is the head; completing the next pending task marks that same task, as the menu's complete step does, and it marks only "Buy milk" |
| `Session.LookUpAfterCompletingFirst` | src/index.ts:98-123 | afterwards the next pending task is "File taxes" (the scan skips the completed head), and the next completed one is "Buy milk" |
| `Session.ListAfterCompletingFirst` | src/index.ts:167-176 | listing then shows "File taxes" under pending, then "Buy milk" under completed, with no warning |
| `Session.ClearThenLookUp` | src/index.ts:69-72 | after clearing a non-empty queue, its length is 0 and both peek and dequeue give absent |

## Left out

- Interactive input: `TaskPriorityUtils.askTaskPriority` and the `mainMenu` loop with its option dispatch. Both are prompting and menu control. Only the core operations that the menu calls are modelled, plus its add-task step (`AddTask`) and its complete-next step (`CompleteNext`).
- `capitalizeWords`: it lower-cases the typed priority, then upper-cases each character matched by `\b\w`. The case mappings are JavaScript's default, locale-independent ones. The regular expression has no `u` flag, so `\w` matches ASCII word characters only; this is library behaviour and is not modelled.
- `TaskQueues.TaskQueue.AddTask`: its `priority` parameter has the closed type `Priority`, so the model assumes the prompt yields one of the five enum values. The source does not guarantee this. In "média", `é` is not a `\w` character, so `\b` sits before `d`, and `capitalizeWords` returns "MéDia". That string differs from `Média` (src/index.ts:6), so in the source every Medium task added through the menu stores, renders and lists a priority string outside the enum. The model cannot represent that string.
- Console output: `Queue.table`, the `console.table` layout of a listed task, `console.warn`/`console.info`/`console.clear`, and `Queue.toString` (a JSON dump). Listings are modelled as the sequence of emitted rows and warnings.
- The `try`/`catch` paths around enqueue, reverse and clear: they report runtime allocation failures, which have no behaviour to model.
- `Queue.items`: the getter hands out the internal array. The model makes `elements` a public field instead and does not model aliasing through that getter.
- `Queue.forEach` with an arbitrary callback: the model has its traversals only as the listing loop in `ListWithStatus`.
- `Queue.Includes` tests membership by Dafny equality on its element type. For tasks this is object identity, like JavaScript's `includes` on objects. JavaScript's treatment of `NaN` is not modelled.
- Priority order: the five labels are ordered Lowest to Critical only for presentation. The source never compares them, and neither does the model.
- `Tasks.Task.SetStatus` accepts either status, as the source's setter does. A status going back from Completed to Pending is never ruled out, because the source never does that but does not forbid it either.
