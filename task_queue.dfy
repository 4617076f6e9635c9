/**
 * The queue of tasks: a `Queue<Task>` together with the status-aware lookups,
 * the listings, and the two steps the menu performs on it (adding a new task
 * and completing the next pending one).
 */
module TaskQueues {
  import opened Wrappers
  import opened Tasks
  import opened Queues
  import opened TaskViews

  class TaskQueue {
    const queue: Queue<Task>

    constructor ()
      ensures fresh(queue) && queue.elements == []
    {
      queue := new Queue<Task>();
    }

    /** The tasks' current fields, in queue order. */
    ghost function Records(): seq<Record>
      reads queue, queue.elements
    {
      Snapshots(queue.elements)
    }

    /** No task object is held at two positions. */
    ghost predicate Distinct()
      reads queue
    {
      forall i, j :: 0 <= i < j < |queue.elements| ==> queue.elements[i] != queue.elements[j]
    }

    /** The earliest task that is not completed; the head is tried before the scan. */
    method NextPending() returns (r: Option<Task>)
      ensures r.None? <==> FirstWithStatus(Records(), Pending) == -1
      ensures r.Some? ==> r.value == queue.elements[FirstWithStatus(Records(), Pending)]
    {
      var next := queue.Peek();
      if next.Some? && next.value.status != Completed {
        return next;
      }
      var k := queue.FindIndex((t: Task) reads t => t.status != Completed);
      FirstWithStatusUnique(Records(), Pending, k);
      r := if k == -1 then None else Some(queue.elements[k]);
    }

    /** The earliest completed task; the head is tried before the scan. */
    method NextCompleted() returns (r: Option<Task>)
      ensures r.None? <==> FirstWithStatus(Records(), Completed) == -1
      ensures r.Some? ==> r.value == queue.elements[FirstWithStatus(Records(), Completed)]
    {
      var next := queue.Peek();
      if next.Some? && next.value.status == Completed {
        return next;
      }
      var k := queue.FindIndex((t: Task) reads t => t.status == Completed);
      FirstWithStatusUnique(Records(), Completed, k);
      r := if k == -1 then None else Some(queue.elements[k]);
    }

    /** Walk the queue once, emitting a row for each task with status `st`, then `none` if none was emitted. */
    method ListWithStatus(st: Status, none: Notice) returns (out: seq<Line>)
      ensures out == StatusListing(Records(), st, none)
    {
      var hasPrintedOne := false;
      out := [];
      ghost var rs := Records();
      for i := 0 to |queue.elements|
        invariant out == Rows(Matching(rs[..i], st))
        invariant hasPrintedOne <==> Matching(rs[..i], st) != []
      {
        var task := queue.elements[i];
        assert rs[i] == task.Snapshot();
        assert rs[..i + 1] == rs[..i] + [rs[i]];
        MatchingRowsSnoc(rs[..i], rs[i], st);
        MatchingAppend(rs[..i], [rs[i]], st);
        if task.status == st {
          out := out + [Row(task.Snapshot())];
          hasPrintedOne := true;
        }
      }
      assert rs[..|queue.elements|] == rs;
      if !hasPrintedOne {
        out := out + [Warning(none)];
      }
    }

    /** The pending tasks in queue order; when there are none, the "no completed notes" warning. */
    method ListPending() returns (out: seq<Line>)
      ensures out == PendingListing(Records())
    {
      out := ListWithStatus(Pending, NoCompletedNotes);
    }

    /** The completed tasks in queue order; when there are none, the "no pending notes" warning. */
    method ListCompleted() returns (out: seq<Line>)
      ensures out == CompletedListing(Records())
    {
      out := ListWithStatus(Completed, NoPendingNotes);
    }

    /** The pending listing, then the completed listing; on an empty queue, only the "no notes" warning. */
    method List() returns (out: seq<Line>)
      ensures queue.elements == [] ==> out == [Warning(NoNotes)]
      ensures out == FullListing(Records())
    {
      if queue.Length() == 0 {
        out := [Warning(NoNotes)];
        return;
      }
      var pending := ListPending();
      var completed := ListCompleted();
      out := pending + completed;
    }

    /** Create a task from the user's description and priority, always Pending, and enqueue it. */
    method AddTask(description: string, priority: Priority) returns (task: Task)
      modifies queue
      ensures fresh(task)
      ensures queue.elements == old(queue.elements) + [task]
      ensures Records() == old(Records()) + [Record(description, priority, Pending)]
      ensures old(Distinct()) ==> Distinct()
    {
      task := new Task(description, priority, Pending);
      queue.Enqueue(task);
    }

    /**
     * Mark the next pending task completed, if there is one. Only that task's
     * status changes; when the task is held at one position only, the records
     * are exactly the old ones with that position marked.
     */
    method CompleteNext() returns (marked: Option<Task>)
      modifies queue.elements
      ensures marked.None? <==> old(FirstWithStatus(Records(), Pending)) == -1
      ensures marked.Some? ==> marked.value == queue.elements[old(FirstWithStatus(Records(), Pending))]
      ensures forall i :: 0 <= i < |queue.elements| ==>
        Records()[i] == if marked == Some(queue.elements[i])
                        then old(Records()[i]).(status := Completed)
                        else old(Records()[i])
      ensures old(Distinct()) ==> Records() == MarkCompleted(old(Records()), old(FirstWithStatus(Records(), Pending)))
    {
      marked := NextPending();
      if marked.Some? {
        marked.value.SetStatus(Completed);
      }
    }
  }
}
