/** Sequences of menu actions on one task queue, stated as what the core guarantees about them. */
module Session {
  import opened Wrappers
  import opened Tasks
  import opened TaskViews
  import opened TaskQueues

  /** Add "Buy milk" (Medium) and then "File taxes" (Critical) to a new queue. */
  method AddTwo() returns (tq: TaskQueue, milk: Task, taxes: Task)
    ensures fresh(tq) && fresh(tq.queue) && fresh(milk) && fresh(taxes)
    ensures tq.queue.elements == [milk, taxes] && tq.Distinct()
    ensures tq.Records() == [Record("Buy milk", Medium, Pending), Record("File taxes", Critical, Pending)]
  {
    tq := new TaskQueue();
    assert tq.Records() == [];
    milk := tq.AddTask("Buy milk", Medium);
    taxes := tq.AddTask("File taxes", Critical);
  }

  /** The next pending task of that queue is its head, "Buy milk"; completing it marks exactly that task. */
  method CompleteFirstOfTwo() returns (tq: TaskQueue, next: Option<Task>, marked: Option<Task>)
    ensures |tq.queue.elements| == 2 && next.Some? && next.value == tq.queue.elements[0]
    ensures marked == next
    ensures tq.Records() == [Record("Buy milk", Medium, Completed), Record("File taxes", Critical, Pending)]
  {
    var milk, taxes;
    tq, milk, taxes := AddTwo();
    ghost var before := tq.Records();
    next := tq.NextPending();
    assert FirstWithStatus(before, Pending) == 0;
    marked := tq.CompleteNext();
    assert MarkCompleted(before, 0) == [Record("Buy milk", Medium, Completed), Record("File taxes", Critical, Pending)];
  }

  /** Afterwards the next pending task is "File taxes" and the next completed one is "Buy milk". */
  method LookUpAfterCompletingFirst(tq: TaskQueue) returns (afterwards: Option<Task>, completed: Option<Task>)
    requires tq.Records() == [Record("Buy milk", Medium, Completed), Record("File taxes", Critical, Pending)]
    ensures afterwards.Some? && afterwards.value.description == "File taxes" && afterwards.value == tq.queue.elements[1]
    ensures completed.Some? && completed.value.description == "Buy milk" && completed.value == tq.queue.elements[0]
  {
    ghost var rs := tq.Records();
    FirstWithStatusUnique(rs, Pending, 1);
    FirstWithStatusUnique(rs, Completed, 0);
    afterwards := tq.NextPending();
    completed := tq.NextCompleted();
  }

  /** Listing that queue shows "File taxes" as pending, then "Buy milk" as completed, and no warning. */
  method ListAfterCompletingFirst(tq: TaskQueue) returns (listing: seq<Line>)
    requires tq.Records() == [Record("Buy milk", Medium, Completed), Record("File taxes", Critical, Pending)]
    ensures listing == [Row(Record("File taxes", Critical, Pending)), Row(Record("Buy milk", Medium, Completed))]
  {
    listing := tq.List();
    ghost var rs := tq.Records();
    assert rs[1..][1..] == [];
    assert Matching(rs, Pending) == [rs[1]];
    assert Matching(rs, Completed) == [rs[0]];
  }

  /** After clearing a non-empty queue its length is 0 and peek and dequeue find nothing. */
  method ClearThenLookUp() returns (length: nat, head: Option<Task>, removed: Option<Task>)
    ensures length == 0 && head == None && removed == None
  {
    var tq := new TaskQueue();
    var t := tq.AddTask("Buy milk", Medium);
    tq.queue.Clear();
    length := tq.queue.Length();
    head := tq.queue.Peek();
    removed := tq.queue.Dequeue();
  }
}
