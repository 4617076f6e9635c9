/**
 * Pure views of a queue's tasks, taken over their snapshots in queue order:
 * the plain linear scans behind "next pending" and "next completed", the
 * filter behind the listings, the emitted listings themselves, and the
 * effect of completing one task.
 */
module TaskViews {
  import opened Tasks

  /** The least position whose record has status `st`, or -1 when there is none. */
  function FirstWithStatus(rs: seq<Record>, st: Status): (k: int)
    ensures -1 <= k < |rs|
    ensures k == -1 <==> forall i :: 0 <= i < |rs| ==> rs[i].status != st
    ensures 0 <= k ==> rs[k].status == st && forall i :: 0 <= i < k ==> rs[i].status != st
  {
    if rs == [] then -1
    else if rs[0].status == st then 0
    else
      var k := FirstWithStatus(rs[1..], st);
      if k == -1 then -1 else k + 1
  }

  /** The records with status `st`, in the order they hold in `rs`. */
  function Matching(rs: seq<Record>, st: Status): (m: seq<Record>)
    ensures |m| <= |rs|
  {
    if rs == [] then []
    else (if rs[0].status == st then [rs[0]] else []) + Matching(rs[1..], st)
  }

  /** The filter keeps exactly the records with status `st`. */
  lemma {:induction false} MatchingMembers(rs: seq<Record>, st: Status)
    ensures forall r :: r in Matching(rs, st) <==> r in rs && r.status == st
  {
    if rs != [] {
      MatchingMembers(rs[1..], st);
      assert rs == [rs[0]] + rs[1..];
    }
  }

  /** The scan's result is the only position with the least-index property. */
  lemma FirstWithStatusUnique(rs: seq<Record>, st: Status, k: int)
    requires -1 <= k < |rs|
    requires k == -1 ==> forall i :: 0 <= i < |rs| ==> rs[i].status != st
    requires 0 <= k ==> rs[k].status == st && forall i :: 0 <= i < k ==> rs[i].status != st
    ensures FirstWithStatus(rs, st) == k
  {
  }

  /** Filtering keeps the order: the matches of a concatenation are the concatenated matches. */
  lemma {:induction false} MatchingAppend(a: seq<Record>, b: seq<Record>, st: Status)
    ensures Matching(a + b, st) == Matching(a, st) + Matching(b, st)
  {
    if a == [] {
      assert a + b == b;
    } else {
      var h := if a[0].status == st then [a[0]] else [];
      assert (a + b)[0] == a[0] && (a + b)[1..] == a[1..] + b;
      assert Matching(a + b, st) == h + Matching(a[1..] + b, st);
      MatchingAppend(a[1..], b, st);
      assert Matching(a, st) == h + Matching(a[1..], st);
    }
  }

  /** Every record is matched by exactly one of the two statuses. */
  lemma {:induction false} MatchingPartition(rs: seq<Record>)
    ensures multiset(Matching(rs, Pending)) + multiset(Matching(rs, Completed)) == multiset(rs)
  {
    if rs != [] {
      var rest := rs[1..];
      MatchingPartition(rest);
      assert rs == [rs[0]] + rest;
      if rs[0].status == Pending {
        assert Matching(rs, Pending) == [rs[0]] + Matching(rest, Pending);
        assert Matching(rs, Completed) == Matching(rest, Completed);
      } else {
        assert Matching(rs, Pending) == Matching(rest, Pending);
        assert Matching(rs, Completed) == [rs[0]] + Matching(rest, Completed);
      }
    }
  }

  /** When every record has status `st`, all of them match, in order. */
  lemma {:induction false} MatchingAll(rs: seq<Record>, st: Status)
    requires forall i :: 0 <= i < |rs| ==> rs[i].status == st
    ensures Matching(rs, st) == rs
  {
    if rs != [] {
      MatchingAll(rs[1..], st);
    }
  }

  /** The earliest match found by the scan is the first record of the filtered view. */
  lemma {:induction false} FirstMatchHeadsMatching(rs: seq<Record>, st: Status)
    ensures FirstWithStatus(rs, st) == -1 <==> Matching(rs, st) == []
    ensures 0 <= FirstWithStatus(rs, st) ==> Matching(rs, st)[0] == rs[FirstWithStatus(rs, st)]
  {
    if rs != [] && rs[0].status != st {
      FirstMatchHeadsMatching(rs[1..], st);
    }
  }

  /** The number of records with status `st`. */
  function Count(rs: seq<Record>, st: Status): nat
  {
    |Matching(rs, st)|
  }

  /** Mark the record at `k` completed; -1 (nothing found) leaves the records alone. */
  function MarkCompleted(rs: seq<Record>, k: int): (after: seq<Record>)
    requires -1 <= k < |rs|
    ensures |after| == |rs|
    ensures forall i :: 0 <= i < |rs| ==>
      && after[i].description == rs[i].description
      && after[i].priority == rs[i].priority
      && after[i].status == (if i == k then Completed else rs[i].status)
  {
    if k == -1 then rs else rs[k := rs[k].(status := Completed)]
  }

  lemma {:induction false} CountAfterUpdate(rs: seq<Record>, k: nat, r: Record, st: Status)
    requires k < |rs|
    ensures Count(rs[k := r], st) + (if rs[k].status == st then 1 else 0)
         == Count(rs, st) + (if r.status == st then 1 else 0)
  {
    if k == 0 {
      assert rs[k := r][1..] == rs[1..];
    } else {
      assert rs[k := r][1..] == rs[1..][k - 1 := r];
      CountAfterUpdate(rs[1..], k - 1, r, st);
    }
  }

  /**
   * Completing the next pending task removes exactly one task from the pending
   * part and adds it to the completed part when there is a pending task, and
   * changes nothing otherwise.
   */
  lemma CompleteNextEffect(rs: seq<Record>, after: seq<Record>)
    requires after == MarkCompleted(rs, FirstWithStatus(rs, Pending))
    ensures FirstWithStatus(rs, Pending) == -1 ==> after == rs
    ensures FirstWithStatus(rs, Pending) != -1 ==>
      && Count(after, Pending) == Count(rs, Pending) - 1
      && Count(after, Completed) == Count(rs, Completed) + 1
  {
    var k := FirstWithStatus(rs, Pending);
    if k != -1 {
      var r := rs[k].(status := Completed);
      assert rs[k].status == Pending;
      assert after == rs[k := r];
      CountAfterUpdate(rs, k, r, Pending);
      CountAfterUpdate(rs, k, r, Completed);
    }
  }

  /** The warnings the listings emit, named after the text they show. */
  datatype Notice =
    | NoCompletedNotes  // emitted by the pending listing when nothing is pending
    | NoPendingNotes    // emitted by the completed listing when nothing is completed
    | NoNotes           // emitted by the full listing on an empty queue
  {
    /** The exact warning text the source prints. */
    function Text(): (r: string)
      ensures |r| > 0
    {
      match this
      case NoCompletedNotes => "Não há notas concluídas na fila."
      case NoPendingNotes => "Não há notas pendentes na fila."
      case NoNotes => "Não há notas na fila."
    }
  }

  /** The three warnings are three different texts. */
  lemma NoticeTextsDistinct(m: Notice, n: Notice)
    ensures m.Text() == n.Text() ==> m == n
  {
  }

  /** One emitted item: a table of one task's three fields, or a warning. */
  datatype Line = Row(record: Record) | Warning(notice: Notice)

  function Rows(rs: seq<Record>): seq<Line>
  {
    seq(|rs|, i requires 0 <= i < |rs| => Row(rs[i]))
  }

  /** Extending the records by one extends the filtered rows by at most that one row. */
  lemma MatchingRowsSnoc(rs: seq<Record>, r: Record, st: Status)
    ensures Rows(Matching(rs + [r], st))
         == Rows(Matching(rs, st)) + (if r.status == st then [Row(r)] else [])
  {
    MatchingAppend(rs, [r], st);
    assert Matching([r], st) == if r.status == st then [r] else [];
    var m := Matching(rs, st);
    if r.status == st {
      assert Rows(m + [r]) == Rows(m) + [Row(r)];
    } else {
      assert m + [] == m;
    }
  }

  /** The rows of the records with status `st`, then `none` if there were no rows. */
  function StatusListing(rs: seq<Record>, st: Status, none: Notice): seq<Line>
  {
    var m := Matching(rs, st);
    Rows(m) + if m == [] then [Warning(none)] else []
  }

  function PendingListing(rs: seq<Record>): seq<Line>
  {
    StatusListing(rs, Pending, NoCompletedNotes)
  }

  function CompletedListing(rs: seq<Record>): seq<Line>
  {
    StatusListing(rs, Completed, NoPendingNotes)
  }

  /** All pending tasks, then all completed ones; a lone warning when there are no tasks. */
  function FullListing(rs: seq<Record>): seq<Line>
  {
    if rs == [] then [Warning(NoNotes)] else PendingListing(rs) + CompletedListing(rs)
  }

  /**
   * A status listing shows a task exactly when the task has that status, and
   * shows its warning exactly when no task has it; the warning is its last line.
   */
  lemma StatusListingExact(rs: seq<Record>, st: Status, none: Notice)
    ensures forall r :: Row(r) in StatusListing(rs, st, none) <==> r in rs && r.status == st
    ensures Warning(none) in StatusListing(rs, st, none)
        <==> forall i :: 0 <= i < |rs| ==> rs[i].status != st
    ensures StatusListing(rs, st, none) == Rows(Matching(rs, st)) || StatusListing(rs, st, none) == [Warning(none)]
    ensures forall n :: n != none ==> Warning(n) !in StatusListing(rs, st, none)
  {
    var m := Matching(rs, st);
    FirstMatchHeadsMatching(rs, st);
    MatchingMembers(rs, st);
    assert forall l :: l in Rows(m) ==> l.Row?;
    forall r | r in m ensures Row(r) in Rows(m) {
      var i :| 0 <= i < |m| && m[i] == r;
      assert Rows(m)[i] == Row(r);
    }
  }

  /**
   * On a non-empty queue every task is shown, and nothing else but the two
   * parts' warnings; that each is shown once, in queue order within its part,
   * is MatchingPartition and MatchingAppend.
   */
  lemma FullListingShowsAll(rs: seq<Record>)
    requires rs != []
    ensures Warning(NoNotes) !in FullListing(rs)
    ensures forall r :: Row(r) in FullListing(rs) <==> r in rs
  {
    StatusListingExact(rs, Pending, NoCompletedNotes);
    StatusListingExact(rs, Completed, NoPendingNotes);
    var p, c := PendingListing(rs), CompletedListing(rs);
    assert FullListing(rs) == p + c;
    forall r ensures Row(r) in p + c <==> r in rs {
      assert Row(r) in p + c <==> Row(r) in p || Row(r) in c;
    }
  }

  /** A non-empty queue of pending tasks lists all of them, then the completed part's warning. */
  lemma FullListingAllPending(rs: seq<Record>)
    requires rs != []
    requires forall i :: 0 <= i < |rs| ==> rs[i].status == Pending
    ensures FullListing(rs) == Rows(rs) + [Warning(NoPendingNotes)]
  {
    MatchingAll(rs, Pending);
    NoneMatch(rs, Completed);
  }

  /** A non-empty queue of completed tasks shows the pending part's warning, then all of them. */
  lemma FullListingAllCompleted(rs: seq<Record>)
    requires rs != []
    requires forall i :: 0 <= i < |rs| ==> rs[i].status == Completed
    ensures FullListing(rs) == [Warning(NoCompletedNotes)] + Rows(rs)
  {
    MatchingAll(rs, Completed);
    NoneMatch(rs, Pending);
  }

  lemma NoneMatch(rs: seq<Record>, st: Status)
    requires forall i :: 0 <= i < |rs| ==> rs[i].status != st
    ensures Matching(rs, st) == []
  {
    FirstMatchHeadsMatching(rs, st);
  }
}
