/** The task entity: its two closed enumerations, its value snapshot and the mutable record. */
module Tasks {

  /** The five priority labels; purely descriptive, never used for ordering. */
  datatype Priority = Lowest | Low | Medium | High | Critical {

    /** The display string each enumerator carries as its value. */
    function Label(): (r: string)
      ensures 4 <= |r| <= 11
    {
      match this
      case Lowest => "Muito Baixa"
      case Low => "Baixa"
      case Medium => "Média"
      case High => "Alta"
      case Critical => "Muito Alta"
    }
  }

  /** The two statuses; there is no intermediate state. */
  datatype Status = Pending | Completed {

    /** The display string each enumerator carries as its value. */
    function Label(): (r: string)
      ensures |r| == 8
    {
      match this
      case Pending => "Pendente"
      case Completed => "Completa"
    }
  }

  /** Distinct enumerators carry distinct display strings. */
  lemma LabelsDistinct(p: Priority, q: Priority, s: Status, t: Status)
    ensures p.Label() == q.Label() ==> p == q
    ensures s.Label() == t.Label() ==> s == t
  {
  }

  /** The three fields of a task at one moment: what a listing shows of it. */
  datatype Record = Record(description: string, priority: Priority, status: Status)

  /** The `toString` format: `<priority> - <description> - <status>`, using the labels. */
  function Rendering(r: Record): string
  {
    r.priority.Label() + " - " + r.description + " - " + r.status.Label()
  }

  /** The text in front of the description. */
  function Head(p: Priority): string
  {
    p.Label() + " - "
  }

  /** The text after the description. */
  function Tail(s: Status): string
  {
    " - " + s.Label()
  }

  /**
   * Three characters of the leading text that tell the priorities apart.
   * Every leading text has at least seven characters. The first character
   * separates "Baixa", "Alta" and the three starting with "M". The second
   * separates "Média" ('é') from the two "Muito" labels ('u'). The seventh
   * separates those two: 'B' in "Muito Baixa" and 'A' in "Muito Alta".
   */
  function Key(p: Priority): (char, char, char)
  {
    var h := Head(p);
    (h[0], h[1], h[6])
  }

  lemma KeyInjective(p: Priority, q: Priority)
    ensures |Head(p)| >= 7
    ensures Key(p) == Key(q) ==> p == q
  {
  }

  /** No priority's leading text is a prefix of another's. */
  lemma HeadsPrefixFree(p: Priority, q: Priority)
    requires |Head(p)| <= |Head(q)| && Head(p) == Head(q)[..|Head(p)|]
    ensures p == q
  {
    KeyInjective(p, q);
    assert Key(p) == Key(q);
  }

  /** The two trailing texts have the same length and differ at their fourth character. */
  lemma TailShape(s: Status)
    ensures |Tail(s)| == 11
    ensures Tail(s)[3] == if s == Pending then 'P' else 'C'
  {
  }

  /** Two renderings that agree agree on the priority, read off their leading text. */
  lemma SamePriority(a: Record, b: Record)
    requires Rendering(a) == Rendering(b)
    ensures a.priority == b.priority
  {
    var s := Rendering(a);
    var ha, hb := Head(a.priority), Head(b.priority);
    assert s == ha + (a.description + Tail(a.status));
    assert s == hb + (b.description + Tail(b.status));
    if |ha| <= |hb| {
      assert ha == s[..|ha|] == hb[..|ha|];
      HeadsPrefixFree(a.priority, b.priority);
    } else {
      assert hb == s[..|hb|] == ha[..|hb|];
      HeadsPrefixFree(b.priority, a.priority);
    }
  }

  /** Two renderings that agree agree on the status, read off their trailing text. */
  lemma SameStatus(a: Record, b: Record)
    requires Rendering(a) == Rendering(b)
    ensures a.status == b.status
  {
    var s := Rendering(a);
    var ta, tb := Tail(a.status), Tail(b.status);
    TailShape(a.status);
    TailShape(b.status);
    assert s == (Head(a.priority) + a.description) + ta;
    assert s == (Head(b.priority) + b.description) + tb;
    assert ta == s[|s| - 11..] == tb;
  }

  /** The rendering loses nothing: two records that render alike are the same record. */
  lemma RenderingInjective(a: Record, b: Record)
    requires Rendering(a) == Rendering(b)
    ensures a == b
  {
    SamePriority(a, b);
    SameStatus(a, b);
    var s := Rendering(a);
    var h, t := Head(a.priority), Tail(a.status);
    assert s == h + a.description + t == h + b.description + t;
    assert a.description == s[|h|..|s| - |t|] == b.description;
  }

  /** A task; its setters overwrite one field wholesale and validate nothing. */
  class Task {
    var description: string
    var priority: Priority
    var status: Status

    constructor (description: string, priority: Priority, status: Status)
      ensures Snapshot() == Record(description, priority, status)
    {
      this.description := description;
      this.priority := priority;
      this.status := status;
    }

    function Snapshot(): Record
      reads this
    {
      Record(description, priority, status)
    }

    method SetDescription(description: string)
      modifies this
      ensures Snapshot() == old(Snapshot()).(description := description)
    {
      this.description := description;
    }

    method SetPriority(priority: Priority)
      modifies this
      ensures Snapshot() == old(Snapshot()).(priority := priority)
    {
      this.priority := priority;
    }

    method SetStatus(status: Status)
      modifies this
      ensures Snapshot() == old(Snapshot()).(status := status)
    {
      this.status := status;
    }

    /** The `<priority> - <description> - <status>` text of the current fields. */
    function ToString(): (s: string)
      reads this
      ensures s == Rendering(Snapshot())
    {
      Rendering(Snapshot())
    }
  }

  /** The snapshots of a sequence of tasks, position by position. */
  function Snapshots(ts: seq<Task>): seq<Record>
    reads ts
  {
    seq(|ts|, i requires 0 <= i < |ts| reads ts => ts[i].Snapshot())
  }
}
