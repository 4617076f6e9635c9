/** The generic FIFO container: one sequence, position 0 is the head (the oldest element). */
module Queues {
  import opened Wrappers

  /** The order reversal the container applies in place. */
  function Reversed<T>(s: seq<T>): (r: seq<T>)
    ensures |r| == |s|
    ensures forall i :: 0 <= i < |s| ==> r[i] == s[|s| - 1 - i]
  {
    if s == [] then [] else Reversed(s[1..]) + [s[0]]
  }

  /** Reversing twice restores the original order. */
  lemma ReversedInvolution<T>(s: seq<T>)
    ensures Reversed(Reversed(s)) == s
  {
  }

  /** Reversing keeps exactly the same elements, each as often as before. */
  lemma {:induction false} ReversedSameElements<T>(s: seq<T>)
    ensures multiset(Reversed(s)) == multiset(s)
  {
    if s != [] {
      ReversedSameElements(s[1..]);
      assert s == [s[0]] + s[1..];
    }
  }

  class Queue<T(==)> {
    var elements: seq<T>

    constructor ()
      ensures elements == []
    {
      elements := [];
    }

    function Length(): (n: nat)
      reads this
      ensures n == 0 <==> elements == []
      ensures n == |elements|
    {
      |elements|
    }

    function IsEmpty(): (b: bool)
      reads this
      ensures b <==> elements == []
    {
      Length() == 0
    }

    function Last(): (r: Option<T>)
      reads this
      ensures r.Some? <==> elements != []
      ensures r.Some? ==> r.value == elements[|elements| - 1]
    {
      if |elements| == 0 then None else Some(elements[|elements| - 1])
    }

    function First(): (r: Option<T>)
      reads this
      ensures r.Some? <==> elements != []
      ensures r.Some? ==> r.value == elements[0]
    {
      if |elements| == 0 then None else Some(elements[0])
    }

    function Includes(x: T): (b: bool)
      reads this
      ensures b <==> exists i :: 0 <= i < |elements| && elements[i] == x
    {
      x in elements
    }

    function Peek(): (r: Option<T>)
      reads this
      ensures r.Some? <==> elements != []
      ensures r.Some? ==> r.value == elements[0]
    {
      First()
    }

    method Dequeue() returns (r: Option<T>)
      modifies this
      ensures old(elements) == [] ==> r == None && elements == []
      ensures old(elements) != [] ==> r == Some(old(elements)[0]) && elements == old(elements)[1..]
    {
      if |elements| == 0 {
        r := None;
      } else {
        r := Some(elements[0]);
        elements := elements[1..];
      }
    }

    method Enqueue(x: T)
      modifies this
      ensures elements == old(elements) + [x]
      ensures |elements| == |old(elements)| + 1
      ensures forall i :: 0 <= i < |old(elements)| ==> elements[i] == old(elements)[i]
    {
      elements := elements + [x];
    }

    method Clear()
      modifies this
      ensures elements == [] && Length() == 0 && Peek() == None
    {
      elements := [];
    }

    method Reverse()
      modifies this
      ensures elements == Reversed(old(elements))
      ensures multiset(elements) == multiset(old(elements))
      ensures old(elements) != [] ==> First() == old(Last()) && Last() == old(First())
    {
      ReversedSameElements(elements);
      elements := Reversed(elements);
    }

    /** The least position whose element satisfies `p`, or -1 when none does. */
    method FindIndex(p: T ~> bool) returns (r: int)
      requires forall x :: x in elements ==> p.requires(x)
      ensures -1 <= r < |elements|
      ensures r == -1 <==> forall i :: 0 <= i < |elements| ==> !p(elements[i])
      ensures 0 <= r ==> p(elements[r]) && forall i :: 0 <= i < r ==> !p(elements[i])
    {
      var i := 0;
      while i < |elements|
        invariant 0 <= i <= |elements|
        invariant forall j :: 0 <= j < i ==> !p(elements[j])
      {
        if p(elements[i]) {
          return i;
        }
        i := i + 1;
      }
      return -1;
    }
  }
}
