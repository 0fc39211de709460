/** Queues without repetitions, and counting. */
module Queues {

  predicate NoDups(q: seq<nat>) { forall i, j :: 0 <= i < j < |q| ==> q[i] != q[j] }

  lemma Dequeue(q: seq<nat>)
    requires NoDups(q) && q != []
    ensures NoDups(q[1..]) && forall x :: x in q[1..] <==> x in q && x != q[0]
  {
    assert q == [q[0]] + q[1..];
  }

  function Bit(b: bool): nat { if b then 1 else 0 }

  lemma CardWithout(s: set<nat>, k: nat)
    ensures |s| == |s - {k}| + Bit(k in s)
  {
    if k in s { assert s == (s - {k}) + {k}; } else { assert s - {k} == s; }
  }
}
