/** Majorities of the node ids 0 .. n-1. */
module Majorities {
  import opened RaftTypes

  function Ids(n: nat): (r: set<int>)
    ensures |r| == n
    ensures forall i :: i in r <==> 0 <= i < n
  {
    if n == 0 then {} else Ids(n - 1) + {n - 1}
  }

  ghost predicate Majority(n: nat, q: set<int>) {
    q <= Ids(n) && |q| >= Quorum(n)
  }

  lemma {:induction false} SubsetSize<T>(a: set<T>, b: set<T>)
    requires a <= b
    ensures |a| <= |b|
    decreases |a|
  {
    if a != {} {
      var x :| x in a;
      SubsetSize(a - {x}, b - {x});
    }
  }

  /** Any two majorities share a node. */
  lemma Overlap(n: nat, a: set<int>, b: set<int>) returns (v: int)
    requires Majority(n, a) && Majority(n, b)
    ensures v in a && v in b
  {
    SubsetSize(a + b, Ids(n));
    assert |a + b| == |a| + |b| - |a * b|;
    assert |a * b| > 0;
    v :| v in a * b;
  }
}
