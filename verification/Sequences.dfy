/** Sequences without repetitions. */
module Sequences {

  predicate Distinct<T(==)>(q: seq<T>) {
    forall i, j :: 0 <= i < j < |q| ==> q[i] != q[j]
  }

  function Elements<T(==)>(q: seq<T>): set<T> {
    set x | x in q
  }

  /** As many elements as there are places for them. */
  lemma {:induction false} DistinctFits<T>(q: seq<T>, all: set<T>)
    requires Distinct(q) && forall i :: 0 <= i < |q| ==> q[i] in all
    ensures |q| <= |all|
  {
    if q != [] {
      DistinctFits(q[..|q| - 1], all - {q[|q| - 1]});
    }
  }

  lemma {:induction false} SetOfDistinct<T>(q: seq<T>)
    requires Distinct(q)
    ensures |Elements(q)| == |q|
  {
    if q != [] {
      var front, x := q[..|q| - 1], q[|q| - 1];
      SetOfDistinct(front);
      assert q == front + [x];
      assert x !in Elements(front);
      assert Elements(q) == Elements(front) + {x};
    }
  }
}
