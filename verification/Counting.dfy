/** Cardinalities of sets that change by one element. */
module Counting {

  ghost function One(b: bool): nat { if b then 1 else 0 }

  lemma CardReplace<T>(A: set<T>, x: T, add: bool)
    ensures |A - {x} + (if add then {x} else {})| == |A| - One(x in A) + One(add)
  {
    if x in A {
      assert A == (A - {x}) + {x};
    } else {
      assert A - {x} == A;
    }
    if !add {
      assert A - {x} + {} == A - {x};
    }
  }

  /** A set of numbers below n has at most n elements. */
  lemma BelowBound(s: set<int>, n: nat)
    requires forall x :: x in s ==> 0 <= x < n
    ensures |s| <= n
  {
    if n == 0 {
      assert forall x :: x !in s;
      assert s == {};
    } else {
      BelowBound(s - {n - 1}, n - 1);
      if n - 1 in s {
        assert s == (s - {n - 1}) + {n - 1};
      } else {
        assert s - {n - 1} == s;
      }
    }
  }
}
