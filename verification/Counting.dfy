/** Counting arguments over finite sets and duplicate-free sequences. */
module Counting {

  function Elements<T(==)>(xs: seq<T>): set<T> {
    set x | x in xs
  }

  predicate Distinct<T(==)>(xs: seq<T>) {
    forall i, j :: 0 <= i < j < |xs| ==> xs[i] != xs[j]
  }

  lemma {:induction false} DistinctCount<T>(xs: seq<T>)
    requires Distinct(xs)
    ensures |Elements(xs)| == |xs|
  {
    if xs != [] {
      var n := |xs| - 1;
      DistinctCount(xs[..n]);
      assert xs == xs[..n] + [xs[n]];
      assert Elements(xs) == Elements(xs[..n]) + {xs[n]};
    }
  }

  lemma Pick<T>(s: set<T>) returns (x: T)
    requires |s| > 0
    ensures x in s
  {
    x :| x in s;
  }

  lemma DistinctSnoc<T>(xs: seq<T>, x: T)
    requires Distinct(xs) && x !in Elements(xs)
    ensures Distinct(xs + [x]) && Elements(xs + [x]) == Elements(xs) + {x}
  {
    assert forall i :: 0 <= i < |xs| ==> xs[i] in Elements(xs);
  }

  function Range(n: nat): (r: set<int>)
    ensures forall i :: i in r <==> 0 <= i < n
  {
    if n == 0 then {} else Range(n - 1) + {n - 1}
  }

  lemma {:induction false} RangeCount(n: nat)
    ensures |Range(n)| == n
  {
    if n > 0 {
      RangeCount(n - 1);
    }
  }

  /** A subset with as many elements is the whole set. */
  lemma {:induction false} SameSizeSubset<T>(a: set<T>, b: set<T>)
    requires a <= b && |a| >= |b|
    ensures a == b
  {
    if x :| x in b && x !in a {
      assert a <= b - {x};
      SubsetCount(a, b - {x});
    }
  }

  lemma {:induction false} SubsetCount<T>(a: set<T>, b: set<T>)
    requires a <= b
    ensures |a| <= |b|
    decreases a
  {
    if x :| x in a {
      SubsetCount(a - {x}, b - {x});
    }
  }

  /** n distinct numbers below n are all of them. */
  lemma DistinctCoversRange(xs: seq<int>, n: nat)
    requires Distinct(xs) && |xs| >= n
    requires forall i :: 0 <= i < |xs| ==> 0 <= xs[i] < n
    ensures forall k :: 0 <= k < n ==> k in xs
  {
    DistinctCount(xs);
    RangeCount(n);
    SameSizeSubset(Elements(xs), Range(n));
    forall k | 0 <= k < n ensures k in xs {
      assert k in Range(n);
    }
  }
}
