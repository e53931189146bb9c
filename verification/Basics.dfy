/** What every component uses: an optional value, and how the sizes of sets compare. */
module Basics {

  datatype Option<+T> = None | Some(value: T)

  lemma {:induction false} SubsetSize<T>(a: set<T>, b: set<T>)
    requires a <= b
    ensures |a| <= |b|
  {
    if a != {} {
      var x :| x in a;
      SubsetSize(a - {x}, b - {x});
    }
  }

  /** A sequence without repetitions is no longer than a set that holds its members. */
  lemma {:induction false} DistinctMembers<T>(q: seq<T>, r: set<T>)
    requires forall i, j :: 0 <= i < j < |q| ==> q[i] != q[j]
    requires forall i :: 0 <= i < |q| ==> q[i] in r
    ensures |q| <= |r|
  {
    if q != [] {
      DistinctMembers(q[1..], r - {q[0]});
    }
  }
}
