/** Facts about sequences. */
module Seqs {

  lemma Assoc<T>(a: seq<T>, b: seq<T>, c: seq<T>)
    ensures a + (b + c) == a + b + c
  {
  }

  lemma NoneAdded<T>(a: seq<T>)
    ensures a + [] == a && [] + a == a
  {
  }

  /** Distinct elements of a set are no more than the set has. */
  lemma {:induction false} DistinctFits<T>(r: seq<T>, s: set<T>)
    requires forall i, j :: 0 <= i < j < |r| ==> r[i] != r[j]
    requires forall i :: 0 <= i < |r| ==> r[i] in s
    ensures |r| <= |s|
  {
    if r != [] { DistinctFits(r[..|r| - 1], s - {r[|r| - 1]}); }
  }
}
