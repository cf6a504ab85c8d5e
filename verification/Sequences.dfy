/** What several modules say of sequences. */
module Sequences {

  /** No element occurs twice. */
  ghost predicate Distinct<T>(s: seq<T>)
  {
    forall i, j :: 0 <= i < j < |s| ==> s[i] != s[j]
  }

  /** The numbers below `n`, in order. */
  function Upto(n: nat): seq<nat>
  {
    seq(n, k => k)
  }
}
