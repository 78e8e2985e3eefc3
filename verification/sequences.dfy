/** Sequence predicates shared by the statistics table and the name lists. */
module Sequences {

  /** No name occurs twice. */
  predicate Distinct(xs: seq<string>)
  {
    forall i, j :: 0 <= i < j < |xs| ==> xs[i] != xs[j]
  }
}
