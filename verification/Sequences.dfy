/** Predicates on lists that several components share. */
module Sequences {

  /** No element occurs twice. */
  ghost predicate Distinct<T>(items: seq<T>)
  {
    forall i, j :: 0 <= i < j < |items| ==> items[i] != items[j]
  }
}
