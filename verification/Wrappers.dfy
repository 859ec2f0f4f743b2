/** What every module needs: results of operations that may fail, and lists without repeats. */
module Wrappers {
  datatype Option<+T> = None | Some(value: T)

  ghost predicate NoDup<X>(s: seq<X>) {
    forall i, j {:trigger s[i], s[j]} :: 0 <= i < j < |s| ==> s[i] != s[j]
  }
}
