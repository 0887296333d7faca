/** What all the models share. */
module Basics {
  datatype Option<T> = None | Some(value: T)

  ghost predicate Distinct<T>(cs: seq<T>) {
    forall i, j :: 0 <= i < j < |cs| ==> cs[i] != cs[j]
  }
}
