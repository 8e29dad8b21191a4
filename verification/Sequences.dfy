/** Bytes, and sequences without repetition. */
module Sequences {

  type byte = x: int | 0 <= x < 256

  ghost predicate NoDuplicates<T>(s: seq<T>) {
    forall i, j | 0 <= i < j < |s| :: s[i] != s[j]
  }
}
