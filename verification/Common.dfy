/**
 Types and functions that several components share.
 */
module Common {

  newtype byte = x: int | 0 <= x < 256

  // a task handle
  type Task = nat

  datatype Option<+T> = None | Some(value: T)

  function Min(a: int, b: int): int {
    if a <= b then a else b
  }

  predicate Distinct<T(==)>(s: seq<T>) {
    forall i, j :: 0 <= i < j < |s| ==> s[i] != s[j]
  }
}
