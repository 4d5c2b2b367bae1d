/** Option and Result, and the Python exceptions the modelled code can raise. */
module Wrappers {

  datatype Option<+T> = None | Some(value: T)

  /** The exceptions the scheduling code lets escape to its caller. */
  datatype Exception =
    | KeyError(key: string)     // a DataFrame column that does not exist
    | IndexError(index: int)    // a list index outside the list

  /** The outcome of a Python call: a value, or the exception it raised. */
  datatype Result<+T> = Success(value: T) | Failure(error: Exception)

  /** No element occurs twice. */
  predicate NoDuplicates(xs: seq<string>) {
    forall i, j :: 0 <= i < j < |xs| ==> xs[i] != xs[j]
  }
}
