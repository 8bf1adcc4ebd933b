/**
 * Go's `error` results, and the `(value, error)` pairs the bus passes around.
 * A nil error is `Pass`; a non-nil one is `Fail(e)`.
 */
module Outcomes {

  /** An opaque Go error value. */
  datatype Error = Error(reason: string)

  /** A Go `error` return: nil or not. */
  datatype Outcome = Pass | Fail(error: Error)

  /** A Go `(T, error)` return where the value is meaningless whenever the error is non-nil. */
  datatype Result<T> = Ok(value: T) | Err(error: Error)

  /** No element of a list occurs twice. */
  predicate NoDups<T(==)>(s: seq<T>)
  {
    forall i, j :: 0 <= i < j < |s| ==> s[i] != s[j]
  }

  /** The elements of a list, as a set. */
  function Elems<T>(s: seq<T>): set<T>
  {
    set x | x in s
  }
}
