/** Types and functions shared by the other modules. */
module Wrappers {
  datatype Option<+T> = None | Some(value: T)

  datatype Result<+T, +E> = Success(value: T) | Failure(error: E)

  type Id = string

  // Integer milliseconds.
  type Time = int

  type HeaderMap = map<string, string>

  // How a database command ends; one that reports an error may still have been applied.
  datatype Fate = Succeeds | FailsUnapplied | FailsApplied

  function AsSet<T>(s: seq<T>): set<T> { set x | x in s }
}
