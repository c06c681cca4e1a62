/** Optional values and results with an error, for Java's null and exceptions. */
module Wrappers {

  /** A value that may be absent (a Java reference that may be null). */
  datatype Option<+T> = None | Some(value: T) {

    /** The value, or `default` when absent. */
    function GetOr(default: T): T {
      match this
      case Some(v) => v
      case None => default
    }

    /** The value as a sequence of at most one element. */
    function ToSeq(): seq<T> {
      match this
      case Some(v) => [v]
      case None => []
    }
  }

  /** A value, or the error that stopped it from being produced. */
  datatype Result<+R, +E> = Success(value: R) | Failure(error: E)
}
