/** Option and Result, used wherever the source has `undefined`, a thrown
    error or a value that may be missing. */
module Wrappers {

  datatype Option<+T> = None | Some(value: T) {
    function GetOr(default: T): T {
      match this
      case Some(v) => v
      case None => default
    }

    /** The value as a list of zero or one element. */
    function ToSeq(): (r: seq<T>)
      ensures |r| <= 1 && (r == [] <==> None?)
      ensures Some? ==> r == [value]
    {
      if Some? then [value] else []
    }
  }

  datatype Result<+T, +E> = Success(value: T) | Failure(error: E)
}
