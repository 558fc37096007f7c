/** Optional values (the source's nullable strings) and results (the source's exceptions). */
module Wrappers {

  datatype Option<+T> = None | Some(value: T)

  /** An operation that either produces a value or raises an exception. */
  datatype Result<+T> = Success(value: T) | Failure

  /** `value ?? ""`: a null string reads as the empty string. */
  function OrEmpty(s: Option<string>): (r: string)
    ensures s.Some? ==> r == s.value
    ensures s.None? ==> r == ""
  {
    match s
    case Some(v) => v
    case None => ""
  }
}
