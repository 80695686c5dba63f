/** Optional values and fallible results, used wherever the system returns
  * `None` or raises an error that a caller handles. */
module Wrappers {
  datatype Option<T> = None | Some(value: T)
  {
    predicate IsSome() { Some? }

    function GetOr(default: T): T
    {
      if Some? then value else default
    }
  }

  datatype Result<T, E> = Success(value: T) | Failure(error: E)
  {
    predicate IsSuccess() { Success? }
  }
}
