/** Optional values and results shared by every module of the model. */
module Wrappers {

  /** A value that may be absent (Python's `None`). */
  datatype Option<T> = None | Some(value: T)

  /** Either a computed value or the error the source raises instead. */
  datatype Result<T, E> = Ok(value: T) | Err(error: E)

  /** The value, or `d` when it is absent: a field default. */
  function OrElse<T>(x: Option<T>, d: T): (r: T)
    ensures x.Some? ==> r == x.value
    ensures x.None? ==> r == d
  {
    if x.Some? then x.value else d
  }
}
