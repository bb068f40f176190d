/** Option and Result: the source's `undefined`/`null` results and its thrown errors. */
module Wrappers {
  datatype Option<+T> = None | Some(value: T)

  datatype Result<+T, +E> = Ok(value: T) | Err(error: E)

  /** `a ?? b` */
  function OrElse<T>(a: Option<T>, b: Option<T>): Option<T> {
    if a.Some? then a else b
  }

  function GetOr<T>(a: Option<T>, default: T): T {
    if a.Some? then a.value else default
  }
}
