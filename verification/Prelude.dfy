/** Small datatypes shared by every component. */
module Prelude {

  /** A pointer or a lookup that may be missing. */
  datatype Option<+T> = None | Some(value: T)

  /** A Go call that returns either a value or an error. */
  datatype Result<+T, +E> = Ok(value: T) | Err(error: E)

  type Bytes = seq<bv8>

  /** MaxDuration: the greater of two durations, in nanoseconds. */
  function Max(a: int, b: int): int {
    if a > b then a else b
  }
}
