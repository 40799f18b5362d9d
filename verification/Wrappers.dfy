/** Absent values and raised errors. */
module Wrappers {

  datatype Option<+T> = None | Some(value: T)

  /** A call that either returns or raises ValueError. */
  datatype Result<+T> = ValueError | Ok(value: T)
}
