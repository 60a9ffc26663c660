/** Failure-compatible result types shared by the maze model: `Option` stands
    for a Java reference that may be `null`, `Result` for a value or the
    exception a constructor throws. */
module Wrappers {

  datatype Option<+T> = None | Some(value: T)

  datatype Result<+T, +E> = Ok(value: T) | Err(error: E)
}
