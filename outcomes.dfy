/** The success-or-error values that stand in for the exceptions of the source. */
module Outcomes {

  datatype Result<+T, +E> = Ok(value: T) | Err(error: E)

  datatype Option<+T> = None | Some(value: T)
}
