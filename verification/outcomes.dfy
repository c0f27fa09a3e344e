/** Failure-carrying values shared by the modules of the metrics model. */
module Outcomes {

  /** A Go value that may be nil: `None` stands for the nil slice. */
  datatype Option<+T> = None | Some(value: T)

  /** A Go `(value, error)` pair: exactly one side is meaningful. */
  datatype Result<+T> = Ok(value: T) | Err(msg: string)
}
