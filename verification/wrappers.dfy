/** Result types used by the lane-line estimator.
    `Option` stands for Python's "value or None"; `Result` for "value or raised exception". */
module Wrappers {

  /** A value that may be absent, as a lane side with no detected segment is. */
  datatype Option<+T> = None | Some(value: T)

  /** The outcome of a call that may raise instead of returning. */
  datatype Result<+R, +E> = Success(value: R) | Failure(error: E)
}
