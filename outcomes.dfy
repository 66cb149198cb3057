/** Optional values and results with an error side, used for Go's nil pointers and
    `(value, error)` returns throughout the model. */
module Outcomes {

  /** A present-or-absent value; `None` stands for a nil pointer. */
  datatype Option<+T> = None | Some(value: T)

  /** A value or an error; `Err` stands for a non-nil Go `error`. */
  datatype Result<+T, +E> = Ok(value: T) | Err(error: E)
}
