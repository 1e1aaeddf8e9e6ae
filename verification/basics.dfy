/**
 Small failure-carrying datatypes shared by the rest of the model.
 - Option<T> stands for a Python value that may be `None`.
 - Result<T, E> stands for a computation that either returns or raises.
 */
module Basics {

  datatype Option<+T> = None | Some(value: T)

  datatype Result<+T, +E> = Ok(value: T) | Err(error: E)

}
