/** Failure-carrying values used across the model. A `Result` stands for a
    C++ call that either returns or throws; an `Option` for a conversion that
    may have nothing to give. */
module Wrappers {

  datatype Option<+T> = None | Some(value: T)

  datatype Result<+T, +E> = Ok(value: T) | Err(error: E)
}
