/** Values that may be missing, results that may be errors, and reals with a least element. */
module Wrappers {

  datatype Option<+T> = None | Some(value: T)

  datatype Result<+T, +E> = Ok(value: T) | Err(error: E)

  /** Minus infinity, where a maximum starts and where a masked score ends, or a number. */
  datatype Extended = NegInfinity | Finite(value: real)
}
