/** Option and Result values used where the client can hand back "nothing"
    (a null reference in the original) or fail with an exception. */
module Wrappers {

  /** A value that may be absent: the model of a nullable reference. */
  datatype Option<+T> = None | Some(value: T)

  /** The exceptions the modelled code can raise. */
  datatype Error =
    /** Dereferencing a null reference (`NullReferenceException`). */
    | NullReference

  /** Either a computed value or the exception that aborts the computation. */
  datatype Result<+T> = Ok(value: T) | Err(error: Error)
}
