/** The two result types used throughout: an optional column value, and the
    outcome of a client call that may raise. */
module Wrappers {
  datatype Option<+T> = None | Some(value: T)

  /** The exceptions a client call can raise before it writes anything. */
  datatype Error = ValueError | IntegrityError | DatabaseError

  datatype Result<+T> = Ok(value: T) | Err(error: Error)
}
