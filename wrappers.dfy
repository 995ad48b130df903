/** Optional values, and the Java exceptions a tick can end with. */
module Wrappers {

  /** Stands for a Java reference that may be `null`. */
  datatype Option<+T> = None | Some(value: T)

  /** The runtime exceptions that can escape a tick of the behaviour. */
  datatype Failure =
    | NullPointer            // a `switch` over a null enum value
    | ArrayIndexOutOfBounds  // `outputs[0]` on an empty output array
    | IllegalState(index: int) // the arg-max index has no direction

  /** A value, or the exception that was thrown instead of computing it. */
  datatype Result<+T> = Ok(value: T) | Err(error: Failure)
}
