/** Option and Result types, and the two exception kinds the storage engine raises. */
module Wrappers {

  datatype Option<+T> = None | Some(value: T)

  /** The exceptions of the adapter: OutOfSpaceException carries the configured limit
      (it appears in the message), InvalidArgumentException carries its message. */
  datatype Error =
    | OutOfSpace(memoryLimit: int)
    | InvalidArgument(message: string)

  /** A normal return value or a thrown exception. */
  datatype Result<+T> = Success(value: T) | Failure(error: Error)
}
