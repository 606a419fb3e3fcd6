/** Failure-carrying datatypes shared by the whole model. */
module Wrappers {

  datatype Option<+T> = None | Some(value: T)

  /** The .NET exceptions that the modelled code raises or lets through. */
  datatype Exception =
    | ArgumentNull(param: string)
    | ArgumentOutOfRange
    | DuplicateKey(key: string)
    | AmbiguousMatch(name: string)
    | KeyNotFound(key: string)
    | InvalidOperation(message: string)
    | NullReference
    | NotImplemented
    | StorageFault
    | Raised(message: string)

  datatype Result<+R> = Success(value: R) | Failure(error: Exception)

  datatype Outcome = Pass | Fail(error: Exception)
}
