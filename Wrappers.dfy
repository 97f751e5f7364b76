/** Option and Result values standing in for C# null references and thrown exceptions. */
module Wrappers {

  /** A reference that may be null: None plays the part of null. */
  datatype Option<+T> = None | Some(value: T)

  /** The outcome of a call that either returns a value or throws. */
  datatype Result<+T, +E> = Success(value: T) | Failure(error: E)

  /** The .NET exceptions thrown by the modelled code. */
  datatype Exception =
    | InvalidOperationException(message: string)
    | NotSupportedException
}
