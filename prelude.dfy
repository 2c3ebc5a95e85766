/** Option and Result, the two wrappers every other module uses for C#'s
    nullable references and thrown exceptions. */
module Prelude {

  /** A C# reference that may be null. */
  datatype Option<+T> = None | Some(value: T)

  /** A call that either returns a value or throws the error it carries. */
  datatype Result<+T, +E> = Success(value: T) | Failure(error: E)
}
