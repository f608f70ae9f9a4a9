/** C#'s nullable references and thrown exceptions, as values. */
module Maybe {

  /** A C# reference that may be null. */
  datatype Nullable<+T> = Null | NonNull(value: T)

  /** The outcome of a call that either returns a value or throws an exception. */
  datatype Result<+T, +E> = Success(value: T) | Failure(error: E)
}
