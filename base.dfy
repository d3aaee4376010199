/** Shared vocabulary: Go's byte and the two failure-carrying wrappers. */
module Base {

  /** Go's `byte` (uint8). */
  type byte = x: int | 0 <= x < 256

  datatype Option<+T> = None | Some(value: T)

  /** A Go `(value, error)` pair: exactly one of the two is present. */
  datatype Result<+T, +E> = Success(value: T) | Failure(error: E)
}
