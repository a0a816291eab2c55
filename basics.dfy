/** Option and Result values used for the error paths of the modelled operations. */
module Basics {
  datatype Option<T> = None | Some(value: T)

  /** A Python call either returns a value or raises; Failure carries what it raises. */
  datatype Result<T, E> = Success(value: T) | Failure(error: E)
}
