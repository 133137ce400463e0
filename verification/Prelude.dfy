/** Datatypes for absent values and for calls that can fail. */
module Prelude {
  datatype Option<+T> = None | Some(value: T)

  /** What a Python call that may raise, or a Go call that may return an error, gives back. */
  datatype Result<+T> = Ok(value: T) | Raised
}
