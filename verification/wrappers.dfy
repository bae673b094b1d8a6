/** Failure-carrying datatypes shared by the other modules. */
module Wrappers {

  /** An optional value. */
  datatype Option<+T> = None | Some(value: T)

  /** The outcome of an operation that can fail with an error value. */
  datatype Result<+T, +E> = Success(value: T) | Failure(error: E)
}

/** Raw bytes, the unit in which request bodies and response bodies travel. */
module Octets {

  newtype uint8 = x: int | 0 <= x < 0x100

  /** A Go `[]byte`: an arbitrary, uninterpreted byte string. */
  type Bytes = seq<uint8>
}
