/** Option and Result datatypes shared by the ledger model. */
module Wrappers {

  /** A value that may be absent: a nil header or address, a missing row. */
  datatype Option<+T> = None | Some(value: T)

  /** Either the value of a completed operation or the error it was rejected with. */
  datatype Result<+R, +E> = Success(value: R) | Failure(error: E)
}
