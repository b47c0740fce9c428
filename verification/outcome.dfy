/** Option and Result datatypes shared by the squad optimiser model. */
module Outcome {

  /** A value that may be absent, as PuLP's `varValue` is before a solve. */
  datatype Option<+T> = None | Some(value: T)

  /** Either a value or the error `optimize` raises instead. */
  datatype Result<+R, +E> = Success(value: R) | Failure(error: E)
}
