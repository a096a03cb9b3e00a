/** Failure-carrying results for the operations that throw in the source. */
module Wrappers {

  /** The only exception the core throws is IllegalArgumentException. */
  datatype Error = IllegalArgument

  datatype Result<+T> = Ok(value: T) | Err(error: Error)

  /** Success or failure of an operation that returns nothing. */
  datatype Outcome = Pass | Fail(error: Error)
}
