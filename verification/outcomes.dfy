/** The result type the inventory check reports to its caller. */
module Outcomes {

  /** Either the value a step produced or the error kind it failed with. */
  datatype Result<+T, +E> = Ok(value: T) | Err(error: E)
}
