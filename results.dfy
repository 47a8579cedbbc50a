/** Error values standing for the exceptions and out-parameter error strings of the source. */
module Results {

  /** A value, or the error that the source reports instead of it. */
  datatype Result<+T, +E> = Ok(value: T) | Err(error: E)

  /** Success, or the error the source throws. */
  datatype Outcome<+E> = Pass | Fail(error: E)
}
