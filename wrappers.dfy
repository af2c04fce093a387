/** Success/failure results for the operations that raise in the original
    program, and the two Python exceptions they raise. */
module Wrappers {

  datatype Result<+T, +E> = Success(value: T) | Failure(error: E)

  /** `ValueError` is what `int(s, 2)` raises on a string it cannot parse;
      `AssertionError` is what a failing `assert` statement raises. */
  datatype Exception = ValueError | AssertionError
}
