/** Optional values, results, and the exceptions that the evaluation code can raise. */
module Wrappers {

  datatype Option<+T> = None | Some(value: T)

  /** The outcome of a computation that either returns a value or raises an exception. */
  datatype Result<+T> = Success(value: T) | Failure(error: Error)

  /** The exceptions raised on the modelled paths, each with what identifies it. */
  datatype Error =
    | UnknownId(id: int)            // KeyError: a token id with no entry in id2char
    | MissingTargetDict             // AssertionError: get_label called without a target dictionary
    | MissingKey(key: string)       // KeyError: a file key with no script in the target dictionary
    | NotAnInteger(token: string)   // ValueError: int() applied to a token that is not an integer
    | ZeroDivision                  // ZeroDivisionError: a modulo or a ratio with a zero divisor
}
