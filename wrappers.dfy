/** Failure-carrying results: the Python code raises exceptions, the model returns them. */
module Wrappers {

  datatype Option<+T> = None | Some(value: T)

  /** The exceptions the modelled code raises, by kind. */
  datatype Error =
    | KeyError(key: string)
    | ValueError(msg: string)
    | TypeError(msg: string)
    | IndexError(msg: string)
    | IOError(path: string)
    | ArithmeticError(msg: string) // ZeroDivisionError, OverflowError
    | Raised(msg: string)          // a bare `raise Exception(...)`

  datatype Result<+T> = Ok(value: T) | Err(error: Error)
}
