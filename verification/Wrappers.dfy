/** Failure-carrying results shared by the other modules. */
module Wrappers {

  datatype Option<+T> = None | Some(value: T)

  /** A raised exception; `fromFramework` says whether it is an AgenticAPIError. */
  datatype Exception = Exception(fromFramework: bool, message: string)

  datatype Result<+T, +E> = Ok(value: T) | Err(error: E)
}
