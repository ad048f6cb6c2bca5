/** Option and Result, used for the source's null values and thrown exceptions. */
module Wrappers {

  datatype Option<+T> = None | Some(value: T) {
    function GetOr(default: T): T {
      match this
      case Some(v) => v
      case None => default
    }
  }

  /** The error text stands for the exception the source throws. */
  datatype Result<+R> = Success(value: R) | Failure(error: string)
}
