/** Small failure-carrying datatypes shared by the model. */
module Wrappers {

  /** An optional value: Python's `None` versus a present value. */
  datatype Option<+T> = None | Some(value: T) {

    /** The value, or `default` when absent (Python's `dict.get(k, default)`). */
    function GetOr(default: T): T {
      match this
      case Some(v) => v
      case None => default
    }
  }

  /** The Python exceptions that escape the modelled code. */
  datatype Exception = AttributeError | JsonDecodeError

  /** A Python call either returns a value or lets an exception escape. */
  datatype Result<+T> = Returned(value: T) | Raised(error: Exception)
}
