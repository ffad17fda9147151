/** Option and result datatypes used throughout the model. */
module Wrappers {

  /** An optional value: a query parameter that may be absent, a lookup that may miss. */
  datatype Option<+T> = None | Some(value: T) {

    /** The wrapped value, or `default` when there is none. */
    function GetOr(default: T): T
    {
      match this
      case Some(v) => v
      case None => default
    }
  }

  /** The value a validator returns, or the error it fails with (the exception
      it throws in the source, whose text is `Settings.Message` of the error). */
  datatype Result<+R, +E> = Success(value: R) | Failure(error: E)
}
