/** Option and Result values shared by the user directory and the form model. */
module Wrappers {

  /** An optional value: `None` stands for a JavaScript field that is absent (undefined). */
  datatype Option<+T> = None | Some(value: T) {

    /** The value, or `default` when absent (a JavaScript default parameter). */
    function GetOr(default: T): T
    {
      match this
      case Some(v) => v
      case None => default
    }
  }

  /** The outcome of a controller: a payload for a 200 response, or an error. */
  datatype Result<+R, +E> = Success(value: R) | Failure(error: E)
}
