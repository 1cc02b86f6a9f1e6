/** The optional value used wherever the source returns `false`/`null` for "nothing". */
module Wrappers {

  datatype Option<+T> = None | Some(value: T) {

    /** The value, or `default` when there is none (PHP's `?:` / `??` idiom). */
    function GetOr(default: T): T {
      match this
      case Some(v) => v
      case None => default
    }
  }

  /** The outcome of a call that can end in a fatal PHP error instead of a value. */
  datatype Result<+T> = Success(value: T) | Failure(error: string)
}
