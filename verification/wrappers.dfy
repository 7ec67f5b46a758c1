/** The optional-value datatype shared by every module of the model.
    JavaScript's `undefined`/`null` field values become `None`. */
module Wrappers {

  datatype Option<+T> = None | Some(value: T) {

    /** The value, or `default` when absent (JavaScript's `a || b` on an optional field). */
    function GetOr(default: T): T {
      match this
      case Some(v) => v
      case None => default
    }
  }
}
