/** The optional value used throughout the model for a TypeScript field or
    argument that may be `undefined`, and for a handler that may or may not
    call into the store. */
module Wrappers {

  datatype Option<+T> = None | Some(value: T) {

    /** Returns the value held in Some, or `default` when None. */
    function GetOr(default: T): T {
      match this
      case Some(v) => v
      case None => default
    }
  }
}
