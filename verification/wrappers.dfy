/** The optional value used wherever the storefront answers "maybe nothing":
    a lookup that can miss, a form field that can be absent, a validation
    that can pass without a message. */
module Wrappers {

  datatype Option<+T> = None | Some(value: T) {

    /** Returns the value held in Some, or `default` when None. */
    function GetOr(default: T): T {
      match this
      case Some(v) => v
      case None => default
    }
  }
}
