/** Optional values: JavaScript's `undefined`-or-value, and the outcome of a
    partial parse. */
module Wrappers {

  datatype Option<+T> = None | Some(value: T) {

    /** Returns the value encapsulated in Some, or `default` for None */
    function GetOr(default: T): T {
      match this
      case Some(v) => v
      case None => default
    }
  }

  /** How a call into the JavaScript runtime ends: with a value, or by throwing
      an error that carries a message. */
  datatype Completion<+T> = Normal(value: T) | Abrupt(message: string)
}
