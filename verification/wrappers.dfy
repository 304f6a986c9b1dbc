/** The optional value shared by both halves of the model: JavaScript's
    `undefined` and Swift's `nil` are both `None`. */
module Wrappers {

  datatype Option<+T> = None | Some(value: T) {

    /** The wrapped value, or `default` when there is none (`??` in both languages). */
    function GetOr(default: T): T {
      match this
      case Some(v) => v
      case None => default
    }
  }
}
