/** The absent-or-present wrapper used across the model: `None` stands for a
    C# `null` reference or for an operation that threw. */
module Wrappers {
  datatype Option<+T> = None | Some(value: T) {
    function GetOr(default: T): T {
      match this
      case Some(v) => v
      case None => default
    }
  }
}
