/** The optional value the C# code expresses with nullable references (`string?`, `Guid?`, `bool?`). */
module Wrappers {

  datatype Option<+T> = None | Some(value: T) {

    /** The value, or the given default (the C# `??` operator). */
    function GetOr(default: T): T {
      match this
      case Some(v) => v
      case None => default
    }
  }
}
