/** The optional-value wrapper used throughout the model: `None` stands for a
    JavaScript `undefined` (or an absent key), `Some(v)` for a present value. */
module Wrappers {
  datatype Option<+T> = None | Some(value: T) {
    /** The value, or `default` when there is none (`x ?? default`). */
    function GetOr(default: T): T {
      match this
      case Some(v) => v
      case None => default
    }
  }
}
