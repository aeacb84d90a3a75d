/** The optional-value datatype used for every parse in the model. */
module Wrappers {

  /** A parse outcome: Some(value) on success, None when the text is rejected. */
  datatype Option<+T> = None | Some(value: T) {

    /** The parsed value, or `default` when the parse failed (Go's zero value). */
    function GetOr(default: T): (r: T)
      ensures Some? ==> r == value
      ensures None? ==> r == default
    {
      match this
      case Some(v) => v
      case None => default
    }
  }
}
