/** Small value wrappers shared by the whole model. */
module Wrappers {

  /** A value that may be missing (a dictionary key that is absent, `None`). */
  datatype Option<+T> = None | Some(value: T) {
    function GetOr(default: T): (r: T)
      ensures Some? ==> r == value
      ensures None? ==> r == default
    {
      match this
      case Some(v) => v
      case None => default
    }
  }

  /** The outcome of a call into an external service: it either returns a
      value or raises an exception. */
  datatype Reply<+T> = Returned(value: T) | Raised
}
