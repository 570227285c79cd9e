/** Small failure-carrying datatypes shared by the other modules. */
module Wrappers {

  /** A value that may be missing: a JSON field that is absent, or a lookup
      that found nothing (Python's `None`). */
  datatype Option<+T> = None | Some(value: T) {

    /** `dict.get(key, default)`: the value when present, else the default. */
    function GetOr(default: T): (r: T)
      ensures Some? ==> r == value
      ensures None? ==> r == default
    {
      match this
      case Some(v) => v
      case None => default
    }
  }

  /** The outcome of a computation that may raise a Python exception
      (an `AttributeError` on malformed knowledge data). */
  datatype Result<+T> = Ok(value: T) | Raised
}
