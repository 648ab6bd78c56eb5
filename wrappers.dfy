/** Optional values: stands for Python's `None` and for pandas' NaN wherever
    `app.py` coerces a missing or unparseable value. */
module Wrappers {

  datatype Option<+T> = None | Some(value: T) {

    /** The value, or `default` when absent (Python's `x or default` on numbers
        that are never 0, and pandas' `fillna(default)`). */
    function GetOr(default: T): T {
      match this
      case Some(v) => v
      case None => default
    }
  }
}
