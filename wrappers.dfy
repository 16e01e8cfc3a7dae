/** Optional values, standing for Python's `None` or a missing key. */
module Wrappers {

  datatype Option<+T> = None | Some(value: T) {

    /** The value, or `default` when there is none (`d.get(k, default)`). */
    function GetOr(default: T): T
    {
      if Some? then value else default
    }
  }
}
