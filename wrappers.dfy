/** Optional values: JavaScript's `null`/`undefined` versus a present value. */
module Wrappers {

  datatype Option<+T> = None | Some(value: T) {

    /** The value if present, otherwise `default`: a property given in a patch overrides the record's own. */
    function GetOr(default: T): T {
      if Some? then value else default
    }
  }
}
