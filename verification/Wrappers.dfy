/** Optional values and results that can fail, shared by the other modules. */
module Wrappers {
  datatype Option<+T> = None | Some(value: T) {
    function Or(other: T): T { if Some? then value else other }
  }

  datatype Result<+T, +E> = Ok(value: T) | Err(error: E)
}
