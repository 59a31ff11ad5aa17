/** A value that may be missing: a nil result, a lookup that finds nothing, a step that is not enabled. */
module Wrappers {

  datatype Option<+T> = None | Some(value: T)
}
