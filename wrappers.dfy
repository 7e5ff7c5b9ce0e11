/** Optional values: a field that a JSON object or a Python dict may leave out. */
module Wrappers {

  datatype Option<+T> = None | Some(value: T)
}
