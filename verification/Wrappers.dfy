/** Nullable columns and optional results. */
module Wrappers {

  datatype Option<+T> = None | Some(value: T)
}
