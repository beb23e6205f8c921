/** A value that may be missing (pandas' None / NaN results). */
module Wrappers {
  datatype Option<T> = None | Some(value: T)
}
