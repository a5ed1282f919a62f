/** Failure-carrying results used where the Go code returns a sentinel (nil, NaN). */
module Wrappers {
  datatype Option<+T> = None | Some(value: T)
}
