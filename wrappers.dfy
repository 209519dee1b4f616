/** An optional value, for the source's `Optional[int]` parameters and for labels that may be
    absent. */
module Wrappers {
  datatype Option<+T> = None | Some(value: T)
}
