/** The value-or-nothing type that stands for the nullable pointers of the original. */
module Wrappers {
  datatype Option<+T> = None | Some(value: T)
}
