/** The optional value the builders return when a shape is unsupported. */
module Wrappers {
  datatype Option<+T> = None | Some(value: T)
}
