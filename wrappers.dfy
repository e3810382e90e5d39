/** The optional value used wherever the source may hold `None`. */
module Wrappers {
  datatype Option<+T> = None | Some(value: T)
}
