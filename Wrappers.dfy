/** The optional value used wherever the source returns None, an empty match
    list or raises an exception that its caller turns into "skip". */
module Wrappers {
  datatype Option<+T> = None | Some(value: T)
}
