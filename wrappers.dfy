/** An optional value, for the props and fields that may be left undefined. */
module Wrappers {

  datatype Option<+T> = None | Some(value: T)
}
