/** The optional value used for nullable slots and components. */
module Wrappers {

  datatype Option<+T> = None | Some(value: T)
}
