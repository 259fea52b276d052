/** Option, used for the operations of the engine that throw. */
module Wrappers {
  datatype Option<+T> = None | Some(value: T)
}
