/** The optional value used where the storage answers "nothing" (PHP's null). */
module Wrappers {
  datatype Option<+T> = None | Some(value: T)
}
