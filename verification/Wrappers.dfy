/** An optional value, used where the C code returns NULL or a negative index. */
module Wrappers {
  datatype Option<+T> = None | Some(value: T)
}
