/** An optional value: a nullable column, a session entry that may be absent. */
module Wrappers {

  datatype Option<+T> = None | Some(value: T)
}
