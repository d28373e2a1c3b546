/** The optional value shared by the stage modules. */
module Wrappers {

  datatype Option<T> = None | Some(value: T)
}
