/** The option type used for the source's error paths. */
module Wrappers {

  datatype Option<+T> = None | Some(value: T)
}
