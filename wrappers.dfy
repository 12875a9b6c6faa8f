/** The nullable results of the Kotlin services, written as an option type. */
module Wrappers {
  datatype Option<+T> = None | Some(value: T)
}
