/** The optional value used wherever the Java code yields `null`. */
module Wrappers {

  datatype Option<+T> = None | Some(value: T)
}
