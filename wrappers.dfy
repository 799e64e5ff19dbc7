/** The optional value used wherever the Java code returns or stores a nullable reference. */
module Wrappers {
  datatype Option<+T> = None | Some(value: T)
}
