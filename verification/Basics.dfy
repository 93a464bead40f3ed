/** The one datatype every part of the model shares: Java's null and C's NULL become None. */
module Basics {
  datatype Option<+T> = None | Some(value: T)
}
