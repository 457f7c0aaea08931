/** Small shared datatypes used by every other module. */
module Basics {

  /** A value that may be absent (a missing JSON field, a failed call). */
  datatype Option<+T> = None | Some(value: T)
}
