/** A Java reference that may be null, as a value. */
module Nullable {

  datatype Option<+T> = None | Some(value: T)
}
