/** The JavaScript `null`-or-value state variables of the component, as an Option. */
module Wrappers {
  datatype Option<+T> = None | Some(value: T)
}
