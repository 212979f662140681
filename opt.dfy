/** The optional value used throughout the model for widget answers and parse results. */
module Opt {
  datatype Option<T> = None | Some(value: T)
}
