/** Option type used for the source's "no value" results (Python's NaN and None). */
module Wrappers {
  datatype Option<+T> = None | Some(value: T)
}
