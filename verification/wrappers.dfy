/** The Option type used throughout the model for values that may be absent:
    a missing form field, a reply the model did not give, a JavaScript NaN. */
module Wrappers {

  datatype Option<+T> = None | Some(value: T)
}
