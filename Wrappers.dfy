/** The optional value used throughout the model: a pandas NaN cell, a missing
    column, a datetime that failed to parse, or a row that was not found. */
module Wrappers {

  datatype Option<+T> = None | Some(value: T)
}
