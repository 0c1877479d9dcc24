/** The optional-value datatype used for absent DOM elements, absent storage
    entries and failed parses. */
module Wrappers {

  datatype Option<+T> = None | Some(value: T)
}
