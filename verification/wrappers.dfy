/** The Some/None datatype used for every step of score parsing that Python
    expresses by raising an exception. */
module Wrappers {

  datatype Option<+T> = None | Some(value: T)
}
