/** The optional value that stands for Python's `None` wherever the source returns
    either a value or `None`. */
module Wrappers {

  datatype Option<+T> = None | Some(value: T)
}
