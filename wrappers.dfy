/** The optional value produced by a lenient parse: `None` stands for `NaN`. */
module Wrappers {

  datatype Option<+T> = None | Some(value: T)
}
