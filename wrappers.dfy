/** The optional-value wrapper shared by the other modules. */
module Wrappers {

  /** A value that may be missing (a decoder's failure, a JavaScript `undefined`). */
  datatype Option<+T> = None | Some(value: T)
}
