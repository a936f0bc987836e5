/** The optional-value datatype used for the runner's filter arguments,
    which the C interface passes as a possibly-NULL string. */
module Wrappers {

  /** `None` plays the role of a NULL argument. */
  datatype Option<+T> = None | Some(value: T)
}
