/** The optional value used for a landmark set the detector may not report. */
module Wrappers {

  datatype Option<+T> = None | Some(value: T)
}
