/** The optional value used for a component's channel id, which the host passes as an
    optional property beside every component. */
module Wrappers {
  datatype Option<+T> = None | Some(value: T)
}
