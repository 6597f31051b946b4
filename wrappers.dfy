/** The optional value used for a segment's `father` and for the frame `unshowMesh` returns. */
module Wrappers {

  datatype Option<+T> = None | Some(value: T)
}
