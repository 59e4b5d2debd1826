/** Nullable values of the source (`null` refs, a missing DOM element). */
module Wrappers {

  datatype Option<+T> = None | Some(value: T)
}
