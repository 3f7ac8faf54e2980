/** Optional values: a picked file that may have been cancelled, a blur kernel that may be absent,
    a segmentation result that may have failed. */
module Wrappers {

  datatype Option<+T> = None | Some(value: T)
}
