/** Optional values: the decoder's "no event" result is `None`. */
module Wrappers {

  datatype Option<+T> = None | Some(value: T)

}
