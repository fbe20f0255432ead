/** Optional values, used where the Python code accepts `None`. */
module Wrappers {

  datatype Option<+T> = None | Some(value: T)

}
