/** Optional values: `None` stands for a Java `null` reference or an absent answer. */
module Wrappers {

  datatype Option<+T> = None | Some(value: T)

}
