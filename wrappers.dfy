/** Optional values, for the JavaScript `null` results of the game code. */
module Wrappers {

  datatype Option<+T> = None | Some(value: T)
}
