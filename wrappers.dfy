/** The Option type used for nullable pointers and "no sample this tick". */
module Wrappers {

  datatype Option<+T> = None | Some(value: T)
}
