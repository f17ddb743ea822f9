/** An optional value: a field that a JSON body may leave out (or send as null). */
module Wrappers {

  datatype Option<+T> = None | Some(value: T)
}
