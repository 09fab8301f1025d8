/** An optional value: used for the character list, which the API response may
    leave undefined, and for the result of parsing a request URL. */
module Wrappers {

  datatype Option<+T> = None | Some(value: T)
}
