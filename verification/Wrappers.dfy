/**
Results that may be absent, or an error.
*/
module Wrappers {

  datatype Option<T> = None | Some(value: T)

  datatype Result<T> = Ok(value: T) | InvalidArgument(message: string)
}
