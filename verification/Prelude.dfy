/** Shared value types: an optional value, and a result that is a value or the text of a thrown error. */
module Prelude {

  datatype Option<+T> = None | Some(value: T)

  datatype Result<+T> = Ok(value: T) | Err(error: string)
}
