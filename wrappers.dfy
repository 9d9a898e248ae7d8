/** Option and Result: the model's stand-ins for Java's null and for the
    runtime exceptions (and process exits) that abort a generation run. */
module Wrappers {

  datatype Option<+T> = None | Some(value: T)

  datatype Result<+T, +E> = Ok(value: T) | Err(error: E)
}
