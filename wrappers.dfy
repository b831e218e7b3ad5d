/** The outcome of an operation that can raise: its value, or what it raised. */
module Wrappers {

  datatype Result<T, E> = Ok(value: T) | Err(error: E)
}
