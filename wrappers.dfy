/** Optional values and the outcome of a call into an external service. */
module Wrappers {

  datatype Option<T> = None | Some(value: T)

  /** What an awaited call to a library or hosted service gives back: its value,
      or the message of the exception it threw. */
  datatype Outcome<T> = Ok(value: T) | Threw(message: string)
}
