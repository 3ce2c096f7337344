/** Optional values and results with a single failure value. */
module Wrappers {

  /** A value that may be absent: Python's `None` versus a present value. */
  datatype Option<+T> = None | Some(value: T)

  /** The outcome of an operation that may fail as a whole. Every failure of
      the modelled tools surfaces as one `McpError`, so one error value is enough. */
  datatype Result<+T> = Ok(value: T) | Err
}
