/** Failure-carrying results shared by every module of the model. */
module Wrappers {

  /** A value that may be absent: Python's `None`, or a key missing from a dict. */
  datatype Option<+T> = None | Some(value: T)

  /** The outcome of an operation that the original program can abort:
      `Err` carries the reason (an exception, or a `fail_json` message). */
  datatype Result<+T> = Ok(value: T) | Err(msg: string)
}
