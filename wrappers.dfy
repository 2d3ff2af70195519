/** Optional values, standing for Python's `None` and errors raised by the code. */
module Wrappers {

  datatype Option<+T> = None | Some(value: T)

  /** The outcome of a step that can raise: `Fail` stands for an uncaught Python exception. */
  datatype Result<+T> = Ok(value: T) | Fail(reason: string)
}
