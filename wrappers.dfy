/** Option and Result values shared by every page model. */
module Wrappers {

  /** A nullable value: `None` stands for JavaScript's `null`. */
  datatype Option<+T> = None | Some(value: T)

  /** The outcome of an operation that may throw; `Err` carries the thrown message. */
  datatype Result<+T> = Ok(value: T) | Err(error: string)
}
