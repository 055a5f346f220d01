/** Optional values and the flat error-string results every command returns. */
module Wrappers {

  /** A value that may be absent (Rust `Option`, TypeScript `T | null | undefined`). */
  datatype Option<+T> = None | Some(value: T)

  /** The outcome of a command: a value, or the error message handed back to the caller. */
  datatype Result<+T> = Ok(value: T) | Err(error: string)
  {
    predicate IsFailure() { Err? }

    function PropagateFailure<U>(): Result<U>
      requires Err?
    {
      Err(error)
    }

    function Extract(): T
      requires Ok?
    {
      value
    }
  }

  /** The empty value carried by a successful command that returns nothing (Rust `()`). */
  datatype Unit = Unit
}
