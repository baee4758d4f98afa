/** Shared result shapes: an optional value (a JavaScript field that may be
    `undefined`) and the three ways a Node.js callback-style operation can end. */
module Outcomes {

  /** A JavaScript value that may be `undefined`. */
  datatype Option<+T> = None | Some(value: T)

  /** Why an operation reported an error to its callback. */
  datatype ErrorKind =
    | ReadError        // the input file could not be read
    | UnknownType      // a `type` argument other than 'actives' or 'signups'
    | StoreError       // clearing the stored collection failed
    | WriteError       // the output file could not be written

  /** How a callback-style operation ends: the callback receives a value, the
      callback receives an error, the callback is never invoked at all, or the
      process exits (`process.exit(code)`) before the callback is reached. */
  datatype Callback<+T> = Ok(value: T) | Err(error: ErrorKind) | NeverCalled | ProcessExit(code: int)
}
