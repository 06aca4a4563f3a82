/** Options, results and stored error messages, shared by the other modules. */
module Wrappers {
  datatype Option<+T> = None | Some(value: T)

  datatype Result<+T, +E> = Ok(value: T) | Err(error: E)

  /** As much of an error message as a row keeps. */
  function Clip(message: string): string {
    if |message| > 500 then message[..500] else message
  }
}
