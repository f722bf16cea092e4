/** Option and Result values, and the error kinds the engine distinguishes. */
module Wrappers {

  datatype Option<+T> = None | Some(value: T)

  /** The engine's error taxonomy (messages are not modelled, only which kind of error it is). */
  datatype Error =
    | Io          // filesystem failures: missing file, unreadable metadata
    | Database    // store open, transaction, or (de)serialisation failures
    | Model       // embedding collaborator failures
    | Parsing     // unreadable document input

  datatype Result<+T> = Ok(value: T) | Err(error: Error)
}
