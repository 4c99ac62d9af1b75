/** Failure-carrying datatypes shared by every module of the model.

    `Option` stands for a JavaScript value that may be `null` or `undefined`;
    `Result` stands for an operation that either succeeds or reports the one
    message the page would show in an `alert`. */
module Wrappers {

  datatype Option<+T> = None | Some(value: T)

  datatype Result<+T, +E> = Ok(value: T) | Err(error: E)

  /** The outcome of a call the model cannot see (a `fetch`, a JSON parse):
      either the parsed payload or a failure of any kind. */
  datatype Fetched<+T> = Fetched(payload: T) | FetchFailed
}
