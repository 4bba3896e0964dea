/** Optional values and the outcome of one backend call. */
module Outcomes {

  /** A value that may be absent; `None` plays the role of JavaScript's `null`. */
  datatype Option<+T> = None | Some(value: T)

  /** What an HTTP request resolved to: its response body, or a rejection
      (network failure or a non-2xx status; the reason is only logged). */
  datatype Outcome<+T> = Ok(value: T) | Err
}
