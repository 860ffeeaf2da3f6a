/** Optional values (a JSON field that may be absent or null) and results (a value or an error message). */
module Wrappers {

  datatype Option<+T> = None | Some(value: T)

  datatype Result<+R, +E> = Success(value: R) | Failure(error: E)
}

/** What one upstream HTTP exchange gives the code that awaits it. */
module Upstream {

  /** `Ok` carries the decoded JSON body of a response whose `ok` flag was set;
      `NotOk` is a response with a non-success status; `Threw` is a rejected
      `fetch` or a body that `response.json()` could not decode, with the error's message. */
  datatype Fetched<+T> = Ok(payload: T) | NotOk | Threw(message: string)
}
