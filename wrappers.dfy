/** Optional values and the `{ success, body | error }` envelope that every service method returns. */
module Wrappers {

  datatype Option<+T> = None | Some(value: T)

  /** A service reply: `{ success: true, body }` or `{ success: false, error }`. */
  datatype Result<+T> = Success(value: T) | Failure(error: string)
}
