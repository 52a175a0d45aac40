/** Optional values and results that carry an error message, standing for JavaScript's
    `null`/`undefined` and for a thrown `Error` whose `message` is kept. */
module Wrappers {

  datatype Option<+T> = None | Some(value: T)

  datatype Result<+T> = Success(value: T) | Failure(message: string)
}
