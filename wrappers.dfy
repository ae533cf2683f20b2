/** Optional values and results with an error, as the components' nullable fields,
    `undefined` lookups and thrown errors need them. */
module Wrappers {

  datatype Option<T> = None | Some(value: T)

  datatype Result<T, E> = Success(value: T) | Failure(error: E)
}
