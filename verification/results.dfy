/** Optional values and success-or-error results, the model's stand-in for
    Go's `(T, error)` return pairs. */
module Results {

  datatype Option<+T> = None | Some(value: T)

  datatype Result<+T, +E> = Success(value: T) | Failure(error: E)
}
