/** Optional values (JavaScript's null/undefined, Rust's Option) and the
    success-or-error results that stand for thrown exceptions and Rust's Result. */
module Wrappers {

  datatype Option<+T> = None | Some(value: T)

  datatype Result<+T, +E> = Success(value: T) | Failure(error: E)
}
