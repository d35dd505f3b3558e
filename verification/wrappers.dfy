/** Failure-compatible value types shared by every module of the model: `Option`
    stands for a value that may be `undefined`, `Result` for a call that either
    returns or throws. */
module Wrappers {

  datatype Option<+T> = None | Some(value: T) {

    /** The value, or `default` when there is none (the `x ?? default` of the source). */
    function GetOr(default: T): T {
      match this
      case Some(v) => v
      case None => default
    }
  }

  /** The outcome of an operation that either returns a value or throws an error. */
  datatype Result<+T, +E> = Success(value: T) | Failure(error: E) {

    /** Rewrites the thrown error, keeping a returned value as it is (a `try`/`catch` that rethrows). */
    function MapFailure<E2>(rewrap: E -> E2): Result<T, E2> {
      match this
      case Success(v) => Success(v)
      case Failure(e) => Failure(rewrap(e))
    }
  }
}
