/** Swift's `Optional` and the throwing-call outcome (`Result` / `try`). */
module Wrappers {

  /** Swift `Optional<T>`: `nil` is `None`. */
  datatype Option<+T> = None | Some(value: T) {

    /** Swift `??`: the wrapped value, or the default when `nil`. */
    function GetOr(default: T): T {
      match this
      case Some(v) => v
      case None => default
    }
  }

  /** The outcome of a call that may throw: the returned value or the thrown error. */
  datatype Result<+R, +E> = Success(value: R) | Failure(error: E) {

    /** Applies `f` to a returned value; a thrown error passes through unchanged. */
    function Map<S>(f: R -> S): Result<S, E> {
      match this
      case Success(v) => Success(f(v))
      case Failure(e) => Failure(e)
    }
  }

  function Min(a: int, b: int): int { if a <= b then a else b }

  function Max(a: int, b: int): int { if a >= b then a else b }
}
