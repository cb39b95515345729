/** Definitions shared by every module: optional values, results that carry an
    exception, and the one property of SHA-256 that the repository relies on. */
module Prelude {

  datatype Option<+T> = None | Some(value: T)

  /** A Python call that either returns a value or raises. */
  datatype Result<+T> = Success(value: T) | Failure {
    predicate IsFailure() {
      Failure?
    }

    function PropagateFailure<U>(): Result<U>
      requires Failure?
    {
      Failure
    }

    function Extract(): T
      requires Success?
    {
      value
    }
  }

  /** A statement that either completes or raises. */
  datatype Verdict = Fine | Raise {
    predicate IsFailure() {
      Raise?
    }

    function PropagateFailure<U>(): Result<U>
      requires Raise?
    {
      Failure
    }
  }

  /** `:- Check(c)` is the source's `if not c: raise`. */
  function Check(condition: bool): Verdict {
    if condition then Fine else Raise
  }

  /** A digest is an arbitrary function on text; collision freedom is the only
      thing ever assumed of it, and always as an explicit hypothesis. */
  ghost predicate Injective(digest: string -> string) {
    forall a, b :: digest(a) == digest(b) ==> a == b
  }
}
