/** Option and Result values, used for PHP's nullable returns and thrown exceptions. */
module Results {

  /** A nullable value: `None` is PHP's `null`. */
  datatype Option<+T> = None | Some(value: T)

  /** Either a returned value or a thrown exception; usable with `:-`. */
  datatype Result<+T, +E> = Success(value: T) | Failure(error: E) {

    predicate IsFailure() {
      Failure?
    }

    function PropagateFailure<U>(): Result<U, E>
      requires Failure?
    {
      Failure(error)
    }

    function Extract(): T
      requires Success?
    {
      value
    }
  }
}
