/** Go's error values and the result shapes every other module returns. */
module Wrappers {

  datatype Option<+T> = None | Some(value: T)

  /** A Go `error`: a leaf message, or `fmt.Errorf("context: %w", cause)`. */
  datatype Error = Leaf(text: string) | Wrapped(context: string, cause: Error)
  {
    /** What `Error()` prints for this error. */
    function Message(): string
    {
      match this
      case Leaf(t) => t
      case Wrapped(c, e) => c + ": " + e.Message()
    }

    /** True when `e` is this error or is found by unwrapping it (`errors.Is`). */
    predicate Wraps(e: Error)
    {
      this == e || (Wrapped? && cause.Wraps(e))
    }
  }

  /** `fmt.Errorf(context + ": %w", cause)`. */
  function Wrap(context: string, cause: Error): (e: Error)
    ensures e.Wraps(cause) && e != cause
    ensures e.Message() == context + ": " + cause.Message()
  {
    Wrapped(context, cause)
  }

  /** A Go `(value, error)` pair where exactly one half is meaningful. */
  datatype Result<+T> = Ok(value: T) | Err(error: Error)

  /** A call that may also panic at run time (a failed type assertion, a bad slice bound). */
  datatype Outcome<+T> = Returned(value: T) | Raised(error: Error) | Panicked
}
