/** Small failure-carrying datatypes shared by the engine and the warning modules. */
module Types {

  /** A value that may be absent (an omitted option, a null handle, an invalid instant). */
  datatype Option<+T> = None | Some(value: T) {
    /** The value if present, otherwise `default` (JavaScript's `??` on an optional field). */
    function GetOr(default: T): T {
      if Some? then value else default
    }
  }

  /** The outcome of an operation that can throw: either a value or the error thrown. */
  datatype Result<+R, +E> = Success(value: R) | Failure(error: E)

  /** The outcome of an operation that returns nothing but can throw. */
  datatype Outcome<+E> = Pass | Fail(error: E)

  /** The one error the engine raises: a deadline whose time value is NaN. */
  datatype VanisherError = InvalidDeadline

  /** Identity of an `onDeadlineReached` callback; the callback body itself is the caller's code. */
  type CallbackId = nat

  /** The callback installed when the caller gives none: `() => {}`. */
  const NOOP_CALLBACK: CallbackId := 0
}
