/** Go's error-return conventions, as the proxy and the listing use them.
- Option<T>: a value that may be missing (a nil interface, an unset selection)
- Error: a Go `error`, either a cause reported by a collaborator or one wrapped
  with context by `fmt.Errorf("<context>: %w", cause)`
- Outcome: a bare `error` return (nil or an error)
- Result<T>: a `(value, error)` return pair
 */
module Outcomes {

  datatype Option<+T> = None | Some(value: T)

  datatype Error = Cause(message: string) | Wrapped(context: string, cause: Error)
  {
    /** The text `Error()` returns: each wrapping context, then ": ", then what it wraps. */
    function Text(): string
    {
      match this
      case Cause(m) => m
      case Wrapped(ctx, inner) => ctx + ": " + inner.Text()
    }

    /** `errors.Unwrap`: the wrapped cause, if there is one. */
    function Unwrap(): Option<Error>
    {
      match this
      case Cause(_) => None
      case Wrapped(_, inner) => Some(inner)
    }
  }

  datatype Outcome = Ok | Err(error: Error)

  datatype Result<+T> = Success(value: T) | Failure(error: Error)

  /** `fmt.Errorf(context + ": %w", cause)`: the cause stays reachable through
      `errors.Unwrap`, and the text begins with the context. */
  function Wrap(context: string, cause: Error): (e: Error)
    ensures e.Unwrap() == Some(cause)
    ensures |e.Text()| == |context| + 2 + |cause.Text()|
    ensures e.Text()[..|context|] == context
    ensures e.Text()[|context|..|context| + 2] == ": "
    ensures e.Text()[|context| + 2..] == cause.Text()
  {
    Wrapped(context, cause)
  }
}
