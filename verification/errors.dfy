/** Go error values as the delivery layer builds them: errors handed back by a
    library, errors that wrap a cause with `fmt.Errorf("...: %w", cause)`, and
    errors formatted from text alone. */
module Errors {
  import opened Bytes

  datatype Error =
    | Foreign(text: Bytes)                 // an error a library outside the model returned
    | Wrapped(context: Bytes, cause: Error) // fmt.Errorf(context + ": %w", cause)
    | Formatted(text: Bytes)               // fmt.Errorf without %w: only the text survives

  /** err.Error() */
  function Text(e: Error): Bytes {
    match e
    case Foreign(t) => t
    case Wrapped(c, cause) => c + ": " + Text(cause)
    case Formatted(t) => t
  }

  /** errors.Unwrap */
  function Unwrap(e: Error): Option<Error> {
    if e.Wrapped? then Some(e.cause) else None
  }

  /** errors.Is: `target` is `e` or is reached from it through Unwrap.
      Errors are compared as values here. Go compares *errorString and
      *wrapError by pointer, so two errors built apart with the same text are
      related here but not in Go; only the positive claim of WrappedKeepsCause
      relies on Is. */
  predicate Is(e: Error, target: Error) {
    e == target || (e.Wrapped? && Is(e.cause, target))
  }

  /** A wrapped error keeps its cause: the text names both the context and the
      cause, and errors.Is still finds the cause. */
  lemma WrappedKeepsCause(context: Bytes, cause: Error)
    ensures Contains(Text(Wrapped(context, cause)), context)
    ensures Contains(Text(Wrapped(context, cause)), Text(cause))
    ensures Is(Wrapped(context, cause), cause)
    ensures Unwrap(Wrapped(context, cause)) == Some(cause)
  {
    ContainsInside([], context, ": " + Text(cause));
    assert [] + context + (": " + Text(cause)) == Text(Wrapped(context, cause));
    ContainsInside(context + ": ", Text(cause), []);
    assert context + ": " + Text(cause) + [] == Text(Wrapped(context, cause));
  }

  /** An error formatted as `prefix + detail` names the prefix. */
  lemma FormattedNamesPrefix(prefix: Bytes, detail: Bytes)
    ensures Contains(Text(Formatted(prefix + detail)), prefix)
  {
    ContainsInside([], prefix, detail);
    assert [] + prefix + detail == prefix + detail;
  }

  /** A result that is either a value or an error. */
  datatype Result<+T> = Ok(value: T) | Err(error: Error)
}
