/** Shared vocabulary: optional values, results, the error chain built by
    fmt.Errorf("...: %w", err), bytes and chunked byte streams. */
module Common {

  datatype Option<+T> = None | Some(value: T)

  /** A Go pair (value, error) where exactly one side is set. */
  datatype Result<+T> = Success(value: T) | Failure(error: Error)

  /** The errors the core builds. Wrapped(context, inner) is fmt.Errorf("<context>: %w", inner);
      RetryMarked(inner) is errors.Join(inner, retryErr), the fetcher's mark for the
      retrier; the three leaves with data are the fetcher's validation errors. */
  datatype Error =
    | Cause(msg: string)
    | Wrapped(context: string, inner: Error)
    | RetryMarked(inner: Error)
    | UnexpectedServerError(status: int)
    | UnexpectedStatus(status: int)
    | UnexpectedContentType(contentType: string)

  type byte = b: int | 0 <= b < 256

  /** The bytes of a sequence of reads, in order. */
  function Flatten<T>(chunks: seq<seq<T>>): seq<T>
  {
    if chunks == [] then [] else chunks[0] + Flatten(chunks[1..])
  }

  lemma {:induction false} FlattenAppend<T>(a: seq<seq<T>>, b: seq<seq<T>>)
    ensures Flatten(a + b) == Flatten(a) + Flatten(b)
  {
    if a == [] {
      assert a + b == b;
    } else {
      assert (a + b)[1..] == a[1..] + b;
      FlattenAppend(a[1..], b);
    }
  }
}
