/** Small shared vocabulary: optional values, results with an error, bytes. */
module Base {

  /** A value that may be missing (Go's "" / nil / error-or-value pairs). */
  datatype Option<+T> = None | Some(value: T)

  /** The value-or-error pair that Go functions return. */
  datatype Result<+T, +E> = Ok(value: T) | Err(error: E)

  /** One octet of an HTTP body. */
  newtype Byte = b: int | 0 <= b < 256

  /** Concatenation is associative; stated once so that proofs can ask for it
      instead of rediscovering it element by element. */
  lemma ConcatAssoc<T>(a: seq<T>, b: seq<T>, c: seq<T>)
    ensures a + (b + c) == (a + b) + c
  {
  }
}
