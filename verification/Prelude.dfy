/** Failure-compatible wrappers and identifier types shared by every component. */
module Prelude {

  datatype Option<+T> = None | Some(value: T)

  /** The source's exceptions: a transition either yields a value or names the guard that raised. */
  datatype Result<+T, +E> = Ok(value: T) | Err(error: E) {
    predicate IsFailure() { Err? }

    function PropagateFailure<U>(): Result<U, E>
      requires Err?
    {
      Err(error)
    }

    function Extract(): T
      requires Ok?
    {
      value
    }
  }

  /** A SHA-256 hexadecimal text, ordered as the text is. */
  type Digest = nat

  /** Tickers, stream sessions and other names, ordered as their text is. */
  type Ident = nat

  /** Microseconds since the epoch, UTC. */
  type Instant = int

  /** Days since the epoch in the exchange's time zone. */
  type Day = int

  const SECOND: int := 1_000_000

  function Max(a: int, b: int): (m: int)
    ensures m >= a && m >= b && (m == a || m == b)
  {
    if a < b then b else a
  }

  function Min(a: int, b: int): (m: int)
    ensures m <= a && m <= b && (m == a || m == b)
  {
    if a < b then a else b
  }
}
