/** Types shared by every part of the model. */
module Prelude {

  /** A value that may be missing: nil, a NULL column, an absent document. */
  datatype Option<+T> = None | Some(value: T)

  /** What became of one remote operation: a database write, an RPC or a publish.
      `Done`         it took effect and the caller saw success;
      `Failed`       it had no effect and the caller saw an error;
      `Unconfirmed`  it took effect, but the caller saw an error. */
  datatype Io = Done | Failed | Unconfirmed

  /** retry.DefaultConfig: a handler is run once and then retried up to three times. */
  const MAX_RETRIES: nat := 3
  const ATTEMPTS: nat := MAX_RETRIES + 1

  predicate Distinct(xs: seq<string>) {
    forall i, j :: 0 <= i < j < |xs| ==> xs[i] != xs[j]
  }

  /** int64(x) for a float64 in range: truncation toward zero. */
  function Truncate(x: real): (n: int)
    ensures x >= 0.0 ==> n as real <= x < n as real + 1.0
    ensures x <= 0.0 ==> n as real - 1.0 < x <= n as real
  {
    if x >= 0.0 then x.Floor else -((-x).Floor)
  }
}
