/** Small value types shared by every component. */
module Common {

  datatype Option<+T> = None | Some(value: T)

  datatype Result<+T, +E> = Ok(value: T) | Err(error: E)

  /** The gateway's failure classes (internal/providers/errors.go). */
  datatype ErrorClass =
    | Auth | PaymentRequired | RateLimited | InvalidRequest | ModelNotFound
    | Upstream | Timeout | Canceled | Internal

  function Max(x: real, y: real): real { if x < y then y else x }

  function MinInt(x: int, y: int): int { if x < y then x else y }

  function MaxInt(x: int, y: int): int { if x < y then y else x }
}
