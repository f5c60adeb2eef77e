/** Types shared by every component: optional values and the domain error codes. */
module Common {

  datatype Option<+T> = None | Some(value: T)

  /** The error codes of `domain.Error` that the modelled operations can return. */
  datatype ErrorCode =
    | NotFound
    | StateConflict
    | Forbidden
    | LeaseExpired
    | DeadlineExceeded
    | InvalidArgument
    | IdempotencyMismatch
    | IdempotencyNotOwner
    | IdempotencyIncomplete
    | Internal

  datatype Result<+T> = Ok(value: T) | Err(code: ErrorCode)

  function Min(a: nat, b: nat): nat {
    if a <= b then a else b
  }

  predicate Distinct<T(==)>(s: seq<T>) {
    forall i, j :: 0 <= i < j < |s| ==> s[i] != s[j]
  }
}
