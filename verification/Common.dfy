/** Types shared by the contracts: addresses, tiers, and the outcome of an atomic call. */
module Common {

  type Address = string

  datatype Tier = Flex | L3 | L6 | L12

  /** Why a call panicked. `Trap` is arithmetic overflow or division by zero. */
  datatype Failure =
    | Paused
    | Unauthorized
    | AssetNotAllowed
    | BelowMinDeposit
    | DepositCapExceeded
    | LockNotExpired
    | NotYetMatured
    | AmountExceedsBalance
    | EmptyPosition
    | InsufficientFunds
    | NotSupported
    | PoolNotAllowed
    | AllocationCapExceeded
    | NotFound
    | NotPending
    | TimelockRunning
    | OutOfRange
    | AlreadyConfirmed
    | CalleeFailed
    | CooldownRunning
    | Trap

  predicate Distinct<T(==)>(s: seq<T>) {
    forall i, j :: 0 <= i < j < |s| ==> s[i] != s[j]
  }

  /** A call either commits its value or panics, in which case the host rolls everything back. */
  datatype Result<+T> = Ok(value: T) | Err(error: Failure) {
    predicate IsFailure() {
      Err?
    }

    function PropagateFailure<U>(): Result<U>
      requires Err?
    {
      Err(error)
    }

    function Extract(): T
      requires Ok?
    {
      value
    }
  }
}

/** A value that may be missing. */
module Options {

  datatype Option<+T> = None | Some(value: T)
}
