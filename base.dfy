/** Shared vocabulary of the model: addresses, the error taxonomy and the
    failure-carrying result types. */
module Base {

  /** An account address (an externally owned account or a contract). */
  type Addr = nat

  datatype Option<T> = None | Some(value: T)

  /** Why a call of one of the two contracts reverts. */
  datatype Error =
    | Unauthorized                  // a mutating entry point called by someone other than the owner
    | LengthMismatch                // registerUsers with address and amount lists of different lengths
    | IndexOutOfRange               // users(i) with i >= usersLength()
    | TransferAmountExceedsBalance  // "ERC20: transfer amount exceeds balance"

  /** The result of a call that returns nothing but may revert. */
  datatype Outcome = Pass | Fail(error: Error)

  /** The result of a read that may revert. */
  datatype Result<T> = Ok(value: T) | Err(error: Error)

  function Min(a: nat, b: nat): (m: nat)
    ensures m <= a && m <= b && (m == a || m == b)
  {
    if a <= b then a else b
  }
}
