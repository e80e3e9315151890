/** The funding token: an EIP-20 balance map and its `transfer`. */
module Usdc {
  import opened Base

  /** `balanceOf(holder)`: an account that never received tokens holds 0. */
  function Balance(bal: map<Addr, nat>, holder: Addr): (n: nat)
    ensures holder !in bal ==> n == 0
    ensures holder in bal ==> n == bal[holder]
  {
    if holder in bal then bal[holder] else 0
  }

  /** The effect of `transfer(to, amount)` sent by `from`: it fails when the
      sender holds less than `amount`; otherwise it debits the sender and
      then credits the receiver (so a transfer to oneself changes nothing). */
  function Move(bal: map<Addr, nat>, from: Addr, to: Addr, amount: nat): (r: Option<map<Addr, nat>>)
    ensures r.Some? <==> amount <= Balance(bal, from)
    ensures r.Some? ==> forall x :: (Balance(r.value, x) ==
      Balance(bal, x) - (if x == from then amount else 0) + (if x == to then amount else 0))
  {
    var fromBalance := Balance(bal, from);
    if fromBalance < amount then None
    else
      var debited := bal[from := fromBalance - amount];
      Some(debited[to := Balance(debited, to) + amount])
  }

  /** A transfer never creates or destroys tokens: what the sender loses the
      receiver gains, and every other account keeps its balance. */
  lemma MoveConserves(bal: map<Addr, nat>, from: Addr, to: Addr, amount: nat, x: Addr)
    requires Move(bal, from, to, amount).Some?
    ensures from != to ==>
      Balance(Move(bal, from, to, amount).value, from) + Balance(Move(bal, from, to, amount).value, to)
      == Balance(bal, from) + Balance(bal, to)
    ensures x != from && x != to ==> Balance(Move(bal, from, to, amount).value, x) == Balance(bal, x)
  {
  }

  /** The test token contract; only its balances matter to the model. */
  class TestUsdc {
    var bal: map<Addr, nat>

    /** Deployment; how the initial supply is spread is a parameter. */
    constructor (initial: map<Addr, nat>)
      ensures bal == initial
    {
      bal := initial;
    }

    /** `balanceOf(holder)`: 0 for an account that never held tokens. */
    function BalanceOf(holder: Addr): (n: nat)
      reads this
      ensures holder !in bal ==> n == 0
      ensures holder in bal ==> n == bal[holder]
    {
      Balance(bal, holder)
    }

    /** `transfer(to, amount)` sent by `sender`; a failed transfer reverts and
        leaves every balance as it was. */
    method Transfer(sender: Addr, to: Addr, amount: nat) returns (r: Outcome)
      modifies this
      ensures r == if amount <= Balance(old(bal), sender) then Pass else Fail(TransferAmountExceedsBalance)
      ensures bal == if r.Pass? then Move(old(bal), sender, to, amount).value else old(bal)
    {
      var moved := Move(bal, sender, to, amount);
      if moved.None? {
        return Fail(TransferAmountExceedsBalance);
      }
      bal := moved.value;
      r := Pass;
    }
  }
}
