/** The test suite's scenarios, replayed on the model through the contracts
    of the two classes alone. */
module Scenarios {
  import opened Base
  import opened Usdc
  import opened Ledger
  import opened Distributor
  import opened Compensation

  const ONE_USDC: nat := 1000000

  /** Deploys the token (the whole supply held by `owner`) and the
      compensation contract at `self`, then registers `owner` for 1 USDC. */
  method DeployWithOwner(owner: Addr, self: Addr, supply: nat)
    returns (usdc: TestUsdc, c: VultureSwapCompensation)
    requires owner != self
    ensures fresh(usdc) && fresh(c) && c.Valid() && c.token == usdc && c.self == self && c.owner == owner
    ensures c.users == [owner] && c.total == ONE_USDC && c.cursor == 0
    ensures CompOf(c.comp, owner) == ONE_USDC && !ClaimedOf(c.claimed, owner)
    ensures c.registeredLog == [Registered(owner, ONE_USDC)] && c.claimedLog == []
    ensures usdc.bal == map[owner := supply]
  {
    usdc := new TestUsdc(map[owner := supply]);
    c := new VultureSwapCompensation(usdc, self, owner);
    assert c.UsersLength() == 0;
    var r := c.RegisterUsers(owner, [owner], [ONE_USDC]);
    assert Sum([ONE_USDC]) == ONE_USDC;
  }

  /** Distribution before the contract is funded reverts with "ERC20:
      transfer amount exceeds balance" and changes nothing. */
  method UnfundedDistribution(owner: Addr, self: Addr, supply: nat)
    returns (r: Outcome, cursor: nat, claimed: bool)
    requires owner != self
    ensures r == Fail(TransferAmountExceedsBalance)
    ensures cursor == 0 && !claimed
  {
    var usdc, c := DeployWithOwner(owner, self, supply);
    r := c.Distribute(owner, 100);
    cursor := c.Cursor();
    claimed := c.IsClaimed(owner);
  }

  /** Deploys as above and funds the contract with 900000 USDC. */
  method DeployFunded(owner: Addr, self: Addr, supply: nat)
    returns (usdc: TestUsdc, c: VultureSwapCompensation)
    requires owner != self && supply >= 900000 * ONE_USDC
    ensures fresh(usdc) && fresh(c) && c.Valid() && c.token == usdc && c.self == self && c.owner == owner
    ensures c.users == [owner] && c.total == ONE_USDC && c.cursor == 0
    ensures CompOf(c.comp, owner) == ONE_USDC && !ClaimedOf(c.claimed, owner)
    ensures c.registeredLog == [Registered(owner, ONE_USDC)] && c.claimedLog == []
    ensures usdc.bal == map[owner := supply][owner := supply - 900000 * ONE_USDC][self := 900000 * ONE_USDC]
  {
    usdc, c := DeployWithOwner(owner, self, supply);
    var t := usdc.Transfer(owner, self, 900000 * ONE_USDC);
  }

  /** One funded `distribute(100)` pays the owner once; a second call logs
      nothing more. */
  method FundedDistribution(owner: Addr, self: Addr, supply: nat)
    returns (r1: Outcome, r2: Outcome, length: nat, first: Result<Addr>, claimed: bool, cursor: nat, amount: nat,
             ghost log1: seq<Event>, ghost log2: seq<Event>)
    requires owner != self && supply >= 900000 * ONE_USDC
    ensures r1 == Pass && log1 == [Claimed(owner, ONE_USDC)]
    ensures length == 1 && first == Ok(owner) && claimed && cursor == 1 && amount == ONE_USDC
    ensures r2 == Pass && log2 == log1
  {
    var usdc, c := DeployFunded(owner, self, supply);
    DistributeEffect(c.Snapshot(), self, 100);
    assert Batch(c.State(), 100) == [owner];
    r1 := c.Distribute(owner, 100);
    log1 := c.claimedLog;
    length, first, claimed, cursor, amount := c.UsersLength(), c.Users(0), c.IsClaimed(owner), c.Cursor(), c.UserCompensation(owner);
    r2 := c.Distribute(owner, 100);
    log2 := c.claimedLog;
  }

  /** The funded deployment with `wallet1` (5 USDC) and `wallet2` (3 USDC)
      registered after the owner. */
  method DeployWithWallets(owner: Addr, wallet1: Addr, wallet2: Addr, self: Addr, supply: nat)
    returns (usdc: TestUsdc, c: VultureSwapCompensation)
    requires owner != wallet1 && owner != wallet2 && wallet1 != wallet2
    requires self != owner && self != wallet1 && self != wallet2
    requires supply >= 900000 * ONE_USDC
    ensures fresh(usdc) && fresh(c) && c.Valid() && c.token == usdc && c.self == self && c.owner == owner
    ensures c.users == [owner, wallet1, wallet2] && c.total == 9 * ONE_USDC && c.cursor == 0
    ensures CompOf(c.comp, owner) == ONE_USDC && CompOf(c.comp, wallet1) == 5 * ONE_USDC
    ensures CompOf(c.comp, wallet2) == 3 * ONE_USDC
    ensures !ClaimedOf(c.claimed, owner) && !ClaimedOf(c.claimed, wallet1) && !ClaimedOf(c.claimed, wallet2)
    ensures c.registeredLog ==
      [Registered(owner, ONE_USDC), Registered(wallet1, 5 * ONE_USDC), Registered(wallet2, 3 * ONE_USDC)]
    ensures c.claimedLog == []
    ensures Balance(usdc.bal, self) == 900000 * ONE_USDC
    ensures Balance(usdc.bal, wallet1) == 0 && Balance(usdc.bal, wallet2) == 0
  {
    usdc, c := DeployFunded(owner, self, supply);
    var addrs, amounts := [wallet1, wallet2], [5 * ONE_USDC, 3 * ONE_USDC];
    assert Fresh(c.State(), addrs);
    var r := c.RegisterUsers(owner, addrs, amounts);
    assert amounts[1..] == [3 * ONE_USDC] && amounts[1..][1..] == [];
    assert Sum(amounts[1..]) == 3 * ONE_USDC + Sum(amounts[1..][1..]);
    assert Sum(amounts) == 8 * ONE_USDC;
    assert RegisteredEvents(addrs, amounts) == [Registered(wallet1, 5 * ONE_USDC), Registered(wallet2, 3 * ONE_USDC)];
  }

  /** A `distribute(maxSteps)` call by the owner whose batch the contract
      can cover and does not belong to: it passes, moves exactly what each
      beneficiary of the batch is owed, and logs one `Claimed` per position. */
  method DistributeCovered(c: VultureSwapCompensation, maxSteps: nat) returns (ghost logged: seq<Event>)
    requires c.Valid()
    requires c.self !in Batch(c.State(), maxSteps)
    requires SumComp(Batch(c.State(), maxSteps), c.comp) <= Balance(c.token.bal, c.self)
    modifies c, c.token
    ensures c.Valid() && c.users == old(c.users) && c.comp == old(c.comp)
    ensures c.cursor == BatchEnd(old(c.State()), maxSteps)
    ensures logged == ClaimedEvents(old(Batch(c.State(), maxSteps)), c.comp) && c.claimedLog == old(c.claimedLog) + logged
    ensures Balance(c.token.bal, c.self) == old(Balance(c.token.bal, c.self)) - old(SumComp(Batch(c.State(), maxSteps), c.comp))
    ensures forall x :: x != c.self ==> (Balance(c.token.bal, x) ==
      old(Balance(c.token.bal, x)) + (if x in old(Batch(c.State(), maxSteps)) then CompOf(c.comp, x) else 0))
  {
    DistributeEffect(c.Snapshot(), c.self, maxSteps);
    var r := c.Distribute(c.owner, maxSteps);
    logged := ClaimedEvents(old(Batch(c.State(), maxSteps)), c.comp);
  }

  /** `distribute(100)` pays all three in order: each beneficiary gains its
      compensation, the contract loses the 9 USDC total, and a further call
      logs nothing. */
  method DistributeToEveryone(owner: Addr, wallet1: Addr, wallet2: Addr, self: Addr, supply: nat)
    returns (d0: int, d1: int, d2: int, dc: int, ghost log: seq<Event>, ghost rest: seq<Event>)
    requires owner != wallet1 && owner != wallet2 && wallet1 != wallet2
    requires self != owner && self != wallet1 && self != wallet2
    requires supply >= 900000 * ONE_USDC
    ensures d0 == ONE_USDC && d1 == 5 * ONE_USDC && d2 == 3 * ONE_USDC && dc == 9 * ONE_USDC
    ensures log == [Claimed(owner, ONE_USDC), Claimed(wallet1, 5 * ONE_USDC), Claimed(wallet2, 3 * ONE_USDC)]
    ensures rest == []
  {
    var usdc, c := DeployWithWallets(owner, wallet1, wallet2, self, supply);
    var bal0, bal1, bal2, balComp := usdc.BalanceOf(owner), usdc.BalanceOf(wallet1), usdc.BalanceOf(wallet2), usdc.BalanceOf(self);
    OwedByThree(c.users, c.comp);
    assert Batch(c.State(), 100) == c.users;
    log := DistributeCovered(c, 100);
    d0, d1, d2, dc := usdc.BalanceOf(owner) - bal0, usdc.BalanceOf(wallet1) - bal1, usdc.BalanceOf(wallet2) - bal2, balComp - usdc.BalanceOf(self);
    assert Batch(c.State(), 100) == [];
    rest := DistributeCovered(c, 100);
  }

  /** Three `distribute(1)` calls claim the owner, then `wallet1`, then
      `wallet2`, one per call, with the same balance changes as one large
      call; a further call logs nothing. */
  method DistributeInThreeStages(owner: Addr, wallet1: Addr, wallet2: Addr, self: Addr, supply: nat)
    returns (d0: int, d1: int, d2: int, dc: int,
             ghost log1: seq<Event>, ghost log2: seq<Event>, ghost log3: seq<Event>, ghost rest: seq<Event>)
    requires owner != wallet1 && owner != wallet2 && wallet1 != wallet2
    requires self != owner && self != wallet1 && self != wallet2
    requires supply >= 900000 * ONE_USDC
    ensures log1 == [Claimed(owner, ONE_USDC)]
    ensures log2 == [Claimed(wallet1, 5 * ONE_USDC)]
    ensures log3 == [Claimed(wallet2, 3 * ONE_USDC)]
    ensures d0 == ONE_USDC && d1 == 5 * ONE_USDC && d2 == 3 * ONE_USDC && dc == 9 * ONE_USDC
    ensures rest == []
  {
    var usdc, c := DeployWithWallets(owner, wallet1, wallet2, self, supply);
    var bal0, bal1, bal2, balComp := usdc.BalanceOf(owner), usdc.BalanceOf(wallet1), usdc.BalanceOf(wallet2), usdc.BalanceOf(self);
    assert Batch(c.State(), 1) == [owner];
    log1 := DistributeCovered(c, 1);
    assert Batch(c.State(), 1) == [wallet1];
    log2 := DistributeCovered(c, 1);
    assert Batch(c.State(), 1) == [wallet2];
    log3 := DistributeCovered(c, 1);
    d0, d1, d2, dc := usdc.BalanceOf(owner) - bal0, usdc.BalanceOf(wallet1) - bal1, usdc.BalanceOf(wallet2) - bal2, balComp - usdc.BalanceOf(self);
    assert Batch(c.State(), 100) == [];
    rest := DistributeCovered(c, 100);
  }

  /** `distribute(2)` claims the owner and `wallet1`, then `distribute(1)`
      claims `wallet2`; the balances end as after one large call. */
  method DistributeInTwoStages(owner: Addr, wallet1: Addr, wallet2: Addr, self: Addr, supply: nat)
    returns (d0: int, d1: int, d2: int, dc: int,
             ghost log1: seq<Event>, ghost log2: seq<Event>, ghost rest: seq<Event>)
    requires owner != wallet1 && owner != wallet2 && wallet1 != wallet2
    requires self != owner && self != wallet1 && self != wallet2
    requires supply >= 900000 * ONE_USDC
    ensures log1 == [Claimed(owner, ONE_USDC), Claimed(wallet1, 5 * ONE_USDC)]
    ensures log2 == [Claimed(wallet2, 3 * ONE_USDC)]
    ensures d0 == ONE_USDC && d1 == 5 * ONE_USDC && d2 == 3 * ONE_USDC && dc == 9 * ONE_USDC
    ensures rest == []
  {
    var usdc, c := DeployWithWallets(owner, wallet1, wallet2, self, supply);
    var bal0, bal1, bal2, balComp := usdc.BalanceOf(owner), usdc.BalanceOf(wallet1), usdc.BalanceOf(wallet2), usdc.BalanceOf(self);
    assert Batch(c.State(), 2) == [owner, wallet1];
    assert SumComp([owner, wallet1], c.comp) == 6 * ONE_USDC by {
      assert [owner, wallet1][1..] == [wallet1] && [wallet1][1..] == [];
      assert SumComp([wallet1], c.comp) == 5 * ONE_USDC;
    }
    log1 := DistributeCovered(c, 2);
    assert Batch(c.State(), 1) == [wallet2];
    log2 := DistributeCovered(c, 1);
    d0, d1, d2, dc := usdc.BalanceOf(owner) - bal0, usdc.BalanceOf(wallet1) - bal1, usdc.BalanceOf(wallet2) - bal2, balComp - usdc.BalanceOf(self);
    assert Batch(c.State(), 100) == [];
    rest := DistributeCovered(c, 100);
  }

  /** What three beneficiaries are owed together. */
  lemma OwedByThree(s: seq<Addr>, comp: map<Addr, nat>)
    requires |s| == 3
    ensures SumComp(s, comp) == CompOf(comp, s[0]) + CompOf(comp, s[1]) + CompOf(comp, s[2])
  {
    assert s[1..][0] == s[1] && s[1..][1..][0] == s[2] && s[1..][1..][1..] == [];
    assert SumComp(s[1..][1..], comp) == CompOf(comp, s[2]);
    assert SumComp(s[1..], comp) == CompOf(comp, s[1]) + CompOf(comp, s[2]);
  }
}
