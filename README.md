# VultureSwap compensation, modelled in Dafny

VultureSwap's compensation contract, `VultureSwapCompensation`, keeps a ledger of beneficiaries. The ledger holds:

- the ordered `users` list;
- `userCompensation` and `claimed` per address;
- the running `totalCompensation`;
- a `cursor`.

The owner registers beneficiaries with `registerUsers(addrs, amounts)`. The owner then pays them out in batches with `distribute(maxSteps)`. Each batch walks the positions from the cursor up to `min(cursor + maxSteps, usersLength())` in order. At each position the contract transfers the beneficiary's compensation from its own balance of a USDC test token, marks the beneficiary claimed and emits `Claimed(user, amount)`. The cursor then moves to the end of the batch. A transfer the contract cannot cover reverts the whole call with "ERC20: transfer amount exceeds balance".

The repository's only source is the Hardhat test suite `CompensationTest.js`. The model is what that suite asserts about the two contracts.

Modules:

- `Base`: addresses, the error taxonomy, and `Option`, `Outcome` and `Result`.
- `Usdc`: the test token.
  - A balance map, with EIP-20 `transfer` as the pure function `Move`.
  - The class `TestUsdc`, whose `Transfer` updates the map in place.
- `Ledger`: the contract's bookkeeping as a value (`Books`).
  - Its invariant `Consistent`: no address twice, cursor within the list, total equals the sum of the amounts, exactly the users below the cursor are claimed.
  - Registration as the specification function `RegisterAll`, with lemmas on what it does.
  - The event logs.
- `Distributor`: `distribute` as the specification function `Distributed`.
  - It is built on a position-by-position walk `Pay`, which fails as a whole at the first transfer that fails.
  - Lemmas cover token conservation, claimed flags, the no-op once drained, and independence from how the work is split into batches.
- `Compensation`: the class `VultureSwapCompensation`.
  - Fields `users`, `comp`, `claimed`, `total`, `cursor`, ghost event logs, and a reference to the token object.
  - `RegisterUsers` and `Distribute` run their `while` loops in the helpers `RegisterBatch` and `PayBatch`. These are proved against `RegisterAll` and against `Pay`, the walk `Distributed` is built on.
  - The class invariant `Valid` ties the `Registered` log to the list and its amounts, and the `Claimed` log to the users before the cursor.
  - A failed transfer reverts: the call restores the saved flags, balances and log.
  - The six read accessors are functions.
- `Scenarios`: each test of the suite replayed as a client method, with the test's expectations as `ensures`. The proofs use three things:
  - the contracts of the two classes;
  - the `Distributor` lemmas about the call (`DistributeEffect`) and a three-term unfolding of the sum owed (`OwedByThree`);
  - the bodies of the read accessors, which Dafny's callers see.

## Model

| member | source | states |
|---|---|---|
| Usdc.Balance | CompensationTest.js:82-85 | An account that never held tokens has balance 0; otherwise its balance is the recorded one. |
| Usdc.Move | CompensationTest.js:37-40 | A transfer succeeds exactly when the sender holds at least the amount. Then the sender loses the amount, the receiver gains it, and no one else's balance changes. |
| Usdc.MoveConserves | CompensationTest.js:90-93 | A successful transfer between two different accounts keeps their combined balance, and leaves every third account's balance as it was. |
| Usdc.TestUsdc.constructor | CompensationTest.js:12-13 | The deployed token holds the given initial balances. |
| Usdc.TestUsdc.BalanceOf | CompensationTest.js:90-93 | `balanceOf(holder)` is 0 for an account that never held tokens, and otherwise the token's recorded balance. |
| Usdc.TestUsdc.Transfer | CompensationTest.js:44 | Passes iff the sender holds at least the amount, and then applies `Move` to the balances; otherwise fails with the exceed-balance error and changes nothing. |
| Ledger.Empty | CompensationTest.js:18-21 | A fresh ledger is consistent, with no users, total 0 and cursor 0. |
| Ledger.RegistrationOf | CompensationTest.js:26-34 | Every user of the list is named by a `Registered` event carrying the amount that user is owed. |
| Ledger.Append | CompensationTest.js:64-66 | One registration appends the address, makes it owed exactly its amount, and raises the total by that amount. Every other address keeps its amount, and the flags and cursor stay. |
| Ledger.RegisterAll | CompensationTest.js:64-71 | Registration appends the addresses, in input order, after the existing users, and leaves the claimed flags and the cursor unchanged. |
| Ledger.RegisterAllTotal | CompensationTest.js:67-68 | Registration raises the total by exactly the sum of the new amounts. |
| Ledger.RegisterAllOwed | CompensationTest.js:76-78 | After registration each new address is owed its own amount. |
| Ledger.RegisterAllKeeps | CompensationTest.js:76 | Registration leaves the amount owed to every address outside the batch, e.g. the owner's 1 USDC, as it was. |
| Ledger.RegisterAllEvents | CompensationTest.js:64-65 | After registering a fresh batch, the ledger's `Registered` events are those before it, followed by one per pair of the batch in input order. |
| Ledger.AppendKeepsConsistent | CompensationTest.js:72-75 | Appending an unregistered address keeps the ledger invariant, and the new address is not claimed. |
| Ledger.RegisterAllConsistent | CompensationTest.js:67-78 | Registering a batch of distinct, unregistered addresses keeps the ledger invariant. |
| Ledger.ClaimedAtMostOnce | CompensationTest.js:57-59 | The `Claimed` events for a list without repeated addresses never name the same beneficiary twice. |
| Distributor.Payout | CompensationTest.js:87-93 | One payment fails exactly when the contract cannot cover the amount. Otherwise the contract loses the amount, the beneficiary gains it, and no other balance changes. A zero amount makes no token call. |
| Distributor.Pay | CompensationTest.js:48-54 | A successful walk to `end` leaves the users, amounts and total unchanged, and moves the cursor to `end`. |
| Distributor.Distributed | CompensationTest.js:48-54 | On success the cursor is `min(cursor + maxSteps, usersLength)`. It never decreases and never passes the end of the list. Users, amounts and total are unchanged. |
| Distributor.RunBatches | CompensationTest.js:107-112 | When several `distribute` calls in a row all succeed, the cursor has only moved forward. It moved by at most the sum of their step counts and never past the end of the list, and the users and amounts are unchanged. |
| Distributor.PaySplit | CompensationTest.js:101-123 | Walking to `e2` is the same as walking to `e1` and then on to `e2`, including failure. |
| Distributor.PayClaims | CompensationTest.js:51-55 | After a successful walk, an address is claimed iff it was already claimed or lies in the walked window. |
| Distributor.PayBalances | CompensationTest.js:87-93 | If the contract is not in the window, the walk succeeds iff the contract holds the sum owed to the window. Its balance then falls by exactly that sum, each walked beneficiary gains its compensation, and all other balances stay. |
| Distributor.BatchSplit | CompensationTest.js:125-145 | A batch of `k1` steps followed by a batch of `k2` steps equals one batch of `k1 + k2` steps, failure included. |
| Distributor.SplitIndependence | CompensationTest.js:101-123 | Any sequence of `distribute` calls equals one call whose step count is the sum of theirs. |
| Distributor.ScheduleIndependence | CompensationTest.js:114-117 | Two schedules that each cover every remaining position end in the same state, which is walking to the end of the list. |
| Distributor.DrainedIsNoop | CompensationTest.js:57-59 | Once the cursor is at the end, `distribute(n)` succeeds for every `n`, processes nothing and changes nothing. |
| Distributor.DistributeKeepsConsistent | CompensationTest.js:51-55 | A successful call keeps the ledger invariant. |
| Distributor.DistributeEffect | CompensationTest.js:87-93 | If the contract is not in the batch, a call succeeds iff the contract holds what the batch is owed. Then the contract loses exactly that, each batch beneficiary gains exactly its compensation, and exactly the batch becomes claimed. |
| Distributor.DrainPaysTotal | CompensationTest.js:81-99 | From a fresh cursor, batches covering every position succeed iff the contract holds `totalCompensation`. Then the contract loses exactly the total, and every user is claimed and has received its compensation. |
| Compensation.VultureSwapCompensation.constructor | CompensationTest.js:17-21 | A deployed contract satisfies `Valid`, records the token and the deployer as owner, and starts with an empty ledger and empty logs. |
| Compensation.VultureSwapCompensation.UsersLength | CompensationTest.js:30 | `usersLength()` is the length of the list, and the cursor never exceeds it. |
| Compensation.VultureSwapCompensation.Users | CompensationTest.js:69-71 | `users(i)` is the `i`-th registered address, and reverts iff `i` is past the end. |
| Compensation.VultureSwapCompensation.IsClaimed | CompensationTest.js:72-74 | `claimed(a)` holds iff `a` is among the users before the cursor. |
| Compensation.VultureSwapCompensation.UserCompensation | CompensationTest.js:34 | For a registered user, `userCompensation(a)` is the amount its `Registered` event announced; it is 0 for an address that was never registered. |
| Compensation.VultureSwapCompensation.TotalCompensation | CompensationTest.js:29 | `totalCompensation()` is the sum of the compensation of all registered users. |
| Compensation.VultureSwapCompensation.Cursor | CompensationTest.js:31 | `cursor()` does not exceed the list length, and a registered user is claimed iff its position is below the cursor. |
| Compensation.VultureSwapCompensation.RegisterUsers | CompensationTest.js:26-34 | If the caller is not the owner it fails `Unauthorized`. If the list lengths differ it fails `LengthMismatch`. Either failure changes nothing. Otherwise the new ledger is `RegisterAll` of the old one: addresses appended in order, total raised by their sum, each new user owed its amount and unclaimed, others' amounts, flags and cursor unchanged. One `Registered` event is logged per pair, in order. |
| Compensation.VultureSwapCompensation.RegisterBatch | CompensationTest.js:64-71 | The registration loop leaves the ledger `RegisterAll` of the old one and keeps the invariant. |
| Compensation.VultureSwapCompensation.AddUser | CompensationTest.js:64-66 | One loop step appends one unregistered address with its amount and keeps the invariant. |
| Compensation.VultureSwapCompensation.ClaimAt | CompensationTest.js:48-49 | Paying one position passes iff `Payout` succeeds. Then the token balances are `Payout`'s, the user is claimed and one `Claimed` event is logged. On failure nothing changes. |
| Compensation.VultureSwapCompensation.PayBatch | CompensationTest.js:37-40 | The distribution loop succeeds iff `Pay` does, and ends in `Pay`'s state. On failure it restores the flags, the balances and the log. |
| Compensation.VultureSwapCompensation.Distribute | CompensationTest.js:47-60 | If the caller is not the owner it fails `Unauthorized`. Otherwise it passes iff `Distributed` succeeds, and the contract and token state become `Distributed`'s; else it fails with the exceed-balance error and nothing changes. On success one `Claimed` event is logged per processed position, in order. |
| Compensation.PaidAtMostOnce | CompensationTest.js:96-98 | In a valid contract the `Claimed` log names no beneficiary twice and has one entry per position below the cursor. |
| Scenarios.DeployWithOwner | CompensationTest.js:25-35 | After registering the owner for 1 USDC: one user, total 1 USDC, cursor 0, the owner unclaimed and owed 1 USDC, and one `Registered` event. |
| Scenarios.UnfundedDistribution | CompensationTest.js:37-40 | `distribute(100)` on an unfunded contract reverts with the exceed-balance error; the cursor stays 0 and the owner unclaimed. |
| Scenarios.DeployFunded | CompensationTest.js:42-45 | After the owner's 900000 USDC transfer the contract holds exactly 900000 USDC. |
| Scenarios.FundedDistribution | CompensationTest.js:47-60 | `distribute(100)` logs `Claimed(owner, 1 USDC)`. The accessors then read length 1, `users(0) = owner`, claimed, cursor 1 and compensation 1 USDC. A second call logs nothing. |
| Scenarios.DeployWithWallets | CompensationTest.js:62-79 | After registering `wallet1` (5 USDC) and `wallet2` (3 USDC): three users in order, total 9 USDC, all unclaimed, cursor 0, and the three amounts and `Registered` events. |
| Scenarios.DistributeCovered | CompensationTest.js:87-93 | A covered owner call of `distribute`, outside the batch, pays each beneficiary of the batch exactly its compensation and moves the cursor to the batch end. |
| Scenarios.DistributeToEveryone | CompensationTest.js:81-99 | `distribute(100)` logs the three `Claimed` events in order. The balances rise by 1, 5 and 3 USDC, the contract's falls by 9 USDC, and a further call logs nothing. |
| Scenarios.DistributeInThreeStages | CompensationTest.js:101-123 | Three `distribute(1)` calls log the owner, then `wallet1`, then `wallet2`. The balance changes equal those of one large call, and a further call logs nothing. |
| Scenarios.DistributeInTwoStages | CompensationTest.js:125-145 | `distribute(2)` logs the owner and `wallet1`, then `distribute(1)` logs `wallet2`. The balance changes equal those of one large call, and a further call logs nothing. |

## Left out

- Hardhat deployment, signers, `async`/`await` and the chai assertion machinery (CompensationTest.js:1-2, 10-20) are test-harness I/O. Deployment is the two constructors. The signers are address parameters that the scenario methods require to be distinct.
- Compensation.VultureSwapCompensation.RegisterUsers: when the owner calls with lists of equal length, requires the new addresses to be distinct and not yet registered. The suite never registers an address twice, and the contract's handling of that case is not part of this model. The `Unauthorized` and `LengthMismatch` failures carry no such requirement.
- Access control is modelled as an `Unauthorized` failure when the caller is not the deployer. The suite only makes calls as the owner.
- Mismatched list lengths in `registerUsers` are modelled as a `LengthMismatch` failure. The suite never passes them.
- The `TestUSDC` internals beyond its balance map and `transfer` are left out: minting, allowances, `transferFrom`, zero-address checks and its own events. The initial spread of the supply is a constructor parameter; the scenarios give the whole supply to the owner.
- The 256-bit integer width of Solidity is not modelled. Amounts, balances and the total are unbounded naturals, so an overflowing total cannot occur in the model.
- The revert of a failed `distribute` is modelled by the method restoring the claimed flags, token balances and `Claimed` log saved at its start. The EVM's transaction rollback is not modelled as such.
- Events are ghost logs with no subscribers.
- Gas limits, which motivate `maxSteps`, are not modelled. `maxSteps == 0` needs no special case: the call processes nothing.
