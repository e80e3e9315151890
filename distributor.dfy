/** The cursor-driven batch distributor, as functions on the ledger and the
    funding token's balances: `distribute(maxSteps)` and what it promises. */
module Distributor {
  import opened Base
  import opened Usdc
  import opened Ledger

  /** The state a distribution reads and writes: the compensation contract's
      ledger and the funding token's balances. */
  datatype World = World(books: Books, bal: map<Addr, nat>)

  /** The position one past the last one `distribute(maxSteps)` processes. */
  function BatchEnd(b: Books, maxSteps: nat): nat
  {
    Min(b.cursor + maxSteps, |b.users|)
  }

  /** The beneficiaries `distribute(maxSteps)` pays, in order. */
  function Batch(b: Books, maxSteps: nat): seq<Addr>
    requires b.cursor <= |b.users|
  {
    b.users[b.cursor..BatchEnd(b, maxSteps)]
  }

  /** One payment of `distribute`: a beneficiary owed nothing is passed over
      without a token call; otherwise `self` transfers the amount. It fails
      exactly when `self` cannot cover the amount. */
  function Payout(bal: map<Addr, nat>, self: Addr, user: Addr, amount: nat): (r: Option<map<Addr, nat>>)
    ensures r.Some? <==> amount <= Balance(bal, self)
    ensures r.Some? ==> forall x :: (Balance(r.value, x) ==
      Balance(bal, x) - (if x == self then amount else 0) + (if x == user then amount else 0))
  {
    if amount == 0 then Some(bal) else Move(bal, self, user, amount)
  }

  /** Processes the positions from the cursor up to `end`, one at a time:
      `self` (the compensation contract) transfers the amount owed to the
      beneficiary, who is then marked claimed, and the cursor moves on. The
      first transfer that fails makes the whole walk fail. */
  function Pay(w: World, self: Addr, end: nat): (r: Option<World>)
    requires w.books.cursor <= end <= |w.books.users|
    ensures r.Some? ==> r.value.books == w.books.(claimed := r.value.books.claimed, cursor := end)
    decreases end - w.books.cursor
  {
    var b := w.books;
    if b.cursor == end then Some(w)
    else
      var user := b.users[b.cursor];
      match Payout(w.bal, self, user, CompOf(b.comp, user))
      case None => None
      case Some(bal') => Pay(Advance(w, bal'), self, end)
  }

  /** The state after the beneficiary at the cursor has been paid, with the
      balances `bal'` the transfer left. */
  function Advance(w: World, bal': map<Addr, nat>): (r: World)
    requires w.books.cursor < |w.books.users|
    ensures r.books.cursor == w.books.cursor + 1 && r.books.users == w.books.users
  {
    var b := w.books;
    World(b.(claimed := b.claimed[b.users[b.cursor] := true], cursor := b.cursor + 1), bal')
  }

  /** One successful step of the walk, as the loop of `distribute` takes it. */
  lemma PayStep(w: World, self: Addr, end: nat, bal': map<Addr, nat>)
    requires w.books.cursor < end <= |w.books.users|
    requires Payout(w.bal, self, w.books.users[w.books.cursor], CompOf(w.books.comp, w.books.users[w.books.cursor])) == Some(bal')
    ensures Pay(w, self, end) == Pay(Advance(w, bal'), self, end)
  {
  }

  /** A failed transfer at the cursor makes the whole walk fail. */
  lemma PayStepFails(w: World, self: Addr, end: nat)
    requires w.books.cursor < end <= |w.books.users|
    requires Payout(w.bal, self, w.books.users[w.books.cursor], CompOf(w.books.comp, w.books.users[w.books.cursor])).None?
    ensures Pay(w, self, end).None?
  {
  }

  /** `distribute(maxSteps)` run by the contract at address `self`; `None`
      stands for the revert "ERC20: transfer amount exceeds balance". On
      success the cursor has advanced to the end of the batch, never past
      the end of the list, and nothing but the claimed flags and the cursor
      has changed in the ledger. */
  function Distributed(w: World, self: Addr, maxSteps: nat): (r: Option<World>)
    requires w.books.cursor <= |w.books.users|
    ensures r.Some? ==> w.books.cursor <= r.value.books.cursor <= |w.books.users|
    ensures r.Some? ==> r.value.books.cursor == Min(w.books.cursor + maxSteps, |w.books.users|)
    ensures r.Some? ==> r.value.books.users == w.books.users && r.value.books.comp == w.books.comp
                        && r.value.books.total == w.books.total
  {
    Pay(w, self, BatchEnd(w.books, maxSteps))
  }

  /** Several `distribute` calls in a row, with the given step counts. When
      they all succeed the cursor has only moved forward, at most by the sum
      of the step counts and never past the end of the list, and the list
      and the amounts are unchanged. */
  function RunBatches(w: World, self: Addr, steps: seq<nat>): (r: Option<World>)
    requires w.books.cursor <= |w.books.users|
    ensures r.Some? ==> w.books.cursor <= r.value.books.cursor <= |w.books.users|
    ensures r.Some? ==> r.value.books.cursor <= w.books.cursor + Sum(steps)
    ensures r.Some? ==> r.value.books.users == w.books.users && r.value.books.comp == w.books.comp
    decreases |steps|
  {
    if steps == [] then Some(w)
    else
      match Distributed(w, self, steps[0])
      case None => None
      case Some(w') => RunBatches(w', self, steps[1..])
  }

  /** Walking to `e2` is walking to `e1` and then on to `e2`. */
  lemma {:induction false} PaySplit(w: World, self: Addr, e1: nat, e2: nat)
    requires w.books.cursor <= e1 <= e2 <= |w.books.users|
    ensures Pay(w, self, e2) == match Pay(w, self, e1)
                                case None => None
                                case Some(w') => Pay(w', self, e2)
    decreases e1 - w.books.cursor
  {
    var b := w.books;
    if b.cursor == e1 {
      assert Pay(w, self, e1) == Some(w);
    } else {
      var user := b.users[b.cursor];
      match Payout(w.bal, self, user, CompOf(b.comp, user))
      case None =>
        PayStepFails(w, self, e1);
        PayStepFails(w, self, e2);
      case Some(bal') =>
        PayStep(w, self, e1, bal');
        PayStep(w, self, e2, bal');
        PaySplit(Advance(w, bal'), self, e1, e2);
    }
  }

  /** After a successful walk exactly the walked addresses have become claimed;
      no flag goes back to false. */
  lemma {:induction false} PayClaims(w: World, self: Addr, end: nat)
    requires w.books.cursor <= end <= |w.books.users|
    requires Pay(w, self, end).Some?
    ensures forall x :: ClaimedOf(Pay(w, self, end).value.books.claimed, x) <==>
      (ClaimedOf(w.books.claimed, x) || x in w.books.users[w.books.cursor..end])
    decreases end - w.books.cursor
  {
    var b := w.books;
    if b.cursor < end {
      var user := b.users[b.cursor];
      var bal' := Payout(w.bal, self, user, CompOf(b.comp, user)).value;
      var w' := World(b.(claimed := b.claimed[user := true], cursor := b.cursor + 1), bal');
      PayClaims(w', self, end);
      assert b.users[b.cursor..end] == [user] + b.users[b.cursor + 1..end];
    }
  }

  /** Token conservation of a walk in which the contract pays no one but
      others, each at most once: it succeeds exactly when the contract holds
      the sum owed; the contract's balance then falls by that sum, each paid
      beneficiary's balance rises by its compensation, and every other balance
      stays as it was. */
  lemma {:induction false} PayBalances(w: World, self: Addr, end: nat)
    requires w.books.cursor <= end <= |w.books.users|
    requires Distinct(w.books.users)
    requires self !in w.books.users[w.books.cursor..end]
    ensures var owed := SumComp(w.books.users[w.books.cursor..end], w.books.comp);
      Pay(w, self, end).Some? <==> owed <= Balance(w.bal, self)
    ensures Pay(w, self, end).Some? ==>
      Balance(Pay(w, self, end).value.bal, self)
        == Balance(w.bal, self) - SumComp(w.books.users[w.books.cursor..end], w.books.comp)
    ensures Pay(w, self, end).Some? ==> forall x :: x != self ==>
      Balance(Pay(w, self, end).value.bal, x)
        == Balance(w.bal, x) + (if x in w.books.users[w.books.cursor..end] then CompOf(w.books.comp, x) else 0)
    decreases end - w.books.cursor
  {
    var b := w.books;
    if b.cursor < end {
      var user := b.users[b.cursor];
      var amount := CompOf(b.comp, user);
      var rest := b.users[b.cursor + 1..end];
      assert b.users[b.cursor..end] == [user] + rest;
      assert b.users[b.cursor..end][1..] == rest;
      assert user != self;
      assert user !in rest;
      match Payout(w.bal, self, user, amount)
      case None =>
      case Some(bal') =>
        var w' := World(b.(claimed := b.claimed[user := true], cursor := b.cursor + 1), bal');
        assert self !in rest;
        PayBalances(w', self, end);
    }
  }

  /** Running batches of `k1` and then `k2` steps ends where one batch of
      `k1 + k2` steps ends, and fails exactly when it fails. */
  lemma BatchSplit(w: World, self: Addr, k1: nat, k2: nat)
    requires w.books.cursor <= |w.books.users|
    ensures Distributed(w, self, k1 + k2) == match Distributed(w, self, k1)
                                              case None => None
                                              case Some(w') => Distributed(w', self, k2)
  {
    PaySplit(w, self, BatchEnd(w.books, k1), BatchEnd(w.books, k1 + k2));
  }

  /** Any sequence of `distribute` calls amounts to one call whose step count
      is the sum of theirs. */
  lemma {:induction false} SplitIndependence(w: World, self: Addr, steps: seq<nat>)
    requires w.books.cursor <= |w.books.users|
    ensures RunBatches(w, self, steps) == Distributed(w, self, Sum(steps))
    decreases |steps|
  {
    if steps == [] {
      assert Pay(w, self, BatchEnd(w.books, 0)) == Some(w);
    } else {
      BatchSplit(w, self, steps[0], Sum(steps[1..]));
      match Distributed(w, self, steps[0])
      case None =>
      case Some(w') => SplitIndependence(w', self, steps[1..]);
    }
  }

  /** The final state does not depend on how the work is split into batches:
      two schedules that each cover every remaining position end in the same
      state (or both fail). */
  lemma ScheduleIndependence(w: World, self: Addr, steps1: seq<nat>, steps2: seq<nat>)
    requires w.books.cursor <= |w.books.users|
    requires Sum(steps1) >= |w.books.users| - w.books.cursor
    requires Sum(steps2) >= |w.books.users| - w.books.cursor
    ensures RunBatches(w, self, steps1) == RunBatches(w, self, steps2)
    ensures RunBatches(w, self, steps1) == Pay(w, self, |w.books.users|)
  {
    SplitIndependence(w, self, steps1);
    SplitIndependence(w, self, steps2);
  }

  /** Once the cursor has reached the end of the list a call changes nothing,
      whatever its step count. */
  lemma DrainedIsNoop(w: World, self: Addr, maxSteps: nat)
    requires w.books.cursor == |w.books.users|
    ensures Distributed(w, self, maxSteps) == Some(w)
    ensures Batch(w.books, maxSteps) == []
  {
  }

  /** A successful call keeps the ledger invariant; in particular the claimed
      flags become true for exactly the positions below the new cursor. */
  lemma DistributeKeepsConsistent(w: World, self: Addr, maxSteps: nat)
    requires Consistent(w.books)
    requires Distributed(w, self, maxSteps).Some?
    ensures Consistent(Distributed(w, self, maxSteps).value.books)
  {
    var b := w.books;
    var end := BatchEnd(b, maxSteps);
    PayClaims(w, self, end);
    assert b.users[..end] == b.users[..b.cursor] + b.users[b.cursor..end];
  }

  /** What one `distribute(maxSteps)` call does to the funds, when the
      contract is not itself a beneficiary of the batch: it succeeds exactly
      when the contract holds what the batch is owed; then the contract's
      balance falls by that amount, each beneficiary of the batch receives
      exactly its compensation and is marked claimed, and no other balance or
      flag changes. */
  lemma DistributeEffect(w: World, self: Addr, maxSteps: nat)
    requires Consistent(w.books)
    requires self !in Batch(w.books, maxSteps)
    ensures var owed := SumComp(Batch(w.books, maxSteps), w.books.comp);
      Distributed(w, self, maxSteps).Some? <==> owed <= Balance(w.bal, self)
    ensures Distributed(w, self, maxSteps).Some? ==>
      var w' := Distributed(w, self, maxSteps).value;
      && Balance(w'.bal, self) == Balance(w.bal, self) - SumComp(Batch(w.books, maxSteps), w.books.comp)
      && (forall x :: x != self ==>
            Balance(w'.bal, x) == Balance(w.bal, x) + (if x in Batch(w.books, maxSteps) then CompOf(w.books.comp, x) else 0))
      && (forall x :: ClaimedOf(w'.books.claimed, x) <==> ClaimedOf(w.books.claimed, x) || x in Batch(w.books, maxSteps))
  {
    var end := BatchEnd(w.books, maxSteps);
    PayBalances(w, self, end);
    if Pay(w, self, end).Some? {
      PayClaims(w, self, end);
    }
  }

  /** Draining a ledger from a fresh cursor moves exactly the total
      compensation out of the contract and pays everyone. */
  lemma DrainPaysTotal(w: World, self: Addr, steps: seq<nat>)
    requires Consistent(w.books) && w.books.cursor == 0
    requires self !in w.books.users
    requires Sum(steps) >= |w.books.users|
    ensures RunBatches(w, self, steps).Some? <==> w.books.total <= Balance(w.bal, self)
    ensures RunBatches(w, self, steps).Some? ==>
      var w' := RunBatches(w, self, steps).value;
      && w'.books.cursor == |w.books.users|
      && Balance(w'.bal, self) == Balance(w.bal, self) - w.books.total
      && (forall i :: 0 <= i < |w.books.users| ==>
            ClaimedOf(w'.books.claimed, w.books.users[i])
            && Balance(w'.bal, w.books.users[i]) == Balance(w.bal, w.books.users[i]) + CompOf(w.books.comp, w.books.users[i]))
  {
    SplitIndependence(w, self, steps);
    assert Batch(w.books, Sum(steps)) == w.books.users;
    DistributeEffect(w, self, Sum(steps));
    if RunBatches(w, self, steps).Some? {
      var w' := RunBatches(w, self, steps).value;
      forall i | 0 <= i < |w.books.users|
        ensures ClaimedOf(w'.books.claimed, w.books.users[i])
        ensures Balance(w'.bal, w.books.users[i]) == Balance(w.bal, w.books.users[i]) + CompOf(w.books.comp, w.books.users[i])
      {
        assert w.books.users[i] in w.books.users;
      }
    }
  }
}
