/** The `VultureSwapCompensation` contract as a class: the ledger fields,
    `registerUsers`, `distribute` and the read accessors. */
module Compensation {
  import opened Base
  import opened Usdc
  import opened Ledger
  import opened Distributor

  class VultureSwapCompensation {
    /** The funding token, the contract's own address and its deployer. */
    const token: TestUsdc
    const self: Addr
    const owner: Addr

    var users: seq<Addr>
    var comp: map<Addr, nat>
    var claimed: map<Addr, bool>
    var total: nat
    var cursor: nat

    /** The events emitted so far, in order. */
    ghost var registeredLog: seq<Event>
    ghost var claimedLog: seq<Event>

    function State(): Books
      reads this
    {
      Books(users, comp, claimed, total, cursor)
    }

    ghost function Snapshot(): World
      reads this, token
    {
      World(State(), token.bal)
    }

    /** The ledger invariant, a `Registered` log that names every user in
        list order with its amount, and a `Claimed` log that names the users
        before the cursor in order, each once. */
    ghost predicate Valid()
      reads this
    {
      && Consistent(State())
      && registeredLog == Registrations(users, comp)
      && claimedLog == ClaimedEvents(users[..cursor], comp)
    }

    /** Deployment with the funding token's address, by `deployer`. */
    constructor (token: TestUsdc, self: Addr, deployer: Addr)
      ensures Valid()
      ensures this.token == token && this.self == self && owner == deployer
      ensures State() == Empty() && registeredLog == [] && claimedLog == []
    {
      this.token := token;
      this.self := self;
      owner := deployer;
      users, comp, claimed, total, cursor := [], map[], map[], 0, 0;
      registeredLog, claimedLog := [], [];
    }

    /** `usersLength()`. */
    function UsersLength(): (n: nat)
      reads this
      requires Valid()
      ensures n == |users| && cursor <= n
    {
      |users|
    }

    /** `users(i)`: reverts for a position past the end. */
    function Users(i: nat): (r: Result<Addr>)
      reads this
      ensures r.Ok? <==> i < |users|
      ensures r.Ok? ==> r.value == users[i]
    {
      if i < |users| then Ok(users[i]) else Err(IndexOutOfRange)
    }

    /** `claimed(a)`: true exactly for the users the cursor has passed. */
    function IsClaimed(a: Addr): (c: bool)
      reads this
      requires Valid()
      ensures c <==> a in users[..cursor]
    {
      ClaimedOf(claimed, a)
    }

    /** `userCompensation(a)`: the amount announced by the `Registered` event
        of a registered user, and 0 for an address never registered. */
    function UserCompensation(a: Addr): (amount: nat)
      reads this
      requires Valid()
      ensures a in users ==> Registered(a, amount) in registeredLog
      ensures a !in users ==> amount == 0
    {
      if a in users then RegistrationOf(users, comp, a); CompOf(comp, a) else CompOf(comp, a)
    }

    /** `totalCompensation()`: the sum owed to all registered users. */
    function TotalCompensation(): (t: nat)
      reads this
      requires Valid()
      ensures t == SumComp(users, comp)
    {
      total
    }

    /** `cursor()`: the users before it, and only they, are claimed. */
    function Cursor(): (c: nat)
      reads this
      requires Valid()
      ensures c <= |users|
      ensures forall i :: 0 <= i < |users| ==> (ClaimedOf(claimed, users[i]) <==> i < c)
    {
      assert forall i :: 0 <= i < |users| ==> (users[i] in users[..cursor] <==> i < cursor) by {
        assert Distinct(users);
        forall i | 0 <= i < |users| ensures users[i] in users[..cursor] <==> i < cursor {
          if users[i] in users[..cursor] {
            var k :| 0 <= k < cursor && users[..cursor][k] == users[i];
            assert users[k] == users[i];
          }
        }
      }
      cursor
    }

    /** `registerUsers(addrs, amounts)`: appends each address, in input order,
        after the users already registered, records its amount and adds it to
        the total; claimed flags, the cursor and the `Claimed` log stay put. */
    method RegisterUsers(caller: Addr, addrs: seq<Addr>, amounts: seq<nat>) returns (r: Outcome)
      requires Valid()
      requires caller == owner && |addrs| == |amounts| ==> Fresh(State(), addrs)
      modifies this
      ensures Valid()
      ensures r == if caller != owner then Fail(Unauthorized)
                   else if |addrs| != |amounts| then Fail(LengthMismatch)
                   else Pass
      ensures r.Fail? ==> State() == old(State()) && registeredLog == old(registeredLog)
      ensures r.Pass? ==> State() == RegisterAll(old(State()), addrs, amounts)
      ensures r.Pass? ==> users == old(users) + addrs && total == old(total) + Sum(amounts)
      ensures r.Pass? ==> forall i :: 0 <= i < |addrs| ==>
        CompOf(comp, addrs[i]) == amounts[i] && !ClaimedOf(claimed, addrs[i])
      ensures forall x :: x !in addrs ==> CompOf(comp, x) == CompOf(old(comp), x)
      ensures claimed == old(claimed) && cursor == old(cursor) && claimedLog == old(claimedLog)
      ensures r.Pass? ==> registeredLog == old(registeredLog) + RegisteredEvents(addrs, amounts)
    {
      if caller != owner {
        return Fail(Unauthorized);
      }
      if |addrs| != |amounts| {
        return Fail(LengthMismatch);
      }
      ghost var start := State();
      RegisterBatch(addrs, amounts);
      RegisterAllEvents(start, addrs, amounts);
      RegisterAllTotal(start, addrs, amounts);
      forall j | 0 <= j < |addrs|
        ensures CompOf(comp, addrs[j]) == amounts[j] && !ClaimedOf(claimed, addrs[j])
      {
        RegisterAllOwed(start, addrs, amounts, j);
        assert addrs[j] !in start.users[..cursor];
      }
      forall x | x !in addrs ensures CompOf(comp, x) == CompOf(start.comp, x) {
        RegisterAllKeeps(start, addrs, amounts, x);
      }
      r := Pass;
    }

    /** The loop of `registerUsers`: registers the pairs one after the other. */
    method RegisterBatch(addrs: seq<Addr>, amounts: seq<nat>)
      requires Valid() && Fresh(State(), addrs) && |addrs| == |amounts|
      modifies this
      ensures Valid() && State() == RegisterAll(old(State()), addrs, amounts)
      ensures claimedLog == old(claimedLog)
    {
      ghost var start := State();
      var i := 0;
      while i < |addrs|
        invariant 0 <= i <= |addrs|
        invariant Valid() && State() == RegisterAll(start, addrs[..i], amounts[..i])
        invariant claimedLog == old(claimedLog)
      {
        FreshNext(start, addrs, i);
        RegisterAllStep(start, addrs, amounts, i);
        AddUser(addrs[i], amounts[i]);
        i := i + 1;
      }
      assert addrs[..i] == addrs && amounts[..i] == amounts;
    }

    /** One step of `registerUsers`: appends `a` with `amount`. */
    method AddUser(a: Addr, amount: nat)
      requires Valid() && a !in users
      modifies this
      ensures Valid()
      ensures State() == Append(old(State()), a, amount)
      ensures claimedLog == old(claimedLog) && registeredLog == old(registeredLog) + [Registered(a, amount)]
    {
      AppendKeepsConsistent(State(), a, amount);
      RegistrationsAppend(users, comp, a, amount);
      ClaimedEventsFrame(users[..cursor], comp, comp[a := amount]);
      assert (users + [a])[..cursor] == users[..cursor];
      users := users + [a];
      comp := comp[a := amount];
      total := total + amount;
      registeredLog := registeredLog + [Registered(a, amount)];
    }

    /** One step of `distribute`: the contract transfers the compensation of
        the user at position `i` and marks that user claimed. */
    method ClaimAt(i: nat) returns (sent: Outcome)
      requires i < |users|
      modifies this`claimed, this`claimedLog, token
      ensures var m := Payout(old(token.bal), self, users[i], CompOf(comp, users[i]));
        && sent.Pass? == m.Some?
        && (sent.Pass? ==> token.bal == m.value && claimed == old(claimed)[users[i] := true]
                           && claimedLog == old(claimedLog) + [Claimed(users[i], CompOf(comp, users[i]))])
        && (sent.Fail? ==> token.bal == old(token.bal) && claimed == old(claimed) && claimedLog == old(claimedLog))
    {
      var user := users[i];
      var amount := CompOf(comp, user);
      if amount == 0 {
        sent := Pass;
      } else {
        sent := token.Transfer(self, user, amount);
      }
      if sent.Pass? {
        claimed := claimed[user := true];
        claimedLog := claimedLog + [Claimed(user, amount)];
      }
    }

    /** The loop of `distribute`: pays the positions from the cursor up to
        `end` in order, leaving the cursor itself to the caller. When a
        transfer fails, everything the loop did is reverted and it reports
        failure. */
    method PayBatch(end: nat) returns (ok: bool)
      requires cursor <= end <= |users|
      modifies this`claimed, this`claimedLog, token
      ensures ok == Pay(old(Snapshot()), self, end).Some?
      ensures ok ==> World(State().(cursor := end), token.bal) == Pay(old(Snapshot()), self, end).value
      ensures !ok ==> claimed == old(claimed) && token.bal == old(token.bal)
      ensures claimedLog == old(claimedLog) + if ok then ClaimedEvents(users[cursor..end], comp) else []
    {
      ghost var start := Snapshot();
      // What a revert restores.
      var savedClaimed, savedBal := claimed, token.bal;
      ghost var savedLog := claimedLog;
      var i := cursor;
      while i < end
        invariant cursor <= i <= end
        invariant Pay(start, self, end) == Pay(World(State().(cursor := i), token.bal), self, end)
        invariant claimedLog == savedLog + ClaimedEvents(users[cursor..i], comp)
      {
        ghost var w := World(State().(cursor := i), token.bal);
        ghost var log := claimedLog;
        var sent := ClaimAt(i);
        if sent.Fail? {
          PayStepFails(w, self, end);
          claimed, token.bal := savedClaimed, savedBal;
          claimedLog := savedLog;
          return false;
        }
        PayStep(w, self, end, token.bal);
        assert World(State().(cursor := i + 1), token.bal) == Advance(w, token.bal);
        ClaimedEventsExtend(users, comp, cursor, i);
        i := i + 1;
      }
      ok := true;
    }

    /** `distribute(maxSteps)`: pays the users from the cursor up to
        min(cursor + maxSteps, usersLength()) in order, marking each claimed
        and logging one `Claimed` per position, then moves the cursor to the
        end of the batch. A transfer the contract cannot cover reverts the
        whole call. The new state is the one `Distributed` describes. */
    method Distribute(caller: Addr, maxSteps: nat) returns (r: Outcome)
      requires Valid()
      modifies this, token
      ensures Valid()
      ensures r == if caller != owner then Fail(Unauthorized)
                   else if Distributed(old(Snapshot()), self, maxSteps).Some? then Pass
                   else Fail(TransferAmountExceedsBalance)
      ensures Snapshot() == if r.Pass? then Distributed(old(Snapshot()), self, maxSteps).value
                            else old(Snapshot())
      ensures claimedLog == old(claimedLog) +
        if r.Pass? then ClaimedEvents(users[old(cursor)..cursor], comp) else []
      ensures registeredLog == old(registeredLog)
    {
      if caller != owner {
        return Fail(Unauthorized);
      }
      ghost var start := Snapshot();
      var end := Min(cursor + maxSteps, |users|);
      assert Distributed(start, self, maxSteps) == Pay(start, self, end);
      var ok := PayBatch(end);
      if !ok {
        return Fail(TransferAmountExceedsBalance);
      }
      ghost var c0 := cursor;
      ghost var w' := Pay(start, self, end).value;
      cursor := end;
      assert Snapshot() == w';
      DistributeKeepsConsistent(start, self, maxSteps);
      ClaimedEventsSplit(users, comp, c0, end);
      r := Pass;
    }
  }

  /** The `Claimed` log of a consistent contract never names a beneficiary
      twice: every user is paid at most once over the contract's lifetime. */
  lemma PaidAtMostOnce(c: VultureSwapCompensation)
    requires c.Valid()
    ensures forall i, j :: 0 <= i < j < |c.claimedLog| ==> c.claimedLog[i].user != c.claimedLog[j].user
    ensures |c.claimedLog| == c.cursor
  {
    ClaimedAtMostOnce(c.users[..c.cursor], c.comp);
  }
}
