/** The registration ledger: an append-only, ordered list of beneficiaries,
    their compensation amounts and claimed flags, the running total and the
    distribution cursor, as a value. */
module Ledger {
  import opened Base

  /** The notifications the compensation contract emits. */
  datatype Event = Registered(user: Addr, amount: nat) | Claimed(user: Addr, amount: nat)

  /** The four durable fields of the compensation contract together with
      the two mappings: `users`, `userCompensation`, `claimed`,
      `totalCompensation` and `cursor`. */
  datatype Books = Books(
    users: seq<Addr>,
    comp: map<Addr, nat>,
    claimed: map<Addr, bool>,
    total: nat,
    cursor: nat)

  /** `userCompensation(a)`: 0 for an address never registered. */
  function CompOf(comp: map<Addr, nat>, a: Addr): nat
  {
    if a in comp then comp[a] else 0
  }

  /** `claimed(a)`: false for an address never registered. */
  predicate ClaimedOf(claimed: map<Addr, bool>, a: Addr)
  {
    a in claimed && claimed[a]
  }

  function Sum(xs: seq<nat>): nat
  {
    if xs == [] then 0 else xs[0] + Sum(xs[1..])
  }

  /** The compensation owed to the addresses of `s`, counted once per position. */
  function SumComp(s: seq<Addr>, comp: map<Addr, nat>): nat
  {
    if s == [] then 0 else CompOf(comp, s[0]) + SumComp(s[1..], comp)
  }

  predicate Distinct(s: seq<Addr>)
  {
    forall i, j :: 0 <= i < j < |s| ==> s[i] != s[j]
  }

  /** One `Claimed` event per address of `s`, in order. */
  function ClaimedEvents(s: seq<Addr>, comp: map<Addr, nat>): seq<Event>
  {
    seq(|s|, i requires 0 <= i < |s| => Claimed(s[i], CompOf(comp, s[i])))
  }

  /** One `Registered` event per registered pair, in input order. */
  function RegisteredEvents(addrs: seq<Addr>, amounts: seq<nat>): seq<Event>
    requires |addrs| == |amounts|
  {
    seq(|addrs|, i requires 0 <= i < |addrs| => Registered(addrs[i], amounts[i]))
  }

  /** The `Registered` events of a ledger whose list is `s`: one per user, in
      list order, with the amount that user is owed. */
  function Registrations(s: seq<Addr>, comp: map<Addr, nat>): seq<Event>
  {
    seq(|s|, i requires 0 <= i < |s| => Registered(s[i], CompOf(comp, s[i])))
  }

  /** Every registered user's amount is the one its `Registered` event
      announced. */
  lemma RegistrationOf(s: seq<Addr>, comp: map<Addr, nat>, a: Addr)
    requires a in s
    ensures Registered(a, CompOf(comp, a)) in Registrations(s, comp)
  {
    var k :| 0 <= k < |s| && s[k] == a;
    assert Registrations(s, comp)[k] == Registered(a, CompOf(comp, a));
  }

  /** Appending a new user with its amount adds one event. */
  lemma RegistrationsAppend(s: seq<Addr>, comp: map<Addr, nat>, a: Addr, amount: nat)
    requires a !in s
    ensures Registrations(s + [a], comp[a := amount]) == Registrations(s, comp) + [Registered(a, amount)]
  {
    forall i | 0 <= i < |s|
      ensures Registrations(s + [a], comp[a := amount])[i] == Registrations(s, comp)[i]
    {
      assert s[i] in s;
    }
  }

  /** The invariant of the ledger: no address is registered twice, the cursor
      lies within the list, the total is the sum of the recorded amounts,
      exactly the addresses before the cursor are claimed, and an address
      that was never registered is owed nothing. */
  ghost predicate Consistent(b: Books)
  {
    && Distinct(b.users)
    && b.cursor <= |b.users|
    && b.total == SumComp(b.users, b.comp)
    && (forall x :: ClaimedOf(b.claimed, x) <==> x in b.users[..b.cursor])
    && (forall x :: x !in b.users ==> CompOf(b.comp, x) == 0)
  }

  /** Addresses that may be registered next: distinct and not yet registered. */
  predicate Fresh(b: Books, addrs: seq<Addr>)
  {
    Distinct(addrs) && forall i :: 0 <= i < |addrs| ==> addrs[i] !in b.users
  }

  /** The next address of a fresh batch is not yet in the list. */
  lemma FreshNext(b: Books, addrs: seq<Addr>, i: nat)
    requires Fresh(b, addrs) && i < |addrs|
    ensures addrs[i] !in b.users + addrs[..i]
  {
    assert forall j :: 0 <= j < i ==> addrs[j] != addrs[i];
  }

  /** The ledger of a freshly deployed contract. */
  function Empty(): (b: Books)
    ensures Consistent(b) && b.users == [] && b.total == 0 && b.cursor == 0
  {
    Books([], map[], map[], 0, 0)
  }

  lemma {:induction false} SumAppend(xs: seq<nat>, x: nat)
    ensures Sum(xs + [x]) == Sum(xs) + x
  {
    if xs != [] {
      assert (xs + [x])[1..] == xs[1..] + [x];
      SumAppend(xs[1..], x);
    }
  }

  lemma {:induction false} SumCompAppend(s: seq<Addr>, a: Addr, comp: map<Addr, nat>)
    ensures SumComp(s + [a], comp) == SumComp(s, comp) + CompOf(comp, a)
  {
    if s != [] {
      assert (s + [a])[1..] == s[1..] + [a];
      SumCompAppend(s[1..], a, comp);
    }
  }

  /** The sum over `s` depends only on the amounts of the addresses in `s`. */
  lemma {:induction false} SumCompFrame(s: seq<Addr>, comp: map<Addr, nat>, comp': map<Addr, nat>)
    requires forall x :: x in s ==> CompOf(comp, x) == CompOf(comp', x)
    ensures SumComp(s, comp) == SumComp(s, comp')
  {
    if s != [] {
      assert s[0] in s;
      forall x | x in s[1..] ensures CompOf(comp, x) == CompOf(comp', x) {
        assert x in s;
      }
      SumCompFrame(s[1..], comp, comp');
    }
  }

  /** The events for `s` depend only on the amounts of the addresses in `s`. */
  lemma ClaimedEventsFrame(s: seq<Addr>, comp: map<Addr, nat>, comp': map<Addr, nat>)
    requires forall x :: x in s ==> CompOf(comp, x) == CompOf(comp', x)
    ensures ClaimedEvents(s, comp) == ClaimedEvents(s, comp')
  {
    forall i | 0 <= i < |s| ensures ClaimedEvents(s, comp)[i] == ClaimedEvents(s, comp')[i] {
      assert s[i] in s;
    }
  }

  lemma ClaimedEventsAppend(s: seq<Addr>, t: seq<Addr>, comp: map<Addr, nat>)
    ensures ClaimedEvents(s + t, comp) == ClaimedEvents(s, comp) + ClaimedEvents(t, comp)
  {
  }

  /** The events up to `c0` followed by those from `c0` up to `end` are the
      events up to `end`. */
  lemma ClaimedEventsSplit(s: seq<Addr>, comp: map<Addr, nat>, c0: nat, end: nat)
    requires c0 <= end <= |s|
    ensures ClaimedEvents(s[..c0], comp) + ClaimedEvents(s[c0..end], comp) == ClaimedEvents(s[..end], comp)
  {
    assert s[..end] == s[..c0] + s[c0..end];
    ClaimedEventsAppend(s[..c0], s[c0..end], comp);
  }

  /** Extending a window of the list by one position adds one event. */
  lemma ClaimedEventsExtend(s: seq<Addr>, comp: map<Addr, nat>, lo: nat, hi: nat)
    requires lo <= hi < |s|
    ensures ClaimedEvents(s[lo..hi + 1], comp) == ClaimedEvents(s[lo..hi], comp) + [Claimed(s[hi], CompOf(comp, s[hi]))]
  {
    assert s[lo..hi + 1] == s[lo..hi] + [s[hi]];
  }

  /** One registration: `a` joins the end of the list with `amount`, which
      is added to the total. */
  function Append(b: Books, a: Addr, amount: nat): (r: Books)
    ensures r.users == b.users + [a] && r.total == b.total + amount
    ensures CompOf(r.comp, a) == amount && forall x :: x != a ==> CompOf(r.comp, x) == CompOf(b.comp, x)
    ensures r.claimed == b.claimed && r.cursor == b.cursor
  {
    b.(users := b.users + [a], comp := b.comp[a := amount], total := b.total + amount)
  }

  /** `registerUsers`: the pairs are registered one after the other, in input
      order. */
  function RegisterAll(b: Books, addrs: seq<Addr>, amounts: seq<nat>): (r: Books)
    requires |addrs| == |amounts|
    ensures r.users == b.users + addrs
    ensures r.claimed == b.claimed && r.cursor == b.cursor
    decreases |addrs|
  {
    if addrs == [] then b
    else
      var n := |addrs| - 1;
      Append(RegisterAll(b, addrs[..n], amounts[..n]), addrs[n], amounts[n])
  }

  /** Registering one more pair is one more `Append`. */
  lemma RegisterAllStep(b: Books, addrs: seq<Addr>, amounts: seq<nat>, i: nat)
    requires i < |addrs| == |amounts|
    ensures RegisterAll(b, addrs[..i + 1], amounts[..i + 1])
         == Append(RegisterAll(b, addrs[..i], amounts[..i]), addrs[i], amounts[i])
  {
    assert addrs[..i + 1][..i] == addrs[..i];
    assert amounts[..i + 1][..i] == amounts[..i];
  }

  /** Registration raises the total by the sum of the amounts. */
  lemma {:induction false} RegisterAllTotal(b: Books, addrs: seq<Addr>, amounts: seq<nat>)
    requires |addrs| == |amounts|
    ensures RegisterAll(b, addrs, amounts).total == b.total + Sum(amounts)
  {
    if addrs != [] {
      var n := |addrs| - 1;
      RegisterAllTotal(b, addrs[..n], amounts[..n]);
      assert amounts == amounts[..n] + [amounts[n]];
      SumAppend(amounts[..n], amounts[n]);
    }
  }

  /** After registration every address of the batch is owed its own amount. */
  lemma {:induction false} RegisterAllOwed(b: Books, addrs: seq<Addr>, amounts: seq<nat>, i: nat)
    requires |addrs| == |amounts| && Distinct(addrs) && i < |addrs|
    ensures CompOf(RegisterAll(b, addrs, amounts).comp, addrs[i]) == amounts[i]
  {
    var n := |addrs| - 1;
    if i < n {
      assert addrs[..n][i] == addrs[i] != addrs[n];
      assert Distinct(addrs[..n]);
      RegisterAllOwed(b, addrs[..n], amounts[..n], i);
    }
  }

  /** Registration leaves what every other address is owed as it was. */
  lemma {:induction false} RegisterAllKeeps(b: Books, addrs: seq<Addr>, amounts: seq<nat>, x: Addr)
    requires |addrs| == |amounts| && x !in addrs
    ensures CompOf(RegisterAll(b, addrs, amounts).comp, x) == CompOf(b.comp, x)
  {
    if addrs != [] {
      var n := |addrs| - 1;
      assert x != addrs[n];
      assert x !in addrs[..n];
      RegisterAllKeeps(b, addrs[..n], amounts[..n], x);
    }
  }

  /** The `Registered` events after registering a fresh batch are those
      before it followed by one per pair of the batch, in input order. */
  lemma RegisterAllEvents(b: Books, addrs: seq<Addr>, amounts: seq<nat>)
    requires |addrs| == |amounts| && Fresh(b, addrs)
    ensures var r := RegisterAll(b, addrs, amounts);
      Registrations(r.users, r.comp) == Registrations(b.users, b.comp) + RegisteredEvents(addrs, amounts)
  {
    var r := RegisterAll(b, addrs, amounts);
    var n := |b.users|;
    forall i | 0 <= i < |r.users|
      ensures Registrations(r.users, r.comp)[i]
           == (Registrations(b.users, b.comp) + RegisteredEvents(addrs, amounts))[i]
    {
      if i < n {
        assert b.users[i] !in addrs;
        RegisterAllKeeps(b, addrs, amounts, b.users[i]);
      } else {
        RegisterAllOwed(b, addrs, amounts, i - n);
      }
    }
  }

  /** Appending one fresh address keeps the invariant, and the new address is
      not claimed. */
  lemma AppendKeepsConsistent(b: Books, a: Addr, amount: nat)
    requires Consistent(b) && a !in b.users
    ensures Consistent(Append(b, a, amount)) && !ClaimedOf(b.claimed, a)
  {
    var b' := Append(b, a, amount);
    SumCompFrame(b.users, b.comp, b'.comp);
    SumCompAppend(b.users, a, b'.comp);
    assert b'.users[..b.cursor] == b.users[..b.cursor];
  }

  /** Registering a fresh batch keeps the invariant. */
  lemma {:induction false} RegisterAllConsistent(b: Books, addrs: seq<Addr>, amounts: seq<nat>)
    requires |addrs| == |amounts| && Consistent(b) && Fresh(b, addrs)
    ensures Consistent(RegisterAll(b, addrs, amounts))
  {
    if addrs != [] {
      var n := |addrs| - 1;
      assert Fresh(b, addrs[..n]);
      RegisterAllConsistent(b, addrs[..n], amounts[..n]);
      FreshNext(b, addrs, n);
      AppendKeepsConsistent(RegisterAll(b, addrs[..n], amounts[..n]), addrs[n], amounts[n]);
    }
  }

  /** Every beneficiary is named by at most one `Claimed` event: the log of a
      ledger without repeated addresses never pays anyone twice. */
  lemma ClaimedAtMostOnce(s: seq<Addr>, comp: map<Addr, nat>)
    requires Distinct(s)
    ensures forall i, j :: 0 <= i < j < |ClaimedEvents(s, comp)| ==>
      ClaimedEvents(s, comp)[i].user != ClaimedEvents(s, comp)[j].user
  {
  }
}
