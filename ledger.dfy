/** The balance side of the handlers: finding a profile by id, and the
    `increment`/`decrement` of a profile's balance, which the database applies
    to the row with that id. Balances are unbounded integers: nothing in the
    handlers keeps them non-negative. */
module Ledger {
  import opened Entities

  ghost predicate HasProfile(ps: seq<Profile>, who: ProfileId) {
    exists k :: 0 <= k < |ps| && ps[k].id == who
  }

  /** Exact-id lookup: the position of the profile with id `who`. */
  function ProfileIndex(ps: seq<Profile>, who: ProfileId): (r: Option<nat>)
    ensures r.Some? ==> r.value < |ps| && ps[r.value].id == who
    ensures r.None? <==> !HasProfile(ps, who)
  {
    if |ps| == 0 then None
    else
      match ProfileIndex(ps[..|ps| - 1], who)
      case Some(k) => Some(k)
      case None => if ps[|ps| - 1].id == who then Some(|ps| - 1) else None
  }

  /** The balance of the profile with id `who`. */
  function Balance(ps: seq<Profile>, who: ProfileId): int
    requires HasProfile(ps, who)
  {
    ps[ProfileIndex(ps, who).value].balance
  }

  /** `increment`/`decrement` by `delta` of the profile with id `who`: that
      row's balance moves by `delta`, every other row is left as it was. */
  function Adjust(ps: seq<Profile>, who: ProfileId, delta: int): (r: seq<Profile>)
    ensures |r| == |ps|
    ensures forall k :: 0 <= k < |ps| ==> r[k].id == ps[k].id
    ensures forall k :: 0 <= k < |ps| && ps[k].id != who ==> r[k] == ps[k]
    ensures forall k :: 0 <= k < |ps| && ps[k].id == who ==> r[k].balance == ps[k].balance + delta
  {
    seq(|ps|, k requires 0 <= k < |ps| => if ps[k].id == who then ps[k].(balance := ps[k].balance + delta) else ps[k])
  }

  /** The money held by all profiles together. */
  function SumBalances(ps: seq<Profile>): int {
    if |ps| == 0 then 0 else SumBalances(ps[..|ps| - 1]) + ps[|ps| - 1].balance
  }

  ghost predicate NonNegative(ps: seq<Profile>) {
    forall k :: 0 <= k < |ps| ==> ps[k].balance >= 0
  }

  /** Moving one profile's balance moves the total by the same amount (and
      leaves it alone when no profile has that id). */
  lemma {:induction false} AdjustSum(ps: seq<Profile>, who: ProfileId, delta: int)
    requires UniqueProfileIds(ps)
    ensures SumBalances(Adjust(ps, who, delta)) == SumBalances(ps) + (if HasProfile(ps, who) then delta else 0)
  {
    if |ps| > 0 {
      var rest := ps[..|ps| - 1];
      var last := ps[|ps| - 1];
      var adjusted := Adjust(ps, who, delta);
      assert adjusted[..|ps| - 1] == Adjust(rest, who, delta);
      AdjustSum(rest, who, delta);
      if last.id == who {
        assert !HasProfile(rest, who);
        assert HasProfile(ps, who);
      } else if HasProfile(ps, who) {
        var k :| 0 <= k < |ps| && ps[k].id == who;
        assert k < |ps| - 1 && rest[k].id == who;
      } else {
        assert !HasProfile(rest, who);
      }
    }
  }

  /** Adjusting keeps every id, so it keeps the primary key and every profile. */
  lemma AdjustKeepsIds(ps: seq<Profile>, who: ProfileId, delta: int, other: ProfileId)
    ensures UniqueProfileIds(ps) ==> UniqueProfileIds(Adjust(ps, who, delta))
    ensures HasProfile(Adjust(ps, who, delta), other) <==> HasProfile(ps, other)
  {
    var r := Adjust(ps, who, delta);
    if HasProfile(ps, other) {
      var k :| 0 <= k < |ps| && ps[k].id == other;
      assert r[k].id == other;
    }
    if HasProfile(r, other) {
      var k :| 0 <= k < |r| && r[k].id == other;
      assert ps[k].id == other;
    }
  }

  /** Under the primary key, the balance of `who` is the one on its row. */
  lemma BalanceAt(ps: seq<Profile>, who: ProfileId, k: nat)
    requires UniqueProfileIds(ps) && k < |ps| && ps[k].id == who
    ensures HasProfile(ps, who) && Balance(ps, who) == ps[k].balance
  {
  }

  /** A payment of `price` by `payer` takes exactly `price` out of the
      system: the payer's balance drops by it and nobody is credited. */
  lemma PaymentRemovesPrice(ps: seq<Profile>, payer: ProfileId, price: int)
    requires UniqueProfileIds(ps) && HasProfile(ps, payer)
    ensures SumBalances(Adjust(ps, payer, -price)) == SumBalances(ps) - price
    ensures Balance(Adjust(ps, payer, -price), payer) == Balance(ps, payer) - price
  {
    AdjustSum(ps, payer, -price);
    AdjustKeepsIds(ps, payer, -price, payer);
    BalanceAt(Adjust(ps, payer, -price), payer, ProfileIndex(ps, payer).value);
  }

  /** A deposit of `amount` from `depositor` to `receiver` keeps the money
      of the whole system constant. */
  lemma DepositConserves(ps: seq<Profile>, receiver: ProfileId, depositor: ProfileId, amount: int)
    requires UniqueProfileIds(ps) && HasProfile(ps, receiver) && HasProfile(ps, depositor)
    ensures SumBalances(Adjust(Adjust(ps, receiver, amount), depositor, -amount)) == SumBalances(ps)
  {
    AdjustSum(ps, receiver, amount);
    AdjustKeepsIds(ps, receiver, amount, depositor);
    AdjustSum(Adjust(ps, receiver, amount), depositor, -amount);
  }

  /** Between two distinct profiles a deposit moves exactly `amount` from the
      depositor to the receiver, so their two balances add up as before. */
  lemma DepositMovesAmount(ps: seq<Profile>, receiver: ProfileId, depositor: ProfileId, amount: int)
    requires UniqueProfileIds(ps) && HasProfile(ps, receiver) && HasProfile(ps, depositor)
    requires receiver != depositor
    ensures var after := Adjust(Adjust(ps, receiver, amount), depositor, -amount);
            && HasProfile(after, receiver) && HasProfile(after, depositor)
            && Balance(after, receiver) == Balance(ps, receiver) + amount
            && Balance(after, depositor) == Balance(ps, depositor) - amount
            && Balance(after, receiver) + Balance(after, depositor) == Balance(ps, receiver) + Balance(ps, depositor)
  {
    var mid := Adjust(ps, receiver, amount);
    var after := Adjust(mid, depositor, -amount);
    AdjustKeepsIds(ps, receiver, amount, receiver);
    AdjustKeepsIds(mid, depositor, -amount, receiver);
    var r := ProfileIndex(ps, receiver).value;
    var d := ProfileIndex(ps, depositor).value;
    BalanceAt(ps, receiver, r);
    BalanceAt(ps, depositor, d);
    BalanceAt(after, receiver, r);
    BalanceAt(after, depositor, d);
  }

  /** A payment the payer can cover leaves no balance negative. */
  lemma PaymentKeepsBalancesNonNegative(ps: seq<Profile>, payer: ProfileId, price: int)
    requires UniqueProfileIds(ps) && NonNegative(ps) && HasProfile(ps, payer)
    requires price <= Balance(ps, payer)
    ensures NonNegative(Adjust(ps, payer, -price))
  {
    var after := Adjust(ps, payer, -price);
    var p := ProfileIndex(ps, payer).value;
    forall k | 0 <= k < |ps|
      ensures after[k].balance >= 0
    {
      if ps[k].id == payer {
        assert k == p;
      }
    }
  }

  /** Nothing checks the depositor's own balance: a profile holding nothing
      can still deposit, and ends up below zero. */
  lemma DepositMayOverdraw()
    ensures var after := Adjust(Adjust([Profile(1, 0), Profile(2, 0)], 2, 10), 1, -10);
            HasProfile(after, 1) && Balance(after, 1) == -10
  {
    var ps := [Profile(1, 0), Profile(2, 0)];
    var after := Adjust(Adjust(ps, 2, 10), 1, -10);
    assert after[0] == Profile(1, -10);
    assert ProfileIndex(after, 1) == Some(0);
  }

  /** As written, the deposit handler fetches its receiver with
      `Profile.findOne({ id: userId })`: the id sits outside any `where`, so
      the query has no filter and the database may return any row. These are
      the rows it may hand back: rows of the table only, at least one as soon
      as the table has a row, and a row with another id whenever the table
      holds one. */
  function ReceiverCandidatesAsWritten(ps: seq<Profile>, userId: ProfileId): (r: set<Profile>)
    ensures forall p :: p in r ==> p in ps
    ensures |ps| > 0 ==> r != {}
    ensures (exists k :: 0 <= k < |ps| && ps[k].id != userId) ==> exists p :: p in r && p.id != userId
  {
    var r := set p | p in ps;
    assert forall k :: 0 <= k < |ps| ==> ps[k] in r;
    assert |ps| > 0 ==> ps[0] in r;
    r
  }

  /** The unfiltered lookup ignores the id it is given. */
  lemma ReceiverAsWrittenIgnoresId(ps: seq<Profile>, userId: ProfileId, other: ProfileId)
    ensures ReceiverCandidatesAsWritten(ps, userId) == ReceiverCandidatesAsWritten(ps, other)
  {
  }

  /** The caller's own row is always in the table, so the unfiltered lookup
      always yields a receiver: as written, the deposit never fails for want
      of one. */
  lemma ReceiverAsWrittenNeverMissing(ps: seq<Profile>, caller: ProfileId, userId: ProfileId)
    requires HasProfile(ps, caller)
    ensures ReceiverCandidatesAsWritten(ps, userId) != {}
  {
  }

  /** A deposit addressed to an id no profile has still finds a receiver as
      written, and every row it may find belongs to someone else. */
  lemma ReceiverAsWrittenCreditsAnother(ps: seq<Profile>, caller: ProfileId, userId: ProfileId)
    requires HasProfile(ps, caller) && !HasProfile(ps, userId)
    ensures ReceiverCandidatesAsWritten(ps, userId) != {}
    ensures forall p :: p in ReceiverCandidatesAsWritten(ps, userId) ==> p.id != userId
  {
  }

  /** With two profiles, the unfiltered lookup may credit profile 1 when the
      deposit was addressed to profile 2; the exact-id lookup cannot. */
  lemma ReceiverAsWrittenMisdirects()
    ensures var ps := [Profile(1, 0), Profile(2, 0)];
            && Profile(1, 0) in ReceiverCandidatesAsWritten(ps, 2)
            && ProfileIndex(ps, 2) == Some(1)
  {
    var ps := [Profile(1, 0), Profile(2, 0)];
    assert ProfileIndex(ps[..1], 2) == None;
  }
}
