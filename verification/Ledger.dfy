/** Balances of one ERC20 token, kept from the token's transfer events alone. */
module Ledger {
  import opened Types

  const ZERO_ADDRESS: Address := 0
  const U256_RANGE: nat := 0x1_0000000000000000_0000000000000000_0000000000000000_0000000000000000

  /** Rows of the balances table for one token. */
  type Holdings = map<Address, nat>

  datatype Transfer = Transfer(from: Address, to: Address, value: nat)

  function BalanceOf(h: Holdings, owner: Address): nat {
    if owner in h then h[owner] else 0
  }

  function SaturatingSub(a: nat, b: nat): nat {
    if b <= a then a - b else 0
  }

  function Debit(h: Holdings, t: Transfer): Holdings
    requires t.from != ZERO_ADDRESS ==> t.from in h
  {
    if t.from == ZERO_ADDRESS then h else h[t.from := SaturatingSub(h[t.from], t.value)]
  }

  function Credit(h: Holdings, t: Transfer): Holdings {
    if t.to == ZERO_ADDRESS then h else h[t.to := (BalanceOf(h, t.to) + t.value) % U256_RANGE]
  }

  /** `process_erc20_transfer`: a sender without a row is an error, a recipient without one starts
      at zero; subtraction saturates and addition wraps at 256 bits. */
  function Process(h: Holdings, t: Transfer): Option<Holdings> {
    if t.from != ZERO_ADDRESS && t.from !in h then None else Some(Credit(Debit(h, t), t))
  }

  // ----- sums over tables ------------------------------------------------------------------

  ghost function Supply(h: Holdings): nat {
    if h == map[] then 0
    else
      var owner :| owner in h;
      h[owner] + Supply(h - {owner})
  }

  lemma {:induction false} SupplySplits(h: Holdings, owner: Address)
    requires owner in h
    ensures Supply(h) == h[owner] + Supply(h - {owner})
    decreases |h|
  {
    var first :| first in h && Supply(h) == h[first] + Supply(h - {first});
    if first != owner {
      SupplySplits(h - {first}, owner);
      SupplySplits(h - {owner}, first);
      assert h - {first} - {owner} == h - {owner} - {first};
    }
  }

  lemma SupplyAfterUpdate(h: Holdings, owner: Address, balance: nat)
    ensures Supply(h[owner := balance]) == Supply(h) - BalanceOf(h, owner) + balance
  {
    SupplySplits(h[owner := balance], owner);
    if owner in h {
      SupplySplits(h, owner);
      assert h[owner := balance] - {owner} == h - {owner};
    } else {
      assert h[owner := balance] - {owner} == h;
    }
  }

  // ----- conservation ----------------------------------------------------------------------

  function Minted(t: Transfer): nat {
    if t.from == ZERO_ADDRESS && t.to != ZERO_ADDRESS then t.value else 0
  }

  function Burned(t: Transfer): nat {
    if t.from != ZERO_ADDRESS && t.to == ZERO_ADDRESS then t.value else 0
  }

  predicate Covered(h: Holdings, t: Transfer) {
    t.from != ZERO_ADDRESS ==> t.from in h && t.value <= h[t.from]
  }

  /** The recipient's new balance, after a covering sender was debited, needs no wrap-around. */
  predicate Fits(h: Holdings, t: Transfer) {
    t.to != ZERO_ADDRESS ==>
      (if t.to == t.from then SaturatingSub(BalanceOf(h, t.to), t.value) else BalanceOf(h, t.to)) + t.value
      < U256_RANGE
  }

  ghost predicate Bounded(h: Holdings) {
    forall owner :: owner in h ==> h[owner] < U256_RANGE
  }

  lemma WrapsOnce(sum: nat)
    requires sum < 2 * U256_RANGE
    ensures sum % U256_RANGE == if sum < U256_RANGE then sum else sum - U256_RANGE
  {
  }

  lemma SupplyAfterDebit(h: Holdings, t: Transfer)
    requires t.from != ZERO_ADDRESS ==> t.from in h
    ensures Supply(Debit(h, t)) ==
            Supply(h) - if t.from == ZERO_ADDRESS then 0 else if t.value <= h[t.from] then t.value else h[t.from]
  {
    if t.from != ZERO_ADDRESS {
      SupplyAfterUpdate(h, t.from, SaturatingSub(h[t.from], t.value));
    }
  }

  lemma SupplyAfterCredit(h: Holdings, t: Transfer)
    requires t.value < U256_RANGE && BalanceOf(h, t.to) < U256_RANGE
    ensures Supply(Credit(h, t)) ==
            Supply(h) + if t.to == ZERO_ADDRESS then 0
                        else if BalanceOf(h, t.to) + t.value < U256_RANGE then t.value else t.value - U256_RANGE
  {
    if t.to != ZERO_ADDRESS {
      var sum := BalanceOf(h, t.to) + t.value;
      WrapsOnce(sum);
      SupplyAfterUpdate(h, t.to, sum % U256_RANGE);
    }
  }

  /** One recorded transfer changes the recorded supply by exactly what was minted less what was
      burned if and only if the sender's row covers the amount and the recipient does not wrap. */
  lemma SupplyExactIffCovered(h: Holdings, t: Transfer)
    requires Bounded(h) && t.value < U256_RANGE && Process(h, t).Some?
    ensures Supply(Process(h, t).value) == Supply(h) + Minted(t) - Burned(t) <==>
            Covered(h, t) && Fits(h, t)
  {
    SupplyAfterDebit(h, t);
    SupplyAfterCredit(Debit(h, t), t);
  }

  function Replay(h: Holdings, transfers: seq<Transfer>): Option<Holdings> {
    if transfers == [] then Some(h)
    else
      var before := Replay(h, transfers[..|transfers| - 1]);
      if before.None? then None else Process(before.value, transfers[|transfers| - 1])
  }

  lemma ReplayOfSnoc(h: Holdings, transfers: seq<Transfer>, t: Transfer)
    ensures Replay(h, transfers + [t])
            == if Replay(h, transfers).None? then None else Process(Replay(h, transfers).value, t)
  {
    assert (transfers + [t])[..|transfers|] == transfers;
  }

  function Inflow(transfers: seq<Transfer>, owner: Address): nat {
    if transfers == [] then 0
    else
      var t := transfers[|transfers| - 1];
      Inflow(transfers[..|transfers| - 1], owner) + Received(t, owner)
  }

  function Outflow(transfers: seq<Transfer>, owner: Address): nat {
    if transfers == [] then 0
    else
      var t := transfers[|transfers| - 1];
      Outflow(transfers[..|transfers| - 1], owner) + Paid(t, owner)
  }

  ghost predicate AllCovered(h: Holdings, transfers: seq<Transfer>) {
    forall i :: 0 <= i < |transfers| ==>
      var before := Replay(h, transfers[..i]);
      before.Some? && Covered(before.value, transfers[i]) && Fits(before.value, transfers[i])
  }

  function Received(t: Transfer, owner: Address): nat {
    if t.to == owner then t.value else 0
  }

  function Paid(t: Transfer, owner: Address): nat {
    if t.from == owner then t.value else 0
  }

  lemma StepMovesBalances(h: Holdings, t: Transfer, owner: Address)
    requires Bounded(h) && Covered(h, t) && Fits(h, t) && t.value < U256_RANGE
    ensures Process(h, t).Some? && Bounded(Process(h, t).value)
    ensures owner != ZERO_ADDRESS ==>
              BalanceOf(Process(h, t).value, owner) == BalanceOf(h, owner) + Received(t, owner) - Paid(t, owner)
  {
  }

  /** Replaying covered transfers conserves value: every owner ends with the initial balance plus
      everything received less everything sent, self-transfers included, and the supply moves by
      what came out of and went into the zero address. */
  lemma {:induction false} ReplayConserves(h: Holdings, transfers: seq<Transfer>)
    requires Bounded(h) && AllCovered(h, transfers)
    requires forall i :: 0 <= i < |transfers| ==> transfers[i].value < U256_RANGE
    ensures Replay(h, transfers).Some? && Bounded(Replay(h, transfers).value)
    ensures forall owner :: owner != ZERO_ADDRESS ==>
              BalanceOf(Replay(h, transfers).value, owner)
              == BalanceOf(h, owner) + Inflow(transfers, owner) - Outflow(transfers, owner)
    ensures Supply(Replay(h, transfers).value)
            == Supply(h) + Outflow(transfers, ZERO_ADDRESS) - Inflow(transfers, ZERO_ADDRESS)
  {
    if transfers != [] {
      var fewer, t := transfers[..|transfers| - 1], transfers[|transfers| - 1];
      assert forall i :: 0 <= i < |fewer| ==> fewer[..i] == transfers[..i];
      ReplayConserves(h, fewer);
      assert transfers[..|fewer|] == fewer;
      var before := Replay(h, fewer).value;
      StepMovesBalances(before, t, ZERO_ADDRESS);
      forall owner | owner != ZERO_ADDRESS
        ensures BalanceOf(Replay(h, transfers).value, owner)
                == BalanceOf(h, owner) + Inflow(transfers, owner) - Outflow(transfers, owner)
      {
        StepMovesBalances(before, t, owner);
      }
      SupplyExactIffCovered(before, t);
    }
  }
}
