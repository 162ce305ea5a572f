/** The positions an oracle reports for a token, read off its full balances. */
module Positions {
  import opened Wrappers
  import opened MapSums
  import opened Ledger
  import opened Dispatch
  import opened ForgeBonds
  import opened TokenRuns
  import opened TokenProperties

  /** `percentage` is absent where the original divides by a zero supply. */
  datatype InstrumentPosition = InstrumentPosition(
    legalEntityAddress: Address,
    balance: int,
    valueInFiat: real,
    percentage: Option<real>,
    unlocked: int,
    locked: int)

  function PositionOf(account: Address, b: Balance, denomination: real, currentSupply: int): InstrumentPosition {
    InstrumentPosition(
      account,
      b.balance,
      b.balance as real * denomination,
      if currentSupply == 0 then None else Some(b.balance as real / currentSupply as real),
      b.balance - b.locked,
      b.locked)
  }

  /** One position per account, in the order the balances are listed. */
  function GetInstrumentPositions(balances: Balances, listed: seq<Address>, denomination: real, currentSupply: int)
    : (positions: seq<InstrumentPosition>)
    requires forall a :: a in listed ==> a in balances
  {
    seq(|listed|, i requires 0 <= i < |listed| =>
      PositionOf(listed[i], balances[listed[i]], denomination, currentSupply))
  }

  /** Each position shows its account's own ledger entry. */
  lemma PositionsShowTheLedger(balances: Balances, listed: seq<Address>, denomination: real, supply: int, i: nat)
    requires (forall a :: a in listed ==> a in balances) && i < |listed|
    ensures var (p, b) := (GetInstrumentPositions(balances, listed, denomination, supply)[i], balances[listed[i]]);
      && p.legalEntityAddress == listed[i]
      && p.balance == b.balance && p.locked == b.locked && p.unlocked + b.locked == b.balance
      && p.valueInFiat == b.balance as real * denomination
      && (p.percentage.Some? <==> supply != 0)
      && (supply != 0 ==> p.percentage.value * supply as real == b.balance as real)
  {
    assert listed[i] in listed;
  }

  /** The accounts of a ledger, each listed once. */
  ghost predicate Lists(listed: seq<Address>, balances: Balances) {
    && (forall i, j :: 0 <= i < j < |listed| ==> listed[i] != listed[j])
    && (set a | a in listed) == balances.Keys
  }

  function TotalBalance(positions: seq<InstrumentPosition>): int {
    if positions == [] then 0 else TotalBalance(positions[..|positions| - 1]) + positions[|positions| - 1].balance
  }

  function TotalPercentage(positions: seq<InstrumentPosition>): real {
    if positions == [] then 0.0
    else TotalPercentage(positions[..|positions| - 1])
         + match positions[|positions| - 1].percentage case Some(p) => p case None => 0.0
  }

  lemma ListsRest(balances: Balances, listed: seq<Address>)
    requires Lists(listed, balances) && listed != []
    ensures listed[|listed| - 1] in balances
    ensures Lists(listed[..|listed| - 1], balances - {listed[|listed| - 1]})
  {
    var init, last := listed[..|listed| - 1], listed[|listed| - 1];
    var rest := balances - {last};
    assert listed == init + [last] && last in listed;
    forall a | a in rest ensures a in init { assert a in listed; }
    forall i | 0 <= i < |init| ensures init[i] in rest { assert listed[i] in listed && listed[i] != last; }
  }

  lemma PositionsOfRest(balances: Balances, listed: seq<Address>, denomination: real, supply: int)
    requires Lists(listed, balances) && listed != []
    requires Lists(listed[..|listed| - 1], balances - {listed[|listed| - 1]})
    ensures var positions := GetInstrumentPositions(balances, listed, denomination, supply);
      var last := listed[|listed| - 1];
      && last in balances
      && |positions| == |listed| && positions[|positions| - 1].balance == balances[last].balance
      && positions[..|positions| - 1]
         == GetInstrumentPositions(balances - {last}, listed[..|listed| - 1], denomination, supply)
  {
    var last := listed[|listed| - 1];
    assert last in listed;
    var positions := GetInstrumentPositions(balances, listed, denomination, supply);
    var init := listed[..|listed| - 1];
    forall i | 0 <= i < |init| ensures init[i] in balances - {last} { assert init[i] in init; }
    assert positions[..|positions| - 1] == GetInstrumentPositions(balances - {last}, init, denomination, supply);
  }

  /** Listing a ledger and adding up gives the sum over the ledger, in any listing order. */
  lemma {:induction false} ListedTotal(balances: Balances, listed: seq<Address>, denomination: real, supply: int)
    requires Lists(listed, balances)
    ensures TotalBalance(GetInstrumentPositions(balances, listed, denomination, supply)) == Sum(balances, Amount)
  {
    if listed == [] {
      assert balances.Keys == {};
    } else {
      var init, last := listed[..|listed| - 1], listed[|listed| - 1];
      var rest := balances - {last};
      ListsRest(balances, listed);
      ListedTotal(rest, init, denomination, supply);
      SumRemove(balances, Amount, last);
      PositionsOfRest(balances, listed, denomination, supply);
    }
  }

  lemma {:induction false} PercentagesAreShares(balances: Balances, listed: seq<Address>, denomination: real, supply: int)
    requires supply != 0 && forall a :: a in listed ==> a in balances
    ensures var positions := GetInstrumentPositions(balances, listed, denomination, supply);
      TotalPercentage(positions) * supply as real == TotalBalance(positions) as real
  {
    if listed != [] {
      var init := listed[..|listed| - 1];
      PercentagesAreShares(balances, init, denomination, supply);
      var positions := GetInstrumentPositions(balances, listed, denomination, supply);
      assert positions[..|positions| - 1] == GetInstrumentPositions(balances, init, denomination, supply);
    }
  }

  function TotalValue(positions: seq<InstrumentPosition>): real {
    if positions == [] then 0.0 else TotalValue(positions[..|positions| - 1]) + positions[|positions| - 1].valueInFiat
  }

  /** The reported values add up to the denomination of what is reported. */
  lemma {:induction false} ValuesFollowBalances(balances: Balances, listed: seq<Address>, denomination: real, supply: int)
    requires forall a :: a in listed ==> a in balances
    ensures var positions := GetInstrumentPositions(balances, listed, denomination, supply);
      TotalValue(positions) == TotalBalance(positions) as real * denomination
  {
    if listed != [] {
      var init, last := listed[..|listed| - 1], listed[|listed| - 1];
      assert last in listed;
      ValuesFollowBalances(balances, init, denomination, supply);
      var positions := GetInstrumentPositions(balances, listed, denomination, supply);
      var front := GetInstrumentPositions(balances, init, denomination, supply);
      assert positions[..|positions| - 1] == front;
      ValueOfSum(TotalBalance(front) as real, balances[last].balance as real, denomination);
    }
  }

  lemma ValueOfSum(a: real, b: real, c: real)
    ensures (a + b) * c == a * c + b * c
  {
  }

  lemma ProductSign(a: real, b: real)
    requires b > 0.0
    ensures a > 0.0 ==> a * b > 0.0
    ensures a < 0.0 ==> a * b < 0.0
  {
  }

  lemma WholeShare(share: real, total: int, supply: nat)
    requires supply != 0 && total == supply && share * supply as real == total as real
    ensures share == 1.0
  {
    var s := supply as real;
    assert s > 0.0;
    assert (share - 1.0) * s == share * s - s;
    ProductSign(share - 1.0, s);
  }

  lemma UnlockedIsNonNegative(balances: Balances, listed: seq<Address>, denomination: real, supply: int)
    requires forall a :: a in listed ==> a in balances
    requires forall a :: a in balances ==> balances[a].locked <= balances[a].balance
    ensures forall p :: p in GetInstrumentPositions(balances, listed, denomination, supply) ==>
      && p.unlocked >= 0 && p.locked >= 0 && p.unlocked + p.locked == p.balance
      && (supply != 0 ==> p.percentage.Some?)
  {
  }

  lemma PercentagesAddUpToOne(balances: Balances, listed: seq<Address>, denomination: real, supply: nat)
    requires supply != 0 && forall a :: a in listed ==> a in balances
    requires TotalBalance(GetInstrumentPositions(balances, listed, denomination, supply)) == supply
    ensures TotalPercentage(GetInstrumentPositions(balances, listed, denomination, supply)) == 1.0
  {
    var positions := GetInstrumentPositions(balances, listed, denomination, supply);
    PercentagesAreShares(balances, listed, denomination, supply);
    WholeShare(TotalPercentage(positions), TotalBalance(positions), supply);
  }

  /** A ledger whose balances add up to the supply is reported in full. */
  lemma PositionsCoverTheSupply(balances: Balances, listed: seq<Address>, denomination: real, supply: nat)
    requires Lists(listed, balances) && Sum(balances, Amount) == supply
    ensures var positions := GetInstrumentPositions(balances, listed, denomination, supply);
      && TotalBalance(positions) == supply
      && (supply != 0 ==> TotalPercentage(positions) == 1.0)
  {
    ListedTotal(balances, listed, denomination, supply);
    if supply != 0 {
      PercentagesAddUpToOne(balances, listed, denomination, supply);
    }
  }

  /**
   In every run, and in whatever order the accounts are listed: nothing is over-locked, the
   reported balances add up to the original supply, and the percentages add up to exactly 1.
   */
  lemma ReportedPositionsCoverTheSupply(codec: Codec, t: Token, calls: seq<Call>, listed: seq<Address>, denomination: real)
    requires Originated(t) && Lists(listed, Run(codec, t, calls).storage.balances)
    ensures var s := Run(codec, t, calls).storage;
      var positions := GetInstrumentPositions(s.balances, listed, denomination, s.currentSupply);
      && TotalBalance(positions) == t.storage.initialSupply
      && (t.storage.initialSupply != 0 ==> TotalPercentage(positions) == 1.0)
      && forall p :: p in positions ==>
           && p.unlocked >= 0 && p.locked >= 0 && p.unlocked + p.locked == p.balance
           && (t.storage.initialSupply != 0 ==> p.percentage.Some?)
  {
    SupplyIsConserved(codec, t, calls);
    var s := Run(codec, t, calls).storage;
    UnlockedIsNonNegative(s.balances, listed, denomination, s.currentSupply);
    PositionsCoverTheSupply(s.balances, listed, denomination, s.currentSupply);
  }
}
