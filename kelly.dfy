/** The stake recommended for one bet, sized by the Kelly criterion. */
module Kelly {
  import opened Results

  /**
   * The whole-unit stake for `item` from a bankroll: nothing unless the bet has a
   * positive EV and a positive payout, otherwise the bankroll times EV over payout,
   * rounded down.
   */
  function Stake(item: EvResult, bankroll: real): (r: int)
    ensures item.ev <= 0.0 || item.payout <= 0.0 ==> r == 0
    ensures item.ev > 0.0 && item.payout > 0.0 ==>
      r as real <= bankroll * (item.ev / item.payout) < r as real + 1.0
  {
    if item.ev <= 0.0 || item.payout <= 0.0 then 0
    else (bankroll * (item.ev / item.payout)).Floor
  }

  /** With a non-negative bankroll the stake is never negative. */
  lemma StakeNonNegative(item: EvResult, bankroll: real)
    requires bankroll >= 0.0
    ensures Stake(item, bankroll) >= 0
  {
    if item.ev > 0.0 && item.payout > 0.0 {
      assert item.ev / item.payout > 0.0;
      assert bankroll * (item.ev / item.payout) >= 0.0;
    }
  }

  /** A positive stake needs a positive EV, a positive payout and a positive bankroll. */
  lemma PositiveStakeNeedsEdge(item: EvResult, bankroll: real)
    requires Stake(item, bankroll) > 0
    ensures item.ev > 0.0 && item.payout > 0.0 && bankroll > 0.0
  {
    var f := item.ev / item.payout;
    assert f > 0.0 && bankroll * f >= 1.0;
  }

  /** A larger bankroll never gets a smaller stake. */
  lemma StakeMonotone(item: EvResult, small: real, large: real)
    requires small <= large
    ensures Stake(item, small) <= Stake(item, large)
  {
    if item.ev > 0.0 && item.payout > 0.0 {
      var f := item.ev / item.payout;
      assert f > 0.0;
      assert small * f <= large * f;
    }
  }

  /** When the EV does not exceed the payout, the stake never exceeds the bankroll. */
  lemma StakeWithinBankroll(item: EvResult, bankroll: real)
    requires bankroll >= 0.0 && item.ev <= item.payout
    ensures Stake(item, bankroll) as real <= bankroll
  {
    if item.ev > 0.0 && item.payout > 0.0 {
      var f := item.ev / item.payout;
      assert f <= 1.0;
      assert bankroll * f <= bankroll;
    }
  }
}
