/**
 * The calculator component's own state: the shoe table, the payout settings,
 * the bankroll and the rolling (rebate) rate, with the handlers that replace them.
 */
module App {
  import opened Wrappers
  import opened Shoe
  import opened PayoutTable

  /** The bankroll the calculator starts with. */
  const InitialBankroll: real := 1000000.0

  /** The rolling (rebate) percentage the calculator starts with. */
  const InitialRolling: real := 1.4

  class Calculator {
    /** The ranks shown in the shoe table (`TOTAL_RANKS`). */
    const ranks: seq<int>
    /** The count every rank starts and is reset with (`INITIAL_DECK_COUNT`). */
    const initialCount: int

    var counts: Counts
    var payouts: Payouts
    var bankroll: real
    var rolling: real

    /** The table lists exactly the ranks, no count is negative, the settings are well shaped. */
    ghost predicate Valid()
      reads this
    {
      && initialCount >= 0
      && counts.Keys == RankSet(ranks)
      && NonNegative(counts)
      && WellShaped(payouts)
    }

    /** The initial state: a full shoe, the default payouts, the starting bankroll and rolling rate. */
    constructor (totalRanks: seq<int>, initialDeckCount: int, defaults: Payouts)
      requires initialDeckCount >= 0 && Typed(defaults)
      ensures Valid()
      ensures ranks == totalRanks && initialCount == initialDeckCount
      ensures IsFull(counts, ranks, initialCount)
      ensures payouts == defaults && bankroll == InitialBankroll && rolling == InitialRolling
    {
      var shoe := NewShoe(totalRanks, initialDeckCount);
      ranks := totalRanks;
      initialCount := initialDeckCount;
      counts := shoe;
      payouts := defaults;
      bankroll := InitialBankroll;
      rolling := InitialRolling;
    }

    /** A "+" or "-" press on a rank: that count moves by `delta`, never below zero. */
    method UpdateCount(rank: int, delta: int)
      requires Valid() && rank in ranks
      modifies this`counts
      ensures Valid()
      ensures counts == Bumped(old(counts), rank, delta)
    {
      counts := Bumped(counts, rank, delta);
    }

    /** One edit from the settings form: `value` goes into the slot the key routes to. */
    method ChangePayout(key: string, value: real, bonusKey: Option<int>)
      requires Valid()
      modifies this`payouts
      ensures Valid()
      ensures payouts == Write(old(payouts), Route(key, bonusKey), value)
    {
      RouteKeepsWellShaped(payouts, key, bonusKey, value);
      payouts := Write(payouts, Route(key, bonusKey), value);
    }

    /** The "reset shoe" button: every rank back to the initial count. */
    method ResetShoe()
      requires Valid()
      modifies this`counts
      ensures Valid()
      ensures IsFull(counts, ranks, initialCount)
    {
      counts := NewShoe(ranks, initialCount);
    }

    /** The bankroll input, once its text is read as a number. */
    method SetBankroll(amount: real)
      modifies this`bankroll
      ensures bankroll == amount
    {
      bankroll := amount;
    }

    /** The rolling input, once its text is read as a number. */
    method SetRolling(rate: real)
      modifies this`rolling
      ensures rolling == rate
    {
      rolling := rate;
    }
  }
}
