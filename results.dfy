/**
 * The shapes of the engine's output that the calculator consumes, as the
 * component uses them: one EV entry per bet, and the whole calculation result.
 */
module Results {

  /** Name (the `label` field), probability, payout multiplier and expected value of one bet. */
  datatype EvResult = EvResult(name: string, probability: real, payout: real, ev: real)

  /** The remaining card count and one EV entry per bet; one entry per tie point. */
  datatype CalculationResult = CalculationResult(
    totalCards: int,
    player: EvResult,
    banker: EvResult,
    tie: EvResult,
    playerPair: EvResult,
    bankerPair: EvResult,
    tieBonuses: seq<EvResult>,
    tiger: EvResult,
    smallTiger: EvResult,
    bigTiger: EvResult,
    tigerTie: EvResult,
    tigerPair: EvResult)
}
