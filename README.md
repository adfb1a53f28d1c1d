# Baccarat EV calculator: component state and recommendations

This project models the stateful logic of the calculator's single React
component, `App.tsx`, and proves properties of it in Dafny:

- the **shoe inventory table** (`DeckCounts`): built with `INITIAL_DECK_COUNT`
  cards for every rank of `TOTAL_RANKS`, both at start-up and on "reset shoe";
  the "+"/"-" buttons move one rank's count by a delta, clamped at zero;
- the **payout settings edit** (`handlePayoutChange`): a keyed edit is routed
  to exactly one slot of the nested settings object — a tie-bonus entry, then a
  `tiger.*` sub-field, then a `tigerPair.*` sub-field, otherwise a top-level
  property;
- the **Kelly stake** (`calculateKellyBet`): zero unless the bet has a positive
  EV and a positive payout, otherwise `floor(bankroll * ev / payout)`;
- the **recommendation list** (`getAllPositiveEVBets`): all bet results of the
  last calculation, kept if their EV is positive, sorted by EV from best down.

Modules, one per concern:

| file | module | what |
|---|---|---|
| wrappers.dfy | `Wrappers` | `Option`, for `undefined` and `null` |
| shoe.dfy | `Shoe` | the counts table, its construction, the clamped update, the card total |
| payouts.dfy | `PayoutTable` | the settings object, key routing, slot reads and writes |
| results.dfy | `Results` | the `EVResult` and `CalculationResult` shapes, as the component uses them |
| kelly.dfy | `Kelly` | the stake for one bet |
| recommendations.dfy | `Recommendations` | filter and stable sort of the bet results |
| app.dfy | `App` | class `Calculator`: the component's state and its handlers |

The component's mutable state (`counts`, `payouts`, `bankroll`, `rolling`) is
the class `App.Calculator`; each handler that replaces a piece of state through
a React setter is a method with a `modifies` clause naming that field, proved
against a pure function of the old state (`Shoe.Bumped`, `PayoutTable.Write`
after `PayoutTable.Route`, `Shoe.IsFull`). The class invariant keeps every rank
listed, no count negative, and the settings well shaped. The Kelly stake and the
recommendation list only compute, so they are functions with lemmas.

The imported constants and types are not part of this model: `TOTAL_RANKS`,
`INITIAL_DECK_COUNT` (assumed non-negative) and `DEFAULT_PAYOUTS` (assumed to
have the declared `Payouts` shape) are constructor parameters; the shapes of
`EVResult` and `CalculationResult` are inferred from how the component reads
them. EVs, payouts and the bankroll are mathematical reals.

The settings object is modelled with its dynamic JavaScript shape — a
dictionary from property name to a number, a sub-record, or the tie-bonus
table — because the handler's last branch writes `[key]: num` for whatever key
it receives. In particular an edit of key `tieBonus` without a tie point, or
of key `tiger` or `tigerPair`, replaces a whole nested table by a number;
`PayoutTable.TypedKeptUnlessTableReplaced` proves these are the only edits
that lose the declared shape. The form itself never sends such a key
(`PayoutTable.RouteKeyOf` covers the keys it does send).

## Model

| member | source | states |
|---|---|---|
| Shoe.NewShoe | App.tsx:8-14 | building the table rank by rank gives every listed rank, and no other key, exactly the initial count |
| App.Calculator.constructor | App.tsx:8-18 | the initial state: a full shoe, the default payouts, bankroll 1000000, rolling 1.4; the class invariant holds |
| App.Calculator.ResetShoe | App.tsx:60-66 | after a reset every rank of `TOTAL_RANKS` has exactly `INITIAL_DECK_COUNT` cards; the invariant is kept |
| Shoe.FullShoeUnique | App.tsx:60-66 | a reset shoe is the very table the calculator started with |
| Shoe.FullShoeTotal | App.tsx:8-14 | a full shoe sums to `INITIAL_DECK_COUNT` per entry of `TOTAL_RANKS`; when no rank is listed twice, that is `INITIAL_DECK_COUNT` cards for each rank in the table |
| Shoe.DistinctRankCount | App.tsx:10-12 | a rank list without repeats gives the table as many keys as the list has entries |
| Shoe.Clamp | App.tsx:38 | `Math.max(0, c)` is at least `c`, is `c` or zero, and never negative |
| Shoe.Bumped | App.tsx:35-40 | the updated rank holds `old + delta` or, when that is negative, zero; every other rank keeps its count; no count becomes negative |
| App.Calculator.UpdateCount | App.tsx:35-40 | the counts become the clamped update of the old counts; the invariant (all ranks listed, none negative) is kept |
| Shoe.AddThenRemove | App.tsx:134-141 | "+" then "-" on a rank restores the table |
| Shoe.RemoveThenAdd | App.tsx:134-141 | "-" then "+" restores the table exactly when the rank had a card; on an empty rank it ends with one card |
| Shoe.CardsLeftNonNegative | App.tsx:38 | a table without negative counts never holds a negative number of cards |
| Shoe.BumpCardsLeft | App.tsx:35-40 | one press changes the number of cards left by exactly the change of that rank's count |
| PayoutTable.Segment | App.tsx:49 | the sub-field name is the text before the next '.', holds no '.', and is followed by a '.' or the end of the key |
| PayoutTable.Route | App.tsx:45-56 | the slot an edit goes to: a tie-bonus entry exactly when the key is `tieBonus` and a tie point is given, at that point; a top-level property named by the whole key otherwise (the full precedence is in `PayoutTable.RoutePrecedence`, the sub-field name in `PayoutTable.RouteSubFieldName`) |
| PayoutTable.RoutePrecedence | App.tsx:45-56 | tie-bonus edits need key `tieBonus` and a tie point; a key starting `tiger.` goes to `tiger`, one starting `tigerPair.` to `tigerPair` (never captured by `tiger.`), any other key to the top-level property of that name |
| PayoutTable.RouteSubFieldName | App.tsx:49-53 | a sub-field edit writes the text between the key's first and second '.', as `key.split('.')[1]` gives it |
| PayoutTable.Write | App.tsx:44-57 | after the edit the slot reads the new value, and every top-level property other than the slot's holder is unchanged |
| PayoutTable.WriteFrame | App.tsx:46-56 | an edit leaves every independent slot (another property, or another entry of the same table) reading what it did |
| PayoutTable.RouteKeepsWellShaped | App.tsx:42-58 | any routed edit keeps nested tables only under `tieBonus`, `tiger`, `tigerPair` |
| PayoutTable.TypedKeptUnlessTableReplaced | App.tsx:56 | an edit keeps the declared settings shape if and only if it is not a top-level write to `tieBonus`, `tiger` or `tigerPair` |
| PayoutTable.RouteKeyOf | App.tsx:254-319 | every key the settings form sends (`tieBonus` with a point, `tiger.x`, `tigerPair.x`, a plain name) routes back to the slot it names |
| App.Calculator.ChangePayout | App.tsx:42-58 | the settings become the old settings with the routed slot set to the value; the invariant is kept |
| App.Calculator.SetBankroll | App.tsx:203 | the bankroll becomes the entered amount |
| App.Calculator.SetRolling | App.tsx:224 | the rolling rate becomes the entered rate |
| Kelly.Stake | App.tsx:68-72 | zero whenever EV or payout is not positive; otherwise the largest integer not above bankroll times EV over payout |
| Kelly.StakeNonNegative | App.tsx:70-71 | a non-negative bankroll never gets a negative stake |
| Kelly.PositiveStakeNeedsEdge | App.tsx:69-71 | a positive stake implies positive EV, positive payout and positive bankroll |
| Kelly.StakeMonotone | App.tsx:71 | a larger bankroll never gets a smaller stake |
| Kelly.StakeWithinBankroll | App.tsx:70-71 | when EV does not exceed the payout, the stake is at most the bankroll |
| Recommendations.Collected | App.tsx:76-81 | the list of all bets holds the five main and pair bets, then every tie bonus in order, then the five tiger bets |
| Recommendations.Positives | App.tsx:82 | the filter keeps each positive-EV entry as often as it occurs and nothing else |
| Recommendations.Insert | App.tsx:82 | inserting into a list sorted by decreasing EV keeps it sorted and adds exactly that entry |
| Recommendations.PrependLargest | App.tsx:82 | an entry at least as large as a sorted list's head can go in front |
| Recommendations.SortByEv | App.tsx:82 | the sort returns a permutation of its input with EVs non-increasing |
| Recommendations.WithEvAppend | App.tsx:82 | selecting the entries of one EV distributes over concatenation |
| Recommendations.WithEvSingle | App.tsx:82 | a single entry is selected exactly when it has that EV |
| Recommendations.InsertStable | App.tsx:82 | an inserted entry goes before the entries of equal EV |
| Recommendations.SortStable | App.tsx:82 | the sort is stable: the entries of each EV keep their relative order |
| Recommendations.PositivesWithEv | App.tsx:82 | the filter keeps, in order, all entries of a positive EV and none of any other |
| Recommendations.PositiveEvBets | App.tsx:74-83 | no result gives the empty list; otherwise the list is sorted by EV from best down and is a permutation of exactly the collected results (ten named bets and every tie bonus) with positive EV |
| Recommendations.PositiveEvBetsOrder | App.tsx:76-82 | bets of equal positive EV appear in the order the result lists them; no bet of non-positive EV appears |
| Recommendations.NoAdvantageMeansEmpty | App.tsx:338-345 | the list is empty, and "Mathematical Advantage Wait" shown, exactly when no collected bet has a positive EV |
| Recommendations.UnlistedBetsGetNoStake | App.tsx:347-348 | a collected bet left off the list always gets a zero stake |

## Left out

- `calculateEV`, the exact combinatorial EV engine (imported at App.tsx:5 and
  called at App.tsx:27): its file `logic/baccaratLogic` is not part of this
  model. Its result enters the model only as the `CalculationResult` passed to
  the recommendation list.
- The `useEffect` / `setTimeout` / `async` recalculation and the
  `isCalculating` flag (App.tsx:19-33): asynchronous scheduling. Hence the
  `results` state is a parameter of the recommendation list, not a field of
  the class.
- All JSX rendering, styling, `toFixed` / `toLocaleString` formatting and
  label lookups (App.tsx:85-384): user interface.
- `parseFloat(...) || 0` (App.tsx:43, App.tsx:203, App.tsx:224): JavaScript
  number parsing; the handlers take the parsed number as a parameter.
- IEEE double arithmetic: EVs, payouts and the bankroll are reals, so rounding
  error, overflow of `b.ev - a.ev` and `NaN` EVs (which the filter `ev > 0`
  would drop) are not modelled; counts and deltas are unbounded integers.
- The number of cards left (`Shoe.CardsLeft`) is a quantity the model defines
  to state what a press or a reset does to the shoe; the component never sums
  the table itself, and the total it displays (App.tsx:95) comes from the EV
  engine.
- The contents of `./constants` and `./types`: `TOTAL_RANKS`,
  `INITIAL_DECK_COUNT` and `DEFAULT_PAYOUTS` are parameters.
- App.Calculator.UpdateCount: requires the rank to be one of `TOTAL_RANKS`;
  for any other rank the source computes `undefined + delta`, stores `NaN` and
  adds a key, which the model does not represent. Every caller
  (App.tsx:125-141) passes a rank of `TOTAL_RANKS`.
- PayoutTable.Write: spreading the tie-bonus table into a sub-record (or the
  reverse) is modelled as spreading nothing; in JavaScript its entries would be
  copied. No reachable settings object puts one kind of table where the other
  belongs (`PayoutTable.RouteKeepsWellShaped`).
- Tie-bonus keys are integers; JavaScript turns object keys into strings, so
  `tieBonus[3]` and `tieBonus["3"]` are one entry there and the model has only
  the integer form.
