# Draw odds calculator for the Pokémon TCG Pocket — a verified model

The calculator says whether a trainer card (Iono, Mars or Red Card) is worth playing.
The player tracks up to three cards they still need. For each one they give how many
copies are left in the deck and how many are already in hand. The calculator then
works out the chance of drawing each card after the trainer card reshuffles a hand.

This project models its probability engine and the rule logic around it in Dafny:

- `Combinatorics`: `factorial` (an accumulator loop) and `combination`.
  - `combination` is proved equal to Pascal's triangle, which serves as the
    independent reference definition.
- `Hypergeometric`: `hypergeometricProbability`, with its four guards and its summing loop.
  - The sum is proved to be a probability via Vandermonde's identity.
  - Also proved: "at least none" is certain, "at least one" is one minus the chance
    of drawing no copy, and a single copy is drawn with chance n/p.
- `Tracking`: the per-card loops shared by both revisions of the Iono and Mars
  calculators.
  - Each loop method is proved against recursive specification functions: the
    combined product, the "all found" / "any in hand" flags, and the rows of details.
  - Lemmas about the products: each lies in [0, 1], and each is at most any one of its
    factors.
- `Calculations`: `calculateIonoOdds`, `calculateMarsOdds`, `calculateRedCardResult` and the
  dispatch `calculateOdds` of the calculation utilities.
- `Cards`: the card catalogue, with `getAvailableCards`, `getCard` and the `affects` getter.
- `App`: the logic inside the page component.
  - The input validators, and the updater that resizes the per-card arrays.
  - The component's own, older `calculateOdds`: Iono draws up to a hand of 7, Mars
    always draws 4.
  - The component's state as the class `Calculator`.

The component's copies of `hypergeometricProbability`, `combination` and `factorial`
(src/App.js:358-396) are the same code as the utilities' copies. They are modelled by
the same members. The component's Iono and Mars loops (src/App.js:221-309) are the
`Tracking` loops run over the first `uniqueCardsNeeded` cards.

Probabilities are exact rationals (`real`), not IEEE doubles. A missing array entry
(JavaScript `undefined`) is `None`. `undefined > 0` is false, so such a card counts as
not held. A hypergeometric call with an undefined copy count returns 0, because
`Math.min` yields NaN and the summing loop never runs.

Some properties the proofs bring out:

- Iono's rule "combined odds above 0.5, or all cards found" equals `allCardsFound` alone. A
  card below one half keeps the product below one half (`SkipHeldDecision`).
- A Mars verdict of "worth playing" means every tracked card's own chance clears the
  threshold (`MarsWorthIt`).
- The older Mars is the newer one with an opponent needing 4 points
  (`MarsRevisionsAgree`).
- The component starts at 20 cards in deck and 5 in hand, which fails its own
  "deck + hand ≤ 20" check. The first calculation is refused until the deck or hand
  count changes, since only those two handlers re-run the total check (`StartupIsRefused`).
- `hypergeometricProbability(20, 2, 7, 1)` is exactly 1 − C(18,7)/C(20,7) = 56/95 ≈ 0.5895
  (`TwoCopiesInTwenty`).

## Model

| member | source | states |
|---|---|---|
| Combinatorics.Fact | src/utils/calculations.js:15-22 | n! in exact integers: 1 for every n ≤ 1, n·(n−1)! above; always at least 1 (the loop's doubles agree up to 22!, see Left out) |
| Combinatorics.Factorial | src/utils/calculations.js:15-22 | the accumulator loop (early return for 0 and 1, then multiply 2..n) returns exactly Fact(n), which is at least 1 |
| Combinatorics.FactorialExamples | src/utils/calculations.js:15-22 | 0! = 1! = 1 and 5! = 120 |
| Combinatorics.BinomPositive | src/utils/calculations.js:6-12 | C(n, k) is a positive whole number for 0 ≤ k ≤ n |
| Combinatorics.BinomSymmetric | src/utils/calculations.js:6-12 | C(n, k) = C(n, n − k) |
| Combinatorics.FactorialSplit | src/utils/calculations.js:11 | k!·(n−k)!·C(n, k) = n!: the factorial quotient is exactly Pascal's C(n, k) |
| Combinatorics.Combination | src/utils/calculations.js:6-12 | 0 when k < 0 or k > n; otherwise n!/(k!(n−k)!), which is at least 1 and equals Pascal's C(n, k) |
| Combinatorics.BinomAbsorption | src/utils/calculations.js:6-12 | k·C(n, k) = n·C(n−1, k−1) |
| Hypergeometric.HypergeometricProbability | src/utils/calculations.js:34-54 | returns 0 when any of the four guards holds; otherwise the summing loop returns Σ C(s,i)·C(p−s,n−i)/C(p,n) over i from minSuccesses to min(s, n); the result always lies in [0, 1] |
| Hypergeometric.Vandermonde | src/utils/calculations.js:46-51 | summing over every possible count of targets gives all C(s+q, n) hands |
| Hypergeometric.HyperTailBounds | src/utils/calculations.js:32-51 | the returned probability lies in [0, 1], as the doc comment promises |
| Hypergeometric.AtLeastNoneIsCertain | src/utils/calculations.js:46-51 | past the guards, drawing at least 0 targets has probability 1 |
| Hypergeometric.AtLeastOneIsComplement | src/utils/calculations.js:46-51 | at least one target has probability 1 − C(p−s, n)/C(p, n) |
| Hypergeometric.SingleCopyChance | src/utils/calculations.js:46-51 | with a single copy in the deck, it is drawn with probability n/p |
| Hypergeometric.TwoCopiesInTwenty | src/utils/calculations.js:34-54 | two copies among 20 cards, drawing 7: at least one appears with probability exactly 56/95 |
| Tracking.Chance | src/utils/calculations.js:110-115 | each card's hypergeometric call for at least one copy; always in [0, 1], and positive only when the copy count is defined, 1 ≤ copies ≤ deck and 1 ≤ draw ≤ deck |
| Tracking.CardChance | src/utils/calculations.js:110-115 | the call site: 0 for an undefined copy count, otherwise `hypergeometricProbability(deck, copies, draw, 1)`; equals Chance |
| Tracking.SkipHeldOdds | src/utils/calculations.js:92-127 | the Iono loop returns the product of the chances of the cards not in hand, the "all found" flag and the rows, as defined card by card |
| Tracking.SkipHeldKeep | src/utils/calculations.js:98-107 | a held card adds an "already in hand" 100% row and leaves the product and the flag unchanged |
| Tracking.SkipHeldMultiply | src/utils/calculations.js:110-126 | any other card adds a row with its chance, multiplies its chance in, and clears the flag when it is below 0.5 |
| Tracking.SkipFactorsAt | src/utils/calculations.js:96-127 | factor i is 1 for a held card and its chance otherwise; every factor is a probability |
| Tracking.SkipHeldRowsAt | src/utils/calculations.js:99-123 | row i describes card i: numbered i+1, 100% and "already in hand" when held, otherwise its chance and rating |
| Tracking.AllFoundMeans | src/utils/calculations.js:126 | `allCardsFound` holds exactly when no card outside the hand has a chance below 0.5 |
| Tracking.ProductInUnit | src/utils/calculations.js:125 | a product of probabilities is a probability |
| Tracking.ProductBelowEach | src/utils/calculations.js:125 | a product of probabilities is at most each of its factors |
| Tracking.ProductPointwise | src/utils/calculations.js:213 | lowering factors never raises a product of probabilities |
| Tracking.ProductOfOnes | src/utils/calculations.js:103 | a product of ones is 1 |
| Tracking.SkipHeldDecision | src/utils/calculations.js:128 | the rule "combined odds above 0.5, or all cards found" equals "all cards found" |
| Tracking.AllHeldIsCertain | src/utils/calculations.js:96-128 | when every tracked card is in hand, the product is 1 and all are found |
| Tracking.SkipHeldZero | src/utils/calculations.js:110-126 | a card outside the hand that cannot be drawn zeroes the product and clears the flag |
| Tracking.AnyCardsInHand | src/utils/calculations.js:190-193 | the first Mars loop returns exactly `AnyHeld`, which `AnyHeldMeans` shows is "some tracked card is in hand" |
| Tracking.DiscardAwareOdds | src/utils/calculations.js:186-214 | the two Mars loops return the product of every card's chance, whether any card is in hand, and the rows, as defined card by card |
| Tracking.FullStep | src/utils/calculations.js:195-213 | each card multiplies its chance in and adds a row flagged `willDiscard` exactly when it is held |
| Tracking.ChancesAt | src/utils/calculations.js:195-201 | entry i of the Mars factors is card i's chance, and every entry is a probability |
| Tracking.AnyHeldMeans | src/utils/calculations.js:191-193 | `anyCardsInHand` is set exactly when some tracked card is in hand |
| Tracking.DiscardRowsAt | src/utils/calculations.js:203-211 | row i describes card i, with `willDiscard` exactly when it is held |
| Tracking.ProductsInUnit | src/utils/calculations.js:125-126 | both combined probabilities lie in [0, 1] |
| Tracking.FullAboveThreshold | src/utils/calculations.js:213-216 | a Mars product above a threshold puts every card's own chance above it |
| Tracking.FullBelowSkipHeld | src/utils/calculations.js:195-214 | for the same draw, the Mars product never exceeds the Iono product |
| Calculations.CalculateIonoOdds | src/utils/calculations.js:66-146 | the result is `IonoResult`: no effect with an empty hand; otherwise the draw equals the hand size, and the verdict, percentage and rows come from the loop |
| Calculations.IonoWorthIt | src/utils/calculations.js:74-128 | Iono is worth playing exactly when the hand is not empty and every tracked card outside the hand has a chance of at least 0.5 |
| Calculations.IonoAllInHand | src/utils/calculations.js:96-128 | with cards in hand and every tracked card held, Iono is worth playing at 100% |
| Calculations.IonoDetailsShape | src/utils/calculations.js:76-145 | an empty `odds` list and no combined figure for an empty hand; otherwise one row per tracked card, as described, with a combined figure between 0 and 100 |
| Calculations.MarsThresholdsFromCatalog | src/utils/calculations.js:216 | the thresholds 0.7 and 0.5 used by the calculator are the catalogue's Mars thresholds, and 0.7 > 0.5 |
| Calculations.CalculateMarsOdds | src/utils/calculations.js:159-242 | the result is `MarsResult`: no effect when the opponent needs no points; otherwise the draw is 3 − opponentPoints, with the 70%/50% threshold |
| Calculations.MarsWorthIt | src/utils/calculations.js:168-216 | never worth it at 3 or more points; when worth it, every card's chance exceeds 0.5, and exceeds 0.7 once a tracked card is in hand |
| Calculations.MarsDetailsShape | src/utils/calculations.js:203-238 | the warning, `hasCardsInHand` and the 70% threshold appear exactly when a tracked card is in hand; every row is flagged `willDiscard` exactly when its card is held |
| Calculations.RedCardResult | src/utils/calculations.js:249-268 | Red Card is always worth playing and has details |
| Calculations.RedCardFromCatalog | src/utils/calculations.js:256-263 | its verdict and its draw count of 3 are the catalogue's `alwaysWorthIt` and `drawCount` |
| Calculations.CalculateOdds | src/utils/calculations.js:284-315 | a deck + hand total ≤ 0 is rejected with no details; otherwise the name picks the calculator, and an unknown name gives "select a card" with no details; details exist exactly when the total is positive and the name is in the catalogue |
| Cards.Card.Affects | src/data/cards.js:18-20 | the card's `affects`, falling back to "user" when it is absent or empty; never empty |
| Cards.Names | src/data/cards.js:64 | the keys of the catalogue, in order, one per card |
| Cards.Lookup | src/data/cards.js:67 | finds a card exactly when the name is a key, and the card found carries that name |
| Cards.AvailableCards | src/data/cards.js:64 | one name per registered card |
| Cards.GetCard | src/data/cards.js:67 | a card exactly for the available names, and it is the registered card of that name |
| Cards.IonoCard | src/data/cards.js:24-34 | Iono: "shuffle_and_draw_same", threshold 0.5, no points, affects the user |
| Cards.MarsCard | src/data/cards.js:36-47 | Mars: "opponent_shuffle_draw_by_points", 0.7 with cards in hand and 0.5 without, uses points, affects the opponent |
| Cards.RedCard | src/data/cards.js:49-60 | Red Card: "opponent_shuffle_and_draw", draws 3, always worth it, affects the opponent |
| Cards.Registry | src/data/cards.js:24-61 | the `cards` object: Iono, Mars and Red Card, in registration order |
| Cards.CatalogueEntries | src/data/cards.js:24-61 | the catalogue is exactly the three cards with their calculation types, and each is stored under the name it carries, so a lookup by that name finds it |
| Cards.AvailableCardsInOrder | src/data/cards.js:24-64 | the available cards are exactly Iono, Mars and Red Card, in that order |
| Cards.GetCardFinds | src/data/cards.js:24-67 | each of the three names finds its own card; no other name finds anything |
| Cards.OnlyMarsUsesPoints | src/data/cards.js:31-57 | `points` is true for Mars only |
| Cards.ThresholdFacts | src/data/cards.js:30-43 | Mars: 0.7 with cards in hand and 0.5 without, 0.7 > 0.5; Iono: 0.5 |
| Cards.AudienceFacts | src/data/cards.js:32-58 | Red Card has drawCount 3 and alwaysWorthIt; Iono affects the user, while Mars and Red Card affect the opponent |
| App.SameCardsAsCatalog | src/App.js:6 | the component lists the catalogue's cards in the catalogue's order |
| App.ValidateField | src/App.js:70-76 | the message is empty exactly when the parsed value is a number within [min, max] |
| App.ValidateTotalCards | src/App.js:79-85 | the message is non-empty exactly when deck + hand > 20 |
| App.HasFieldErrors | src/App.js:161-177 | the `for…in` gate: some scalar message is set, or some entry of a per-card error array is |
| App.GateOpensOnValidFields | src/App.js:161-177 | with blank per-card arrays, the gate lets a calculation through exactly when the deck is in [1, 20], the hand in [1, 8] and the tracked-card count in [1, 3] |
| App.Blank | src/App.js:59-60 | `Array(n).fill('')`: n empty messages |
| App.Resize | src/App.js:38-54 | the push-then-slice updater returns exactly the resized array |
| App.ResizedShape | src/App.js:38-54 | for a size ≥ 0, the array has that length, keeps its old entries, and pads new slots |
| App.ResizedStable | src/App.js:38-54 | resizing to the current length changes nothing; resizing twice to the same size equals resizing once |
| App.IonoOddsV1 | src/App.js:204-274 | the older Iono returns `IonoV1`: the draw is max(0, 7 − hand), and a draw of 0 means no need to play |
| App.IonoV1WorthIt | src/App.js:206-259 | the older Iono is worth playing exactly when the hand is under 7 and every tracked card outside the hand has a chance of at least 0.5 |
| App.IonoRevisionsAgree | src/App.js:204-259 | the older Iono applies the newer one's rule and reports the same percentage and rows, with 7 − hand cards drawn instead of hand |
| App.MarsOddsV1 | src/App.js:276-333 | the older Mars returns `MarsV1` with a fixed draw of 4 and the 70%/50% threshold |
| App.MarsRevisionsAgree | src/App.js:276-312 | the older Mars is the newer one with the opponent needing 4 points: the same verdict, percentage and rows |
| App.RespondWorthIt | src/App.js:159-354 | worth playing only when no validation message is set, the total is positive and the card is listed; Red Card always is once those hold; a validation failure or an unknown card clears the details |
| App.StartupIsRefused | src/App.js:64-67 | the initial 20 + 5 cards fail the total check, so a calculation at startup reports the total error |
| App.Calculator.constructor | src/App.js:9-34 | the initial state: Iono, 20 in deck, 5 in hand, one tracked card (1 left, 0 in hand), 3-entry error arrays, no result |
| App.Calculator.SyncTrackedArrays | src/App.js:37-62 | both arrays are resized to `uniqueCardsNeeded` (padded with 1 and 0), and the per-card errors are reset to that many empty messages; a negative size throws |
| App.Calculator.CheckInitialTotal | src/App.js:64-67 | the total error is set exactly when deck + hand > 20 |
| App.Calculator.Calculate | src/App.js:159-355 | `result` and `detailedResults` become the response to the state read: validation gate, total gate, then the switch; a non-positive total keeps the previous details |

## Left out

- Rendering: JSX, CSS, and React's `useState`/`useEffect` scheduling. The component's
  state is a class, and each effect and the calculate action is a method applied at once.
- The event handlers (`handleRemainingChange`, `handleInHandChange`, `handleDeckCountChange`,
  `handleHandCountChange`, `handleUniqueCardsChange`, `handleCardChange`). They parse input
  text with `parseInt` and its `|| 0` / `|| 1` fallbacks, then call the modelled
  validators. Parsing is not modelled, and the validators take the parsed value as
  `Option<int>`.
- The shallow copy of `errors` in the handlers, which shares the nested arrays with the
  previous state. This is a state quirk, not logic.
- `toFixed(2)` and the explanation sentences. Percentages are kept as exact
  `odds × 100`, and an explanation is the constructor that carries the facts its
  sentence is built from. The card name, the effect text and fixed wordings such as
  `strategicValue` are implied by the details constructor.
- IEEE-754 rounding. JavaScript doubles can land on the other side of the 0.5 and 0.7
  comparisons from the exact value.
- Combinatorics.Factorial: computed in exact integers. The source's loop runs on doubles,
  which are exact only up to 22!. Above that the product is rounded, and from 171! on it is
  Infinity, so `combination` returns Infinity/Infinity = NaN. Combinatorics.Combination and
  Combinatorics.Fact inherit this difference. The component's validation keeps the deck at
  20 cards or fewer, where the doubles are exact.
- The `opponentPoints = 1` default at `calculateOdds`. The Mars calculator receives the
  raw parameters, so the default never reaches it, and `opponentPoints` is a required
  integer.
- `cardUser` and `userPoints`: accepted and never read.
- `getCard` on an inherited property name such as `toString`: a JavaScript object lookup
  would return the inherited member, and `GetCard` returns `None`.
- Hypergeometric.HypergeometricProbability: requires `minSuccesses >= 0`. Every call site
  passes 1. With a negative `minSuccesses` and a negative `sampleSize`, the guards pass
  and the source divides 0 by 0 (NaN), which a `real` cannot represent.
- App.Calculator.SyncTrackedArrays: when `uniqueCardsNeeded` is negative, `Array(n)`
  throws a RangeError inside React's updater. The model reports this as `thrown` and
  leaves the errors unchanged. What React then does with the error is not modelled.
