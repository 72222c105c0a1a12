/**
 * The logic inside the calculator's page component: the input validators, the
 * updater that resizes the per-card arrays, and the component's own `calculateOdds`.
 * That is an older revision of the engine: Iono draws up to a hand of 7 and Mars
 * always draws 4. It shares the per-card loops and the hypergeometric helpers with
 * the utilities, which it duplicates verbatim.
 *
 * The component's state is the `Calculator` class. Each effect and the calculate
 * action is a method that changes only the state it sets.
 */
module App {
  import opened Options
  import opened Tracking
  import Cards
  import Calculations

  /** The component's `availableCards` list. */
  const AvailableCards: seq<string> := ["Iono", "Mars", "Red Card"]

  /** The component lists the same cards, in the same order, as the catalogue. */
  lemma SameCardsAsCatalog()
    ensures AvailableCards == Cards.AvailableCards()
  {
    Cards.AvailableCardsInOrder();
  }

  function Max(a: int, b: int): int
  {
    if a >= b then a else b
  }

  // ---------------------------------------------------------------------------
  // Validation.
  // ---------------------------------------------------------------------------

  function DigitText(n: nat): string
    decreases n
  {
    var d := ['0', '1', '2', '3', '4', '5', '6', '7', '8', '9'][n % 10];
    if n < 10 then [d] else DigitText(n / 10) + [d]
  }

  /** An integer written in decimal, as a template literal shows it. */
  function IntText(n: int): string
  {
    if n < 0 then "-" + DigitText(-n) else DigitText(n)
  }

  /** `validateField`: the value arrives parsed, `None` when `parseInt` gives NaN. The
      message is empty exactly when the value is a number within [min, max]. */
  function ValidateField(value: Option<int>, min: int, max: int): (message: string)
    ensures message == "" <==> value.Some? && min <= value.value <= max
  {
    if value.None? || value.value < min || value.value > max then
      "Value must be between " + IntText(min) + " and " + IntText(max)
    else ""
  }

  /** `validateTotalCards`: an error exactly when deck and hand together exceed 20. */
  function ValidateTotalCards(deckCount: int, handCount: int): (message: string)
    ensures message != "" <==> deckCount + handCount > 20
  {
    var total := deckCount + handCount;
    if total > 20 then "Total cards (deck + hand) cannot exceed 20" else ""
  }

  /** The `errors` state: one message per scalar field, one per tracked card. */
  datatype FieldErrors = FieldErrors(cardsInDeck: string, cardsInHand: string, uniqueCardsNeeded: string,
                                     remainingInDeck: seq<string>, inHand: seq<string>)

  /** The gate in `calculateOdds`: some scalar message is set, or some entry of an
      error array is. */
  predicate HasFieldErrors(e: FieldErrors)
  {
    e.cardsInDeck != "" || e.cardsInHand != "" || e.uniqueCardsNeeded != ""
    || (exists i :: 0 <= i < |e.remainingInDeck| && e.remainingInDeck[i] != "")
    || (exists i :: 0 <= i < |e.inHand| && e.inHand[i] != "")
  }

  /** `Array(n).fill('')`. */
  function Blank(n: nat): (b: seq<string>)
    ensures |b| == n && forall i :: 0 <= i < n ==> b[i] == ""
  {
    seq(n, _ => "")
  }

  /** With the per-card error arrays reset to blanks, the gate in `calculateOdds` lets a
      calculation through exactly when every scalar field validated: the deck within
      [1, 20], the hand within [1, 8] and the number of tracked cards within [1, 3]. */
  lemma GateOpensOnValidFields(deck: Option<int>, hand: Option<int>, unique: Option<int>, n: nat)
    ensures !HasFieldErrors(FieldErrors(ValidateField(deck, 1, 20), ValidateField(hand, 1, 8),
                                        ValidateField(unique, 1, 3), Blank(n), Blank(n)))
            <==> (deck.Some? && 1 <= deck.value <= 20) && (hand.Some? && 1 <= hand.value <= 8)
                 && (unique.Some? && 1 <= unique.value <= 3)
  {
  }

  // ---------------------------------------------------------------------------
  // Resizing the per-card arrays.
  // ---------------------------------------------------------------------------

  /** What the resize updater leaves. For a size of 0 or more: the old entries that fit,
      then `pad` in every new slot. For a negative size the loop adds nothing, and
      `slice(0, size)` drops `-size` entries from the end. */
  function Resized(prev: seq<int>, size: int, pad: int): seq<int>
  {
    if size < 0 then prev[..Max(|prev| + size, 0)]
    else seq(size, i requires 0 <= i < size => if i < |prev| then prev[i] else pad)
  }

  /** `newArray.slice(0, end)`. A negative end counts from the back. */
  function Slice(xs: seq<int>, end: int): (s: seq<int>)
    ensures |s| <= |xs|
  {
    if end < 0 then xs[..Max(|xs| + end, 0)]
    else if end <= |xs| then xs[..end]
    else xs
  }

  /** The updater: copy, push `pad` until the array is long enough, then slice. */
  method Resize(prev: seq<int>, size: int, pad: int) returns (next: seq<int>)
    ensures next == Resized(prev, size, pad)
  {
    var newArray := prev;
    while |newArray| < size
      invariant |prev| <= |newArray| && (|newArray| <= size || newArray == prev)
      invariant forall i :: 0 <= i < |newArray| ==> newArray[i] == if i < |prev| then prev[i] else pad
      decreases size - |newArray|
    {
      newArray := newArray + [pad];
    }
    next := Slice(newArray, size);
  }

  /** For a size of 0 or more the result has exactly that many entries. The old entries
      come first, and every new slot holds `pad`. */
  lemma ResizedShape(prev: seq<int>, size: int, pad: int)
    requires size >= 0
    ensures |Resized(prev, size, pad)| == size
    ensures forall i :: 0 <= i < size && i < |prev| ==> Resized(prev, size, pad)[i] == prev[i]
    ensures forall i :: |prev| <= i < size ==> Resized(prev, size, pad)[i] == pad
  {
  }

  /** Resizing to the current length changes nothing, and resizing twice to the same
      size is resizing once. */
  lemma ResizedStable(prev: seq<int>, size: int, pad: int)
    requires size >= 0
    ensures Resized(prev, |prev|, pad) == prev
    ensures Resized(Resized(prev, size, pad), size, pad) == Resized(prev, size, pad)
  {
    assert Resized(prev, |prev|, pad) == prev;
  }

  // ---------------------------------------------------------------------------
  // The older engine.
  // ---------------------------------------------------------------------------

  /** The explanation the component shows. */
  datatype Message =
    | FixValidationErrors
    | TotalCardsProblem(text: string)
    | InvalidConfiguration
    | IonoHandFull
    | IonoDraws(draw: int, percent: real, closing: Calculations.Closing)
    | MarsDraws(draw: int, warning: bool, percent: real, closing: Calculations.Closing)
    | RedCardDisrupts
    | SelectCard

  /** The `result` state: `{ worthIt, explanation }`. */
  datatype Outcome = Outcome(worthIt: bool, explanation: Message)

  /** The `detailedResults` state, when it is not null. Name, effect text and fixed
      wording are implied by the constructor. */
  datatype Shown =
    | IonoShown(currentHandSize: int, cardsToDraw: int, cardsInDeck: int, combinedPercent: Option<real>, odds: seq<CardOdds>)
    | MarsShown(cardsDiscarded: int, cardsToDraw: int, cardsInDeck: int, hasCardsInHand: bool,
                marsPercent: real, thresholdPercent: int, odds: seq<CardOdds>)
    | RedCardShown

  /** What a calculation leaves in `result` and `detailedResults`. */
  datatype Response = Response(outcome: Outcome, shown: Option<Shown>)

  function V1Closing(worthIt: bool): Calculations.Closing
  {
    if worthIt then Calculations.WorthPlaying else Calculations.ProbablyNot
  }

  /** The older Iono: draw up to a hand of 7 (nothing from 7 cards up), looping over the
      first `count` tracked cards. */
  function IonoV1(deck: int, hand: int, rem: seq<int>, inHand: seq<int>, count: int): Response
  {
    var draw := Max(0, 7 - hand);
    if draw == 0 then
      Response(Outcome(false, IonoHandFull), Some(IonoShown(hand, draw, deck, None, [])))
    else
      var worthIt := AllFound(deck, draw, rem, inHand, count);
      var percent := SkipHeldProduct(deck, draw, rem, inHand, count) * 100.0;
      Response(Outcome(worthIt, IonoDraws(draw, percent, V1Closing(worthIt))),
               Some(IonoShown(hand, draw, deck, Some(percent), SkipHeldRows(deck, draw, rem, inHand, count))))
  }

  method IonoOddsV1(deck: int, hand: int, rem: seq<int>, inHand: seq<int>, count: int) returns (r: Response)
    ensures r == IonoV1(deck, hand, rem, inHand, count)
  {
    var newHandSize := 7;
    var cardsToDraw := Max(0, newHandSize - hand);
    if cardsToDraw == 0 {
      return Response(Outcome(false, IonoHandFull), Some(IonoShown(hand, cardsToDraw, deck, None, [])));
    }
    var combinedOdds, allCardsFound, cardOdds := SkipHeldOdds(deck, cardsToDraw, rem, inHand, count);
    SkipHeldDecision(deck, cardsToDraw, rem, inHand, count);
    var worthIt := combinedOdds > 0.5 || allCardsFound;
    r := Response(Outcome(worthIt, IonoDraws(cardsToDraw, combinedOdds * 100.0, V1Closing(worthIt))),
                  Some(IonoShown(hand, cardsToDraw, deck, Some(combinedOdds * 100.0), cardOdds)));
  }

  /** The older Mars: always 4 cards, over the first `count` tracked cards. */
  function MarsV1(deck: int, hand: int, rem: seq<int>, inHand: seq<int>, count: int): Response
  {
    var draw := 4;
    var any := AnyHeld(inHand, count);
    var product := FullProduct(deck, draw, rem, count);
    var worthIt := product > Calculations.MarsThreshold(any);
    Response(Outcome(worthIt, MarsDraws(draw, any, product * 100.0, V1Closing(worthIt))),
             Some(MarsShown(hand, draw, deck, any, product * 100.0, if any then 70 else 50,
                            DiscardRows(deck, draw, rem, inHand, count))))
  }

  method MarsOddsV1(deck: int, hand: int, rem: seq<int>, inHand: seq<int>, count: int) returns (r: Response)
    ensures r == MarsV1(deck, hand, rem, inHand, count)
  {
    var marsDraw := 4;
    var marsOdds, anyCardsInHand, cardOdds := DiscardAwareOdds(deck, marsDraw, rem, inHand, count);
    var worthIt := marsOdds > (if anyCardsInHand then 0.7 else 0.5);
    r := Response(Outcome(worthIt, MarsDraws(marsDraw, anyCardsInHand, marsOdds * 100.0, V1Closing(worthIt))),
                  Some(MarsShown(hand, marsDraw, deck, anyCardsInHand, marsOdds * 100.0,
                                 if anyCardsInHand then 70 else 50, cardOdds)));
  }

  /** The older Iono is worth playing exactly when the hand is under 7 and every tracked
      card outside the hand has at least an even chance in the 7 - hand cards drawn. */
  lemma IonoV1WorthIt(deck: int, hand: int, rem: seq<int>, inHand: seq<int>, count: int)
    ensures IonoV1(deck, hand, rem, inHand, count).outcome.worthIt
        <==> hand < 7
             && (forall i :: 0 <= i < count && !Held(inHand, i) ==> Chance(deck, At(rem, i), 7 - hand) >= 0.5)
  {
    AllFoundMeans(deck, Max(0, 7 - hand), rem, inHand, count);
  }

  /** Both revisions of Iono apply the same rule and report the same percentage.
      Only the number of cards drawn differs: 7 - hand in the older one, hand in the
      newer one. */
  lemma IonoRevisionsAgree(deck: int, hand: int, rem: seq<int>, inHand: seq<int>, name: string, points: int)
    requires hand < 7
    ensures var older := IonoV1(deck, hand, rem, inHand, |rem|);
      var newer := Calculations.IonoResult(Calculations.Params(name, deck, 7 - hand, rem, inHand, points));
      older.outcome.worthIt == newer.worthIt
      && older.shown.value.combinedPercent == newer.details.value.combinedPercent
      && older.shown.value.odds == newer.details.value.odds
  {
  }

  /** The older Mars is the newer one with the opponent needing 4 points: the same
      product, threshold and rows. */
  lemma MarsRevisionsAgree(deck: int, hand: int, rem: seq<int>, inHand: seq<int>, name: string)
    ensures var older := MarsV1(deck, hand, rem, inHand, |rem|);
      var newer := Calculations.MarsResult(Calculations.Params(name, deck, hand, rem, inHand, -1));
      older.outcome.worthIt == newer.worthIt
      && Some(older.shown.value.marsPercent) == newer.details.value.combinedPercent
      && older.shown.value.odds == newer.details.value.odds
  {
  }

  /** What `calculateOdds` leaves behind, from the state it reads. Any validation message
      blocks the calculation and clears the details. A non-positive deck plus hand is
      refused but leaves the previous details in place. */
  function Respond(card: string, deck: int, hand: int, unique: int, rem: seq<int>, inHand: seq<int>,
                   errors: FieldErrors, totalCardsError: string, shownBefore: Option<Shown>): Response
  {
    if HasFieldErrors(errors) then Response(Outcome(false, FixValidationErrors), None)
    else if totalCardsError != "" then Response(Outcome(false, TotalCardsProblem(totalCardsError)), None)
    else if hand + deck <= 0 then Response(Outcome(false, InvalidConfiguration), shownBefore)
    else if card == "Iono" then IonoV1(deck, hand, rem, inHand, unique)
    else if card == "Mars" then MarsV1(deck, hand, rem, inHand, unique)
    else if card == "Red Card" then Response(Outcome(true, RedCardDisrupts), Some(RedCardShown))
    else Response(Outcome(false, SelectCard), None)
  }

  /** A calculation is worth playing only when no validation message is set, the total is
      positive and the card is in the catalogue. Red Card always is once those hold. */
  lemma RespondWorthIt(card: string, deck: int, hand: int, unique: int, rem: seq<int>, inHand: seq<int>,
                       errors: FieldErrors, totalCardsError: string, shownBefore: Option<Shown>)
    ensures var r := Respond(card, deck, hand, unique, rem, inHand, errors, totalCardsError, shownBefore);
      (r.outcome.worthIt ==> !HasFieldErrors(errors) && totalCardsError == "" && hand + deck > 0
                             && card in Cards.AvailableCards())
      && (!HasFieldErrors(errors) && totalCardsError == "" && hand + deck > 0 && card == "Red Card"
          ==> r.outcome.worthIt)
      && (HasFieldErrors(errors) || totalCardsError != "" ==> r.shown.None?)
      && (card !in Cards.AvailableCards() && hand + deck > 0 ==> r.shown.None?)
  {
    Cards.AvailableCardsInOrder();
  }

  /** With the default inputs (20 in deck, 5 in hand) the total check fails at startup,
      so the first calculation is refused until the inputs change. */
  lemma StartupIsRefused()
    ensures ValidateTotalCards(20, 5) != ""
    ensures Respond("Iono", 20, 5, 1, [1], [0], FieldErrors("", "", "", [""], [""]), ValidateTotalCards(20, 5), None).outcome
         == Outcome(false, TotalCardsProblem("Total cards (deck + hand) cannot exceed 20"))
  {
  }

  // ---------------------------------------------------------------------------
  // The component's state.
  // ---------------------------------------------------------------------------

  class Calculator {
    var card: string
    var cardsInDeck: int
    var cardsInHand: int
    var uniqueCardsNeeded: int
    var remainingInDeck: seq<int>
    var inHand: seq<int>
    var errors: FieldErrors
    var totalCardsError: string
    var result: Option<Outcome>
    var detailedResults: Option<Shown>

    /** The initial state: Iono, 20 in deck, 5 in hand, one tracked card with 1 copy
        left and none in hand. The error arrays start with 3 empty entries. */
    constructor ()
      ensures card == "Iono" && cardsInDeck == 20 && cardsInHand == 5 && uniqueCardsNeeded == 1
      ensures remainingInDeck == [1] && inHand == [0]
      ensures errors == FieldErrors("", "", "", Blank(3), Blank(3))
      ensures totalCardsError == "" && result == None && detailedResults == None
    {
      card := AvailableCards[0];
      cardsInDeck := 20;
      cardsInHand := 5;
      uniqueCardsNeeded := 1;
      remainingInDeck := [1];
      inHand := [0];
      errors := FieldErrors("", "", "", Blank(3), Blank(3));
      totalCardsError := "";
      result := None;
      detailedResults := None;
    }

    /** The effect on `uniqueCardsNeeded`: both arrays are resized (`remainingInDeck`
        padded with 1, `inHand` with 0) and the per-card error arrays are reset to empty
        messages. `Array(n)` throws for a negative n, so in that case the errors are not
        reset and `thrown` is set. */
    method SyncTrackedArrays() returns (thrown: bool)
      modifies this`remainingInDeck, this`inHand, this`errors
      ensures remainingInDeck == Resized(old(remainingInDeck), uniqueCardsNeeded, 1)
      ensures inHand == Resized(old(inHand), uniqueCardsNeeded, 0)
      ensures thrown <==> uniqueCardsNeeded < 0
      ensures !thrown ==> errors == old(errors).(remainingInDeck := Blank(uniqueCardsNeeded), inHand := Blank(uniqueCardsNeeded))
      ensures thrown ==> errors == old(errors)
    {
      remainingInDeck := Resize(remainingInDeck, uniqueCardsNeeded, 1);
      inHand := Resize(inHand, uniqueCardsNeeded, 0);
      if uniqueCardsNeeded < 0 {
        return true;
      }
      errors := errors.(remainingInDeck := Blank(uniqueCardsNeeded), inHand := Blank(uniqueCardsNeeded));
      thrown := false;
    }

    /** The mount effect: check the initial deck and hand against the total limit. */
    method CheckInitialTotal()
      modifies this`totalCardsError
      ensures totalCardsError == ValidateTotalCards(cardsInDeck, cardsInHand)
      ensures totalCardsError != "" <==> cardsInDeck + cardsInHand > 20
    {
      totalCardsError := ValidateTotalCards(cardsInDeck, cardsInHand);
    }

    /** `calculateOdds`: stop at the first validation message, then at a non-positive
        total (leaving the details as they were), then compute the selected card's
        outcome. */
    method Calculate()
      modifies this`result, this`detailedResults
      ensures result == Some(old(Respond(card, cardsInDeck, cardsInHand, uniqueCardsNeeded, remainingInDeck, inHand,
                                         errors, totalCardsError, detailedResults)).outcome)
      ensures detailedResults == old(Respond(card, cardsInDeck, cardsInHand, uniqueCardsNeeded, remainingInDeck, inHand,
                                             errors, totalCardsError, detailedResults)).shown
    {
      if HasFieldErrors(errors) {
        result := Some(Outcome(false, FixValidationErrors));
        detailedResults := None;
        return;
      }
      if totalCardsError != "" {
        result := Some(Outcome(false, TotalCardsProblem(totalCardsError)));
        detailedResults := None;
        return;
      }
      var worthIt := false;
      // Every branch of the switch below sets the explanation.
      var explanation := SelectCard;
      var totalCardsAccounted := cardsInHand + cardsInDeck;
      if totalCardsAccounted <= 0 {
        result := Some(Outcome(false, InvalidConfiguration));
        return;
      }
      if card == "Iono" {
        var r := IonoOddsV1(cardsInDeck, cardsInHand, remainingInDeck, inHand, uniqueCardsNeeded);
        worthIt, explanation := r.outcome.worthIt, r.outcome.explanation;
        detailedResults := r.shown;
      } else if card == "Mars" {
        var r := MarsOddsV1(cardsInDeck, cardsInHand, remainingInDeck, inHand, uniqueCardsNeeded);
        worthIt, explanation := r.outcome.worthIt, r.outcome.explanation;
        detailedResults := r.shown;
      } else if card == "Red Card" {
        worthIt := true;
        explanation := RedCardDisrupts;
        detailedResults := Some(RedCardShown);
      } else {
        explanation := SelectCard;
        detailedResults := None;
      }
      result := Some(Outcome(worthIt, explanation));
    }
  }
}
