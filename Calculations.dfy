/**
 * The card calculators of the calculation utilities and their dispatch
 * (`calculateIonoOdds`, `calculateMarsOdds`, `calculateRedCardResult`, `calculateOdds`).
 * Percentages are kept as exact `odds * 100` before formatting, and explanations
 * are the facts the sentence is built from.
 */
module Calculations {
  import opened Options
  import opened Tracking
  import Cards

  /** The inputs of `calculateOdds`. `cardUser` and `userPoints` are accepted by the
      source and never read, so they are not modelled. */
  datatype Params = Params(cardName: string, cardsInDeck: int, cardsInHand: int,
                           remainingInDeck: seq<int>, inHand: seq<int>, opponentPoints: int)

  /** The last sentence of an explanation. */
  datatype Closing = WorthPlaying | WorthPlayingAsDisruption | ProbablyNot

  datatype Explanation =
    | InvalidConfiguration
    | SelectCard
    | IonoNoEffect
    | IonoShuffleDraw(handSize: int, draw: int, percent: real, closing: Closing)
    | MarsNoEffect
    | MarsShuffleDraw(draw: int, pointsNeeded: int, warning: bool, percent: real, closing: Closing)
    | RedCardDisrupts

  /** A result's `details`. Each card's name, effect text and fixed recommendation are
      implied by the constructor. */
  datatype Details =
    | IonoDetails(currentHandSize: int, cardsToDraw: int, cardsInDeck: int,
                  combinedPercent: Option<real>, odds: seq<CardOdds>)
    | MarsNoEffectDetails(opponentPoints: int, pointsNeeded: int)
    | MarsDetails(opponentPoints: int, pointsNeeded: int, cardsToDraw: int, cardsInDeck: int,
                  hasCardsInHand: bool, combinedPercent: Option<real>, thresholdPercent: int, odds: seq<CardOdds>)
    | RedCardDetails(drawCount: int)

  /** `details: null` is `None`. */
  datatype Result = Result(worthIt: bool, explanation: Explanation, details: Option<Details>)

  function Verdict(worthIt: bool, praise: Closing): Closing
  {
    if worthIt then praise else ProbablyNot
  }

  /** What `calculateIonoOdds` returns. Its rule `combinedOdds > 0.5 || allCardsFound`
      is stated here in the equivalent form "all found" (see `IonoWorthIt`). */
  function IonoResult(p: Params): Result
  {
    var draw := p.cardsInHand;
    if draw == 0 then
      Result(false, IonoNoEffect, Some(IonoDetails(p.cardsInHand, draw, p.cardsInDeck, None, [])))
    else
      var n := |p.remainingInDeck|;
      var worthIt := AllFound(p.cardsInDeck, draw, p.remainingInDeck, p.inHand, n);
      var percent := SkipHeldProduct(p.cardsInDeck, draw, p.remainingInDeck, p.inHand, n) * 100.0;
      Result(worthIt, IonoShuffleDraw(p.cardsInHand, draw, percent, Verdict(worthIt, WorthPlaying)),
             Some(IonoDetails(p.cardsInHand, draw, p.cardsInDeck, Some(percent),
                              SkipHeldRows(p.cardsInDeck, draw, p.remainingInDeck, p.inHand, n))))
  }

  /** `calculateIonoOdds`: the player draws as many cards as they hold, and the loop
      runs over every entry of `remainingInDeck`. */
  method CalculateIonoOdds(p: Params) returns (r: Result)
    ensures r == IonoResult(p)
  {
    var cardsToDraw := p.cardsInHand;
    if cardsToDraw == 0 {
      return Result(false, IonoNoEffect, Some(IonoDetails(p.cardsInHand, cardsToDraw, p.cardsInDeck, None, [])));
    }
    var n := |p.remainingInDeck|;
    var combinedOdds, allCardsFound, cardOdds := SkipHeldOdds(p.cardsInDeck, cardsToDraw, p.remainingInDeck, p.inHand, n);
    SkipHeldDecision(p.cardsInDeck, cardsToDraw, p.remainingInDeck, p.inHand, n);
    var worthIt := combinedOdds > 0.5 || allCardsFound;
    r := Result(worthIt, IonoShuffleDraw(p.cardsInHand, cardsToDraw, combinedOdds * 100.0, Verdict(worthIt, WorthPlaying)),
                Some(IonoDetails(p.cardsInHand, cardsToDraw, p.cardsInDeck, Some(combinedOdds * 100.0), cardOdds)));
  }

  /** Iono is worth playing exactly when the player holds cards and every tracked card
      not already in hand has at least an even chance. */
  lemma IonoWorthIt(p: Params)
    ensures IonoResult(p).worthIt
        <==> p.cardsInHand != 0
             && (forall i :: 0 <= i < |p.remainingInDeck| && !Held(p.inHand, i)
                   ==> Chance(p.cardsInDeck, At(p.remainingInDeck, i), p.cardsInHand) >= 0.5)
  {
    AllFoundMeans(p.cardsInDeck, p.cardsInHand, p.remainingInDeck, p.inHand, |p.remainingInDeck|);
  }

  /** With cards in hand and every tracked card already held, Iono is certain: 100%
      and worth playing. */
  lemma IonoAllInHand(p: Params)
    requires p.cardsInHand != 0
    requires forall i :: 0 <= i < |p.remainingInDeck| ==> Held(p.inHand, i)
    ensures IonoResult(p).worthIt
    ensures IonoResult(p).details.value.combinedPercent == Some(100.0)
  {
    AllHeldIsCertain(p.cardsInDeck, p.cardsInHand, p.remainingInDeck, p.inHand, |p.remainingInDeck|);
  }

  /** One row per tracked card when the player holds cards, none otherwise. A held card
      shows 100% and "already in hand". Every other card shows its own chance. The
      combined percentage lies between 0 and 100. */
  lemma IonoDetailsShape(p: Params)
    ensures IonoResult(p).details.Some? && IonoResult(p).details.value.IonoDetails?
    ensures var d := IonoResult(p).details.value;
      |d.odds| == (if p.cardsInHand == 0 then 0 else |p.remainingInDeck|)
      && (d.combinedPercent.None? <==> p.cardsInHand == 0)
      && (d.combinedPercent.Some? ==> 0.0 <= d.combinedPercent.value <= 100.0)
    ensures p.cardsInHand != 0 ==>
      forall i :: 0 <= i < |p.remainingInDeck| ==>
        var row := IonoResult(p).details.value.odds[i];
        row.cardIndex == i + 1 && row.willDiscard.None?
        && (Held(p.inHand, i) ==> row.percent == 100.0 && row.comment == AlreadyInHand)
        && (!Held(p.inHand, i) ==>
              row.percent == Chance(p.cardsInDeck, At(p.remainingInDeck, i), p.cardsInHand) * 100.0
              && row.comment != AlreadyInHand)
  {
    var n := |p.remainingInDeck|;
    SkipHeldRowsAt(p.cardsInDeck, p.cardsInHand, p.remainingInDeck, p.inHand, n);
    ProductsInUnit(p.cardsInDeck, p.cardsInHand, p.remainingInDeck, p.inHand, n);
  }

  /** The Mars threshold: 70% with a tracked card in hand, 50% without. */
  function MarsThreshold(anyCardsInHand: bool): real
  {
    if anyCardsInHand then 0.7 else 0.5
  }

  /** The thresholds written into the calculator are the catalogue's Mars thresholds. */
  lemma MarsThresholdsFromCatalog()
    ensures MarsThreshold(true) == Cards.MarsCard.calculationParams.thresholdWithCardsInHand.value
    ensures MarsThreshold(false) == Cards.MarsCard.calculationParams.thresholdWithoutCardsInHand.value
    ensures MarsThreshold(true) > MarsThreshold(false)
  {
  }

  /** What `calculateMarsOdds` returns. */
  function MarsResult(p: Params): Result
  {
    var pointsNeeded := 3 - p.opponentPoints;
    var draw := pointsNeeded;
    if draw <= 0 then
      Result(false, MarsNoEffect, Some(MarsNoEffectDetails(p.opponentPoints, 0)))
    else
      var n := |p.remainingInDeck|;
      var any := AnyHeld(p.inHand, n);
      var product := FullProduct(p.cardsInDeck, draw, p.remainingInDeck, n);
      var worthIt := product > MarsThreshold(any);
      Result(worthIt, MarsShuffleDraw(draw, pointsNeeded, any, product * 100.0, Verdict(worthIt, WorthPlayingAsDisruption)),
             Some(MarsDetails(p.opponentPoints, pointsNeeded, draw, p.cardsInDeck, any, Some(product * 100.0),
                              if any then 70 else 50, DiscardRows(p.cardsInDeck, draw, p.remainingInDeck, p.inHand, n))))
  }

  /** `calculateMarsOdds`: the opponent draws one card per point still needed. */
  method CalculateMarsOdds(p: Params) returns (r: Result)
    ensures r == MarsResult(p)
  {
    var pointsNeeded := 3 - p.opponentPoints;
    var marsDraw := pointsNeeded;
    if marsDraw <= 0 {
      return Result(false, MarsNoEffect, Some(MarsNoEffectDetails(p.opponentPoints, 0)));
    }
    var n := |p.remainingInDeck|;
    var marsOdds, anyCardsInHand, cardOdds := DiscardAwareOdds(p.cardsInDeck, marsDraw, p.remainingInDeck, p.inHand, n);
    var worthIt := marsOdds > (if anyCardsInHand then 0.7 else 0.5);
    r := Result(worthIt, MarsShuffleDraw(marsDraw, pointsNeeded, anyCardsInHand, marsOdds * 100.0, Verdict(worthIt, WorthPlayingAsDisruption)),
                Some(MarsDetails(p.opponentPoints, pointsNeeded, marsDraw, p.cardsInDeck, anyCardsInHand, Some(marsOdds * 100.0),
                                 if anyCardsInHand then 70 else 50, cardOdds)));
  }

  /** Mars is worth playing only when the opponent still needs points and every tracked
      card's own chance clears 50%, or 70% once any of them is in hand. An opponent with
      3 or more points makes Mars useless. */
  lemma MarsWorthIt(p: Params)
    ensures p.opponentPoints >= 3 ==> !MarsResult(p).worthIt
    ensures MarsResult(p).worthIt ==>
      forall i :: 0 <= i < |p.remainingInDeck| ==>
        Chance(p.cardsInDeck, At(p.remainingInDeck, i), 3 - p.opponentPoints) > 0.5
    ensures MarsResult(p).worthIt && (exists j :: 0 <= j < |p.remainingInDeck| && Held(p.inHand, j)) ==>
      forall i :: 0 <= i < |p.remainingInDeck| ==>
        Chance(p.cardsInDeck, At(p.remainingInDeck, i), 3 - p.opponentPoints) > 0.7
  {
    var n := |p.remainingInDeck|;
    var draw := 3 - p.opponentPoints;
    if MarsResult(p).worthIt {
      AnyHeldMeans(p.inHand, n);
      FullAboveThreshold(p.cardsInDeck, draw, p.remainingInDeck, n, MarsThreshold(AnyHeld(p.inHand, n)));
    }
  }

  /** When the opponent still needs points, the warning, `hasCardsInHand` and the 70%
      threshold all appear exactly when a tracked card is in hand, and each row is flagged
      `willDiscard` exactly when its card is held. */
  lemma MarsDetailsShape(p: Params)
    requires p.opponentPoints < 3
    ensures var r := MarsResult(p);
      var any := exists j :: 0 <= j < |p.remainingInDeck| && Held(p.inHand, j);
      r.explanation.MarsShuffleDraw? && r.explanation.warning == any
      && r.details.Some? && r.details.value.MarsDetails?
      && r.details.value.hasCardsInHand == any
      && r.details.value.thresholdPercent == (if any then 70 else 50)
      && r.details.value.combinedPercent.Some?
      && 0.0 <= r.details.value.combinedPercent.value <= 100.0
      && |r.details.value.odds| == |p.remainingInDeck|
    ensures forall i :: 0 <= i < |p.remainingInDeck| ==>
      var row := MarsResult(p).details.value.odds[i];
      row.cardIndex == i + 1 && row.willDiscard == Some(Held(p.inHand, i))
      && row.percent == Chance(p.cardsInDeck, At(p.remainingInDeck, i), 3 - p.opponentPoints) * 100.0
      && (row.comment == WillDiscard <==> Held(p.inHand, i))
  {
    var n := |p.remainingInDeck|;
    var draw := 3 - p.opponentPoints;
    AnyHeldMeans(p.inHand, n);
    DiscardRowsAt(p.cardsInDeck, draw, p.remainingInDeck, p.inHand, n);
    ProductsInUnit(p.cardsInDeck, draw, p.remainingInDeck, p.inHand, n);
  }

  /** `calculateRedCardResult`: always worth playing, with the opponent drawing 3. */
  function RedCardResult(): (r: Result)
    ensures r.worthIt && r.details.Some?
  {
    Result(true, RedCardDisrupts, Some(RedCardDetails(3)))
  }

  /** Red Card's result agrees with its catalogue entry. */
  lemma RedCardFromCatalog()
    ensures RedCardResult().worthIt == Cards.RedCard.calculationParams.alwaysWorthIt.value
    ensures Some(RedCardResult().details.value.drawCount) == Cards.RedCard.calculationParams.drawCount
  {
  }

  /** `calculateOdds`: a non-positive deck plus hand is rejected before the card is
      looked at. Otherwise the card name picks the calculator. Details are present
      exactly when the total is positive and the name is in the catalogue. Nothing
      is ever worth playing without both. */
  method CalculateOdds(p: Params) returns (r: Result)
    ensures p.cardsInHand + p.cardsInDeck <= 0 ==> r == Result(false, InvalidConfiguration, None)
    ensures p.cardsInHand + p.cardsInDeck > 0 ==>
      r == (if p.cardName == "Iono" then IonoResult(p)
            else if p.cardName == "Mars" then MarsResult(p)
            else if p.cardName == "Red Card" then RedCardResult()
            else Result(false, SelectCard, None))
    ensures r.details.Some? <==> p.cardsInHand + p.cardsInDeck > 0 && Cards.GetCard(p.cardName).Some?
    ensures r.worthIt ==> p.cardsInHand + p.cardsInDeck > 0 && Cards.GetCard(p.cardName).Some?
  {
    Cards.GetCardFinds(p.cardName);
    var totalCardsAccounted := p.cardsInHand + p.cardsInDeck;
    if totalCardsAccounted <= 0 {
      return Result(false, InvalidConfiguration, None);
    }
    if p.cardName == "Iono" {
      r := CalculateIonoOdds(p);
    } else if p.cardName == "Mars" {
      r := CalculateMarsOdds(p);
    } else if p.cardName == "Red Card" {
      r := RedCardResult();
    } else {
      r := Result(false, SelectCard, None);
    }
  }
}
