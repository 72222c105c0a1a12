/**
 * The static card catalogue: the three cards the calculator knows, in the order
 * they are registered, with the parameters their odds calculations read.
 */
module Cards {
  import opened Options

  /** A card's `calculationParams`. A key the card does not set is `None`. */
  datatype CalculationParams = CalculationParams(
    calcType: string,
    threshold: Option<real>,
    thresholdWithCardsInHand: Option<real>,
    thresholdWithoutCardsInHand: Option<real>,
    drawCount: Option<int>,
    alwaysWorthIt: Option<bool>,
    points: bool,
    affects: Option<string>)

  /** A card is never updated after it is built, so it is a value. */
  datatype Card = Card(name: string, effect: string, calculationParams: CalculationParams)
  {
    /** The `affects` getter: `calculationParams.affects || 'user'`. An absent or empty
        (falsy) value falls back to the player, so the answer is never empty. */
    function Affects(): (who: string)
      ensures who != ""
      ensures who == "user" || Some(who) == calculationParams.affects
      ensures calculationParams.affects.Some? && calculationParams.affects.value != ""
              ==> who == calculationParams.affects.value
    {
      match calculationParams.affects
      case Some(a) => if a != "" then a else "user"
      case None => "user"
    }
  }

  const IonoCard := Card(
    "Iono",
    "Trainer - Supporter: Each player shuffles the cards in their hand into their deck, then draws that many cards.",
    CalculationParams("shuffle_and_draw_same", Some(0.5), None, None, None, None, false, Some("user")))

  const MarsCard := Card(
    "Mars",
    "Trainer - Supporter: Your opponent shuffles their hand into their deck and draws a card for each of their remaining points needed to win.",
    CalculationParams("opponent_shuffle_draw_by_points", None, Some(0.7), Some(0.5), None, None, true, Some("opponent")))

  const RedCard := Card(
    "Red Card",
    "Trainer - Item: Your opponent shuffles their hand into their deck and draws 3 cards.",
    CalculationParams("opponent_shuffle_and_draw", None, None, None, Some(3), Some(true), false, Some("opponent")))

  /** The `cards` object: each card is stored under its own name, in registration order. */
  const Registry: seq<Card> := [IonoCard, MarsCard, RedCard]

  /** The keys of a list of cards, in order. */
  function Names(cards: seq<Card>): (names: seq<string>)
    ensures |names| == |cards|
    ensures forall i :: 0 <= i < |cards| ==> names[i] == cards[i].name
  {
    if |cards| == 0 then [] else [cards[0].name] + Names(cards[1..])
  }

  /** The card stored under `name`, if there is one. */
  function Lookup(cards: seq<Card>, name: string): (found: Option<Card>)
    ensures found.Some? <==> name in Names(cards)
    ensures found.Some? ==> found.value in cards && found.value.name == name
  {
    if |cards| == 0 then None
    else if cards[0].name == name then Some(cards[0])
    else Lookup(cards[1..], name)
  }

  /** `getAvailableCards()`: `Object.keys(cards)`. */
  function AvailableCards(): (names: seq<string>)
    ensures |names| == |Registry|
  {
    Names(Registry)
  }

  /** `getCard(name)`: `cards[name]`, undefined (`None`) for an unregistered name. */
  function GetCard(name: string): (found: Option<Card>)
    ensures found.Some? <==> name in AvailableCards()
    ensures found.Some? ==> found.value in Registry && found.value.name == name
  {
    Lookup(Registry, name)
  }

  /** The catalogue lists exactly Iono, Mars and Red Card, in that order. */
  lemma AvailableCardsInOrder()
    ensures AvailableCards() == ["Iono", "Mars", "Red Card"]
  {
  }

  /** Each of the three names finds its own card, and no other name finds anything. */
  lemma GetCardFinds(name: string)
    ensures GetCard(name).Some? <==> name == "Iono" || name == "Mars" || name == "Red Card"
    ensures name == "Iono" ==> GetCard(name) == Some(IonoCard)
    ensures name == "Mars" ==> GetCard(name) == Some(MarsCard)
    ensures name == "Red Card" ==> GetCard(name) == Some(RedCard)
  {
    AvailableCardsInOrder();
  }

  /** The catalogue holds the three cards with their calculation types, each stored under
      the name it carries, so looking a card up by its own name finds it. */
  lemma CatalogueEntries()
    ensures Registry == [IonoCard, MarsCard, RedCard]
    ensures IonoCard.name == "Iono" && IonoCard.calculationParams.calcType == "shuffle_and_draw_same"
    ensures MarsCard.name == "Mars" && MarsCard.calculationParams.calcType == "opponent_shuffle_draw_by_points"
    ensures RedCard.name == "Red Card" && RedCard.calculationParams.calcType == "opponent_shuffle_and_draw"
    ensures forall c :: c in Registry ==> GetCard(c.name) == Some(c)
  {
    GetCardFinds(IonoCard.name);
    GetCardFinds(MarsCard.name);
    GetCardFinds(RedCard.name);
  }

  /** Only Mars depends on the score. */
  lemma OnlyMarsUsesPoints()
    ensures forall c :: c in Registry ==> (c.calculationParams.points <==> c.name == "Mars")
  {
  }

  /** Mars asks for more with a tracked card in hand (70%) than without (50%), and
      Iono's threshold is 50%. */
  lemma ThresholdFacts()
    ensures MarsCard.calculationParams.thresholdWithCardsInHand == Some(0.7)
    ensures MarsCard.calculationParams.thresholdWithoutCardsInHand == Some(0.5)
    ensures MarsCard.calculationParams.thresholdWithCardsInHand.value
          > MarsCard.calculationParams.thresholdWithoutCardsInHand.value
    ensures IonoCard.calculationParams.threshold == Some(0.5)
  {
  }

  /** Red Card makes the opponent draw 3 and is always worth playing. Iono affects the
      player, while Mars and Red Card affect the opponent. */
  lemma AudienceFacts()
    ensures RedCard.calculationParams.drawCount == Some(3) && RedCard.calculationParams.alwaysWorthIt == Some(true)
    ensures IonoCard.Affects() == "user"
    ensures MarsCard.Affects() == "opponent" && RedCard.Affects() == "opponent"
  {
  }
}
