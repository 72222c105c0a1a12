/**
 * The per-card loops of the Iono and Mars calculators, shared by the calculation
 * utilities and by the older revision embedded in the component. Every tracked
 * card gets a chance of drawing at least one more copy, which is multiplied into a
 * combined probability, and a row of details.
 *
 * Cards are indexed from 0 in the model. Each row's `cardIndex` is one-based, as in
 * the source. A missing array entry (JavaScript `undefined`) is `None`.
 */
module Tracking {
  import opened Options
  import opened Combinatorics
  import opened Hypergeometric

  /** `xs[i]`: `undefined` outside the array. */
  function At(xs: seq<int>, i: int): Option<int>
  {
    if 0 <= i < |xs| then Some(xs[i]) else None
  }

  /** `inHand[i] > 0`. A missing entry is `undefined`, and `undefined > 0` is false. */
  predicate Held(inHand: seq<int>, i: int)
  {
    0 <= i < |inHand| && inHand[i] > 0
  }

  /** `hypergeometricProbability(deck, remaining, draw, 1)`. When `remaining` is undefined,
      every guard comparison with it is false. `Math.min` then yields NaN, so the summing
      loop never runs and the result is 0. */
  function Chance(deck: int, remaining: Option<int>, draw: int): (c: real)
    ensures 0.0 <= c <= 1.0
    ensures c > 0.0 ==> remaining.Some? && 1 <= remaining.value <= deck && 1 <= draw <= deck
  {
    match remaining
    case None => 0.0
    case Some(s) =>
      HyperTailBounds(deck, s, draw, 1);
      HyperTail(deck, s, draw, 1)
  }

  /** The hypergeometric call each loop makes for one tracked card. */
  method CardChance(deck: int, remaining: Option<int>, draw: int) returns (odds: real)
    ensures odds == Chance(deck, remaining, draw)
  {
    odds := 0.0;
    if remaining.Some? {
      odds := HypergeometricProbability(deck, remaining.value, draw, 1);
    }
  }

  datatype Comment = AlreadyInHand | LessThanHalf | GoodChance | WillDiscard

  /** One entry of the `odds` list in a result's details. `percent` is `odds * 100`
      before it is formatted. `willDiscard` is `None` where the row has no such key. */
  datatype CardOdds = CardOdds(cardIndex: int, inHand: Option<int>, remainingInDeck: Option<int>,
                               percent: real, willDiscard: Option<bool>, comment: Comment)

  /** The comment on a card the player does not hold. */
  function Rated(odds: real): Comment
  {
    if odds < 0.5 then LessThanHalf else GoodChance
  }

  // ---------------------------------------------------------------------------
  // Products of probabilities.
  // ---------------------------------------------------------------------------

  /** The product of a list of factors, multiplied in from the front as the loops do. */
  function Product(xs: seq<real>): real
    decreases |xs|
  {
    if |xs| == 0 then 1.0 else Product(xs[..|xs| - 1]) * xs[|xs| - 1]
  }

  predicate Probabilities(xs: seq<real>)
  {
    forall i :: 0 <= i < |xs| ==> 0.0 <= xs[i] <= 1.0
  }

  lemma ProductAppend(xs: seq<real>, x: real)
    ensures Product(xs + [x]) == Product(xs) * x
  {
    assert (xs + [x])[..|xs|] == xs;
  }

  lemma ScaleNonNegative(x: real, y: real)
    requires 0.0 <= x && 0.0 <= y
    ensures 0.0 <= x * y
  {
  }

  lemma ScaleBelowLeft(x: real, y: real)
    requires 0.0 <= x && 0.0 <= y <= 1.0
    ensures x * y <= x
  {
  }

  lemma ScaleBelowRight(x: real, y: real)
    requires 0.0 <= x <= 1.0 && 0.0 <= y
    ensures x * y <= y
  {
  }

  lemma ScaleLeft(x: real, y: real, u: real)
    requires x <= y && 0.0 <= u
    ensures x * u <= y * u
  {
  }

  lemma ScaleRight(y: real, u: real, v: real)
    requires 0.0 <= y && u <= v
    ensures y * u <= y * v
  {
  }

  /** A product of probabilities is a probability. */
  lemma {:induction false} ProductInUnit(xs: seq<real>)
    requires Probabilities(xs)
    ensures 0.0 <= Product(xs) <= 1.0
    decreases |xs|
  {
    if |xs| > 0 {
      var init, last := xs[..|xs| - 1], xs[|xs| - 1];
      ProductInUnit(init);
      var p := Product(init);
      assert Product(xs) == p * last;
      ScaleNonNegative(p, last);
      ScaleBelowLeft(p, last);
      assert Product(xs) <= p;
    }
  }

  /** One more probability as a factor lowers neither bound. */
  lemma StepBelow(prod: real, p: real, last: real)
    requires prod == p * last && 0.0 <= p <= 1.0 && 0.0 <= last <= 1.0
    ensures prod <= p && prod <= last
  {
    ScaleBelowLeft(p, last);
    ScaleBelowRight(p, last);
  }

  /** A product of probabilities is at most each of its factors. */
  lemma {:induction false} ProductBelowEach(xs: seq<real>, i: int)
    requires Probabilities(xs) && 0 <= i < |xs|
    ensures Product(xs) <= xs[i]
    decreases |xs|
  {
    var init, last := xs[..|xs| - 1], xs[|xs| - 1];
    var p := Product(init);
    assert Product(xs) == p * last;
    ProductInUnit(init);
    StepBelow(Product(xs), p, last);
    if i < |xs| - 1 {
      assert init[i] == xs[i];
      ProductBelowEach(init, i);
    }
  }

  /** Lowering factors (keeping them non-negative) never raises a product of probabilities. */
  lemma {:induction false} ProductPointwise(xs: seq<real>, ys: seq<real>)
    requires |xs| == |ys| && Probabilities(ys)
    requires forall i :: 0 <= i < |xs| ==> 0.0 <= xs[i] <= ys[i]
    ensures Product(xs) <= Product(ys)
    decreases |xs|
  {
    if |xs| > 0 {
      var n := |xs| - 1;
      var px, py := Product(xs[..n]), Product(ys[..n]);
      assert Product(xs) == px * xs[n] && Product(ys) == py * ys[n];
      ProductPointwise(xs[..n], ys[..n]);
      ProductInUnit(ys[..n]);
      StepPointwise(Product(xs), Product(ys), px, py, xs[n], ys[n]);
    }
  }

  /** One more pair of factors, the lower one on the lower side, keeps the order. */
  lemma StepPointwise(prodX: real, prodY: real, px: real, py: real, x: real, y: real)
    requires prodX == px * x && prodY == py * y
    requires px <= py && 0.0 <= py && 0.0 <= x <= y
    ensures prodX <= prodY
  {
    ScaleLeft(px, py, x);
    ScaleRight(py, x, y);
  }

  lemma {:induction false} ProductOfOnes(xs: seq<real>)
    requires forall i :: 0 <= i < |xs| ==> xs[i] == 1.0
    ensures Product(xs) == 1.0
    decreases |xs|
  {
    if |xs| > 0 {
      ProductOfOnes(xs[..|xs| - 1]);
    }
  }

  // ---------------------------------------------------------------------------
  // Iono: a card already in hand counts as found and stays out of the product.
  // ---------------------------------------------------------------------------

  /** What card i contributes to the Iono product: 1 when held, its chance otherwise. */
  function SkipFactor(deck: int, draw: int, rem: seq<int>, hand: seq<int>, i: int): (f: real)
    ensures 0.0 <= f <= 1.0
  {
    if Held(hand, i) then 1.0 else Chance(deck, At(rem, i), draw)
  }

  /** The Iono factors of the first n tracked cards. */
  function SkipFactors(deck: int, draw: int, rem: seq<int>, hand: seq<int>, n: int): (fs: seq<real>)
    ensures |fs| == (if n < 0 then 0 else n)
    decreases n
  {
    if n <= 0 then [] else SkipFactors(deck, draw, rem, hand, n - 1) + [SkipFactor(deck, draw, rem, hand, n - 1)]
  }

  lemma {:induction false} SkipFactorsAt(deck: int, draw: int, rem: seq<int>, hand: seq<int>, n: int)
    ensures forall i :: 0 <= i < n ==> SkipFactors(deck, draw, rem, hand, n)[i] == SkipFactor(deck, draw, rem, hand, i)
    ensures Probabilities(SkipFactors(deck, draw, rem, hand, n))
    decreases n
  {
    if n > 0 {
      SkipFactorsAt(deck, draw, rem, hand, n - 1);
    }
  }

  /** `combinedOdds` after the first n cards. */
  function SkipHeldProduct(deck: int, draw: int, rem: seq<int>, hand: seq<int>, n: int): real
  {
    Product(SkipFactors(deck, draw, rem, hand, n))
  }

  /** `allCardsFound` after the first n cards: cleared by the first card outside the
      hand whose chance is below one half. */
  predicate AllFound(deck: int, draw: int, rem: seq<int>, hand: seq<int>, n: int)
    decreases n
  {
    n <= 0 || (AllFound(deck, draw, rem, hand, n - 1) && (Held(hand, n - 1) || Chance(deck, At(rem, n - 1), draw) >= 0.5))
  }

  /** `allCardsFound` holds exactly when no tracked card outside the hand is below one half. */
  lemma {:induction false} AllFoundMeans(deck: int, draw: int, rem: seq<int>, hand: seq<int>, n: int)
    ensures AllFound(deck, draw, rem, hand, n)
        <==> forall i :: 0 <= i < n && !Held(hand, i) ==> Chance(deck, At(rem, i), draw) >= 0.5
    decreases n
  {
    if n > 0 {
      AllFoundMeans(deck, draw, rem, hand, n - 1);
    }
  }

  function SkipHeldRow(deck: int, draw: int, rem: seq<int>, hand: seq<int>, i: int): CardOdds
  {
    if Held(hand, i) then CardOdds(i + 1, At(hand, i), At(rem, i), 100.0, None, AlreadyInHand)
    else
      var c := Chance(deck, At(rem, i), draw);
      CardOdds(i + 1, At(hand, i), At(rem, i), c * 100.0, None, Rated(c))
  }

  /** The `cardOdds` list after the first n cards. */
  function SkipHeldRows(deck: int, draw: int, rem: seq<int>, hand: seq<int>, n: int): (rows: seq<CardOdds>)
    ensures |rows| == (if n < 0 then 0 else n)
    decreases n
  {
    if n <= 0 then [] else SkipHeldRows(deck, draw, rem, hand, n - 1) + [SkipHeldRow(deck, draw, rem, hand, n - 1)]
  }

  /** Row i of the list describes card i: numbered i + 1, 100% and "already in hand" when
      held, its chance and rating otherwise. */
  lemma {:induction false} SkipHeldRowsAt(deck: int, draw: int, rem: seq<int>, hand: seq<int>, n: int)
    ensures forall i :: 0 <= i < n ==> SkipHeldRows(deck, draw, rem, hand, n)[i] == SkipHeldRow(deck, draw, rem, hand, i)
    decreases n
  {
    if n > 0 {
      SkipHeldRowsAt(deck, draw, rem, hand, n - 1);
    }
  }

  /** The Iono loop over the first `count` tracked cards. A card in hand gets a 100% row
      and is skipped. Every other card's chance is multiplied in, and one below one half
      clears `allFound`. */
  method SkipHeldOdds(deck: int, draw: int, rem: seq<int>, hand: seq<int>, count: int)
    returns (combined: real, allFound: bool, rows: seq<CardOdds>)
    ensures combined == SkipHeldProduct(deck, draw, rem, hand, count)
    ensures allFound == AllFound(deck, draw, rem, hand, count)
    ensures rows == SkipHeldRows(deck, draw, rem, hand, count)
  {
    combined, allFound, rows := 1.0, true, [];
    var i := 0;
    while i < count
      invariant 0 <= i && (i <= count || i == 0)
      invariant combined == SkipHeldProduct(deck, draw, rem, hand, i)
      invariant allFound == AllFound(deck, draw, rem, hand, i)
      invariant rows == SkipHeldRows(deck, draw, rem, hand, i)
    {
      var held := At(hand, i);
      var remaining := At(rem, i);
      if held.Some? && held.value > 0 {
        SkipHeldKeep(deck, draw, rem, hand, i);
        rows := rows + [CardOdds(i + 1, held, remaining, 100.0, None, AlreadyInHand)];
        i := i + 1;
        continue;
      }
      var odds := CardChance(deck, remaining, draw);
      SkipHeldMultiply(deck, draw, rem, hand, i, combined, odds);
      rows := rows + [CardOdds(i + 1, held, remaining, odds * 100.0, None, Rated(odds))];
      combined := combined * odds;
      if odds < 0.5 {
        allFound := false;
      }
      i := i + 1;
    }
  }

  /** A held card gets an "already in hand" row and leaves the product and `allFound` as
      they were. */
  lemma SkipHeldKeep(deck: int, draw: int, rem: seq<int>, hand: seq<int>, i: int)
    requires i >= 0 && Held(hand, i)
    ensures SkipHeldProduct(deck, draw, rem, hand, i + 1) == SkipHeldProduct(deck, draw, rem, hand, i)
    ensures AllFound(deck, draw, rem, hand, i + 1) == AllFound(deck, draw, rem, hand, i)
    ensures SkipHeldRows(deck, draw, rem, hand, i + 1)
         == SkipHeldRows(deck, draw, rem, hand, i) + [CardOdds(i + 1, At(hand, i), At(rem, i), 100.0, None, AlreadyInHand)]
  {
    ProductAppend(SkipFactors(deck, draw, rem, hand, i), 1.0);
  }

  /** Any other card gets a row with its chance, multiplies that chance into the product,
      and clears `allFound` when it is below one half. */
  lemma SkipHeldMultiply(deck: int, draw: int, rem: seq<int>, hand: seq<int>, i: int, combined: real, odds: real)
    requires i >= 0 && !Held(hand, i)
    requires combined == SkipHeldProduct(deck, draw, rem, hand, i) && odds == Chance(deck, At(rem, i), draw)
    ensures SkipHeldProduct(deck, draw, rem, hand, i + 1) == combined * odds
    ensures AllFound(deck, draw, rem, hand, i + 1) == (AllFound(deck, draw, rem, hand, i) && !(odds < 0.5))
    ensures SkipHeldRows(deck, draw, rem, hand, i + 1)
         == SkipHeldRows(deck, draw, rem, hand, i) + [CardOdds(i + 1, At(hand, i), At(rem, i), odds * 100.0, None, Rated(odds))]
  {
    SkipProductStep(deck, draw, rem, hand, i, combined, odds);
    SkipFlagStep(deck, draw, rem, hand, i, odds);
    SkipRowStep(deck, draw, rem, hand, i, odds);
  }

  lemma SkipProductStep(deck: int, draw: int, rem: seq<int>, hand: seq<int>, i: int, combined: real, odds: real)
    requires i >= 0 && !Held(hand, i)
    requires combined == SkipHeldProduct(deck, draw, rem, hand, i) && odds == Chance(deck, At(rem, i), draw)
    ensures SkipHeldProduct(deck, draw, rem, hand, i + 1) == combined * odds
  {
    var fs := SkipFactors(deck, draw, rem, hand, i);
    assert SkipFactor(deck, draw, rem, hand, i) == odds;
    assert SkipFactors(deck, draw, rem, hand, i + 1) == fs + [odds];
    ProductAppend(fs, odds);
  }

  lemma SkipFlagStep(deck: int, draw: int, rem: seq<int>, hand: seq<int>, i: int, odds: real)
    requires i >= 0 && !Held(hand, i) && odds == Chance(deck, At(rem, i), draw)
    ensures AllFound(deck, draw, rem, hand, i + 1) == (AllFound(deck, draw, rem, hand, i) && !(odds < 0.5))
  {
  }

  lemma SkipRowStep(deck: int, draw: int, rem: seq<int>, hand: seq<int>, i: int, odds: real)
    requires i >= 0 && !Held(hand, i) && odds == Chance(deck, At(rem, i), draw)
    ensures SkipHeldRows(deck, draw, rem, hand, i + 1)
         == SkipHeldRows(deck, draw, rem, hand, i) + [CardOdds(i + 1, At(hand, i), At(rem, i), odds * 100.0, None, Rated(odds))]
  {
    assert SkipHeldRow(deck, draw, rem, hand, i) == CardOdds(i + 1, At(hand, i), At(rem, i), odds * 100.0, None, Rated(odds));
  }


  // ---------------------------------------------------------------------------
  // Mars: every tracked card is multiplied in; cards in hand are flagged.
  // ---------------------------------------------------------------------------

  /** The chances of the first n tracked cards. */
  function Chances(deck: int, draw: int, rem: seq<int>, n: int): (cs: seq<real>)
    ensures |cs| == (if n < 0 then 0 else n)
    decreases n
  {
    if n <= 0 then [] else Chances(deck, draw, rem, n - 1) + [Chance(deck, At(rem, n - 1), draw)]
  }

  lemma {:induction false} ChancesAt(deck: int, draw: int, rem: seq<int>, n: int)
    ensures forall i :: 0 <= i < n ==> Chances(deck, draw, rem, n)[i] == Chance(deck, At(rem, i), draw)
    ensures Probabilities(Chances(deck, draw, rem, n))
    decreases n
  {
    if n > 0 {
      ChancesAt(deck, draw, rem, n - 1);
    }
  }

  /** `marsOdds` after the first n cards: every card's chance, held or not. */
  function FullProduct(deck: int, draw: int, rem: seq<int>, n: int): real
  {
    Product(Chances(deck, draw, rem, n))
  }

  /** Each card multiplies its chance into the Mars product and gets a row that flags it
      as discarded exactly when it is held. The step is stated on the loop's own values:
      the card's `inHand` and `remainingInDeck` entries and its chance. */
  lemma FullStep(deck: int, draw: int, rem: seq<int>, hand: seq<int>, i: int,
                 held: Option<int>, remaining: Option<int>, product: real, odds: real)
    requires i >= 0 && held == At(hand, i) && remaining == At(rem, i)
    requires product == FullProduct(deck, draw, rem, i) && odds == Chance(deck, remaining, draw)
    ensures (held.Some? && held.value > 0) == Held(hand, i)
    ensures FullProduct(deck, draw, rem, i + 1) == product * odds
    ensures DiscardRows(deck, draw, rem, hand, i + 1)
         == DiscardRows(deck, draw, rem, hand, i)
            + [CardOdds(i + 1, held, remaining, odds * 100.0, Some(held.Some? && held.value > 0),
                        if held.Some? && held.value > 0 then WillDiscard else Rated(odds))]
  {
    FullProductStep(deck, draw, rem, i, product, odds);
    DiscardRowStep(deck, draw, rem, hand, i, held, remaining, odds);
  }

  lemma FullProductStep(deck: int, draw: int, rem: seq<int>, i: int, product: real, odds: real)
    requires i >= 0
    requires product == FullProduct(deck, draw, rem, i) && odds == Chance(deck, At(rem, i), draw)
    ensures FullProduct(deck, draw, rem, i + 1) == product * odds
  {
    var cs := Chances(deck, draw, rem, i);
    assert Chances(deck, draw, rem, i + 1) == cs + [odds];
    ProductAppend(cs, odds);
  }

  lemma DiscardRowStep(deck: int, draw: int, rem: seq<int>, hand: seq<int>, i: int,
                       held: Option<int>, remaining: Option<int>, odds: real)
    requires i >= 0 && held == At(hand, i) && remaining == At(rem, i) && odds == Chance(deck, remaining, draw)
    ensures DiscardRows(deck, draw, rem, hand, i + 1)
         == DiscardRows(deck, draw, rem, hand, i)
            + [CardOdds(i + 1, held, remaining, odds * 100.0, Some(held.Some? && held.value > 0),
                        if held.Some? && held.value > 0 then WillDiscard else Rated(odds))]
  {
    assert (held.Some? && held.value > 0) == Held(hand, i);
  }

  /** `anyCardsInHand` after the first n cards. */
  predicate AnyHeld(hand: seq<int>, n: int)
    decreases n
  {
    n > 0 && (AnyHeld(hand, n - 1) || Held(hand, n - 1))
  }

  /** `anyCardsInHand` is set exactly when some tracked card is in hand. */
  lemma {:induction false} AnyHeldMeans(hand: seq<int>, n: int)
    ensures AnyHeld(hand, n) <==> exists i :: 0 <= i < n && Held(hand, i)
    decreases n
  {
    if n > 0 {
      AnyHeldMeans(hand, n - 1);
    }
  }

  function DiscardRow(deck: int, draw: int, rem: seq<int>, hand: seq<int>, i: int): CardOdds
  {
    var c := Chance(deck, At(rem, i), draw);
    CardOdds(i + 1, At(hand, i), At(rem, i), c * 100.0, Some(Held(hand, i)),
             if Held(hand, i) then WillDiscard else Rated(c))
  }

  /** The Mars `cardOdds` list after the first n cards. */
  function DiscardRows(deck: int, draw: int, rem: seq<int>, hand: seq<int>, n: int): (rows: seq<CardOdds>)
    ensures |rows| == (if n < 0 then 0 else n)
    decreases n
  {
    if n <= 0 then [] else DiscardRows(deck, draw, rem, hand, n - 1) + [DiscardRow(deck, draw, rem, hand, n - 1)]
  }

  /** Row i of the Mars list describes card i, with `willDiscard` exactly when it is held. */
  lemma {:induction false} DiscardRowsAt(deck: int, draw: int, rem: seq<int>, hand: seq<int>, n: int)
    ensures forall i :: 0 <= i < n ==> DiscardRows(deck, draw, rem, hand, n)[i] == DiscardRow(deck, draw, rem, hand, i)
    decreases n
  {
    if n > 0 {
      DiscardRowsAt(deck, draw, rem, hand, n - 1);
    }
  }

  /** The first Mars loop: does the player hold any of the first `count` tracked cards? */
  method AnyCardsInHand(hand: seq<int>, count: int) returns (any: bool)
    ensures any == AnyHeld(hand, count)
  {
    any := false;
    var i := 0;
    while i < count
      invariant 0 <= i && (i <= count || i == 0)
      invariant any == AnyHeld(hand, i)
    {
      var held := At(hand, i);
      if held.Some? && held.value > 0 {
        any := true;
      }
      i := i + 1;
    }
  }

  /** The Mars loops over the first `count` tracked cards. The first loop only looks
      for a card in hand. The second multiplies every card's chance into the product
      and flags a held card as discarded. */
  method DiscardAwareOdds(deck: int, draw: int, rem: seq<int>, hand: seq<int>, count: int)
    returns (product: real, anyHeld: bool, rows: seq<CardOdds>)
    ensures product == FullProduct(deck, draw, rem, count)
    ensures anyHeld == AnyHeld(hand, count)
    ensures rows == DiscardRows(deck, draw, rem, hand, count)
  {
    anyHeld := AnyCardsInHand(hand, count);
    product, rows := 1.0, [];
    var i := 0;
    while i < count
      invariant 0 <= i && (i <= count || i == 0)
      invariant product == FullProduct(deck, draw, rem, i)
      invariant rows == DiscardRows(deck, draw, rem, hand, i)
    {
      var held := At(hand, i);
      var remaining := At(rem, i);
      var odds := CardChance(deck, remaining, draw);
      var discards := held.Some? && held.value > 0;
      FullStep(deck, draw, rem, hand, i, held, remaining, product, odds);
      rows := rows + [CardOdds(i + 1, held, remaining, odds * 100.0, Some(discards),
                               if discards then WillDiscard else Rated(odds))];
      product := product * odds;
      i := i + 1;
    }
  }

  // ---------------------------------------------------------------------------
  // What the combined probabilities say about the decisions.
  // ---------------------------------------------------------------------------

  /** Both combined probabilities are probabilities. */
  lemma ProductsInUnit(deck: int, draw: int, rem: seq<int>, hand: seq<int>, n: int)
    ensures 0.0 <= SkipHeldProduct(deck, draw, rem, hand, n) <= 1.0
    ensures 0.0 <= FullProduct(deck, draw, rem, n) <= 1.0
  {
    SkipFactorsAt(deck, draw, rem, hand, n);
    ChancesAt(deck, draw, rem, n);
    ProductInUnit(SkipFactors(deck, draw, rem, hand, n));
    ProductInUnit(Chances(deck, draw, rem, n));
  }

  /** Iono's rule `combinedOdds > 0.5 || allCardsFound` comes down to `allCardsFound`:
      a card below one half caps the product below one half. */
  lemma SkipHeldDecision(deck: int, draw: int, rem: seq<int>, hand: seq<int>, n: int)
    ensures (SkipHeldProduct(deck, draw, rem, hand, n) > 0.5 || AllFound(deck, draw, rem, hand, n))
         == AllFound(deck, draw, rem, hand, n)
  {
    AllFoundMeans(deck, draw, rem, hand, n);
    if !AllFound(deck, draw, rem, hand, n) {
      var i :| 0 <= i < n && !Held(hand, i) && Chance(deck, At(rem, i), draw) < 0.5;
      SkipFactorsAt(deck, draw, rem, hand, n);
      ProductBelowEach(SkipFactors(deck, draw, rem, hand, n), i);
    }
  }

  /** When every tracked card is already in hand, the Iono product is 1 and all are found. */
  lemma AllHeldIsCertain(deck: int, draw: int, rem: seq<int>, hand: seq<int>, n: int)
    requires forall i :: 0 <= i < n ==> Held(hand, i)
    ensures SkipHeldProduct(deck, draw, rem, hand, n) == 1.0
    ensures AllFound(deck, draw, rem, hand, n)
  {
    SkipFactorsAt(deck, draw, rem, hand, n);
    ProductOfOnes(SkipFactors(deck, draw, rem, hand, n));
    AllFoundMeans(deck, draw, rem, hand, n);
  }

  /** A card outside the hand that cannot be drawn zeroes the Iono product and is not found. */
  lemma SkipHeldZero(deck: int, draw: int, rem: seq<int>, hand: seq<int>, i: int, n: int)
    requires 0 <= i < n && !Held(hand, i) && Chance(deck, At(rem, i), draw) == 0.0
    ensures SkipHeldProduct(deck, draw, rem, hand, n) == 0.0
    ensures !AllFound(deck, draw, rem, hand, n)
  {
    var fs := SkipFactors(deck, draw, rem, hand, n);
    SkipFactorsAt(deck, draw, rem, hand, n);
    AllFoundMeans(deck, draw, rem, hand, n);
    ProductBelowEach(fs, i);
    ProductInUnit(fs);
  }

  /** A Mars product above threshold t puts every single card's chance above t. */
  lemma FullAboveThreshold(deck: int, draw: int, rem: seq<int>, n: int, t: real)
    requires FullProduct(deck, draw, rem, n) > t
    ensures forall i :: 0 <= i < n ==> Chance(deck, At(rem, i), draw) > t
  {
    var cs := Chances(deck, draw, rem, n);
    ChancesAt(deck, draw, rem, n);
    forall i | 0 <= i < n
      ensures Chance(deck, At(rem, i), draw) > t
    {
      ProductBelowEach(cs, i);
    }
  }

  /** For the same draw, multiplying in every card (Mars) never beats skipping held cards (Iono). */
  lemma FullBelowSkipHeld(deck: int, draw: int, rem: seq<int>, hand: seq<int>, n: int)
    ensures FullProduct(deck, draw, rem, n) <= SkipHeldProduct(deck, draw, rem, hand, n)
  {
    SkipFactorsAt(deck, draw, rem, hand, n);
    ChancesAt(deck, draw, rem, n);
    ProductPointwise(Chances(deck, draw, rem, n), SkipFactors(deck, draw, rem, hand, n));
  }
}
