/**
 * The hypergeometric tail used by every per-card calculator: the probability of
 * drawing at least `minSuccesses` copies of a target when `sampleSize` cards are
 * drawn without replacement from `population` cards holding `successes` copies.
 */
module Hypergeometric {
  import opened Combinatorics

  function Min(a: int, b: int): int
  {
    if a <= b then a else b
  }

  /** Sum over i in [lo, hi] of C(s, i) * C(q, n - i): the number of n-card hands,
      drawn from s targets and q other cards, that hold exactly i targets. */
  function Ways(s: int, q: int, n: int, lo: int, hi: int): int
    decreases hi - lo
  {
    if hi < lo then 0 else Ways(s, q, n, lo, hi - 1) + Binom(s, hi) * Binom(q, n - hi)
  }

  /** True when one of the four input guards makes the probability 0 outright. */
  predicate Degenerate(population: int, successes: int, sampleSize: int, minSuccesses: int)
  {
    sampleSize > population || successes > population || minSuccesses > successes || minSuccesses > sampleSize
  }

  /** The value `hypergeometricProbability` returns: past the guards, the share of all
      C(p, n) hands that hold between minSuccesses and min(s, n) targets. */
  function HyperTail(population: int, successes: int, sampleSize: int, minSuccesses: int): real
    requires minSuccesses >= 0
  {
    if Degenerate(population, successes, sampleSize, minSuccesses) then 0.0
    else
      var p, s, n := population, successes, sampleSize;
      BinomPositive(p, n);
      (Ways(s, p - s, n, minSuccesses, Min(s, n)) as real) / (Binom(p, n) as real)
  }

  method HypergeometricProbability(population: int, successes: int, sampleSize: int, minSuccesses: int)
    returns (probability: real)
    requires minSuccesses >= 0
    ensures probability == HyperTail(population, successes, sampleSize, minSuccesses)
    ensures Degenerate(population, successes, sampleSize, minSuccesses) ==> probability == 0.0
    ensures 0.0 <= probability <= 1.0
  {
    HyperTailBounds(population, successes, sampleSize, minSuccesses);
    if sampleSize > population { return 0.0; }
    if successes > population { return 0.0; }
    if minSuccesses > successes { return 0.0; }
    if minSuccesses > sampleSize { return 0.0; }

    ghost var q, total := population - successes, Binom(population, sampleSize) as real;
    BinomPositive(population, sampleSize);
    probability := 0.0;
    var i := minSuccesses;
    while i <= Min(successes, sampleSize)
      invariant minSuccesses <= i <= Min(successes, sampleSize) + 1
      invariant probability == (Ways(successes, q, sampleSize, minSuccesses, i - 1) as real) / total
      decreases Min(successes, sampleSize) - i
    {
      var hits := Combination(successes, i);
      var misses := Combination(population - successes, sampleSize - i);
      var numerator := hits * misses;
      var denominator := Combination(population, sampleSize);
      TailStep(probability, Ways(successes, q, sampleSize, minSuccesses, i - 1),
               hits, misses, Binom(successes, i), Binom(q, sampleSize - i), total);
      probability := probability + numerator / denominator;
      i := i + 1;
    }
  }

  lemma {:induction false} WaysNonNegative(s: int, q: int, n: int, lo: int, hi: int)
    ensures Ways(s, q, n, lo, hi) >= 0
    decreases hi - lo
  {
    if hi >= lo {
      WaysNonNegative(s, q, n, lo, hi - 1);
      ProductNonNegative(Binom(s, hi), Binom(q, n - hi));
    }
  }

  lemma ProductNonNegative(x: int, y: int)
    requires x >= 0 && y >= 0
    ensures x * y >= 0
  {
  }

  lemma Distribute(x: int, y: int, c: int)
    ensures (x + y) * c == x * c + y * c
  {
  }

  lemma CastProduct(x: int, y: int)
    ensures (x * y) as real == (x as real) * (y as real)
  {
  }

  /** One step of the running sum, with every quantity passed in as a plain number. */
  lemma TailStep(prev: real, w: int, cs: real, cq: real, x: int, y: int, d: real)
    requires d != 0.0 && prev == (w as real) / d
    requires cs == x as real && cq == y as real
    ensures prev + cs * cq / d == ((w + x * y) as real) / d
  {
    CastProduct(x, y);
    AddQuotients(w as real, (x * y) as real, d);
  }

  lemma AddQuotients(w: real, t: real, d: real)
    requires d != 0.0
    ensures w / d + t / d == (w + t) / d
  {
  }

  /** Peeling the lowest term off the sum. */
  lemma {:induction false} WaysSplitLow(s: int, q: int, n: int, lo: int, hi: int)
    requires lo <= hi
    ensures Ways(s, q, n, lo, hi) == Binom(s, lo) * Binom(q, n - lo) + Ways(s, q, n, lo + 1, hi)
    decreases hi - lo
  {
    if lo < hi {
      WaysSplitLow(s, q, n, lo, hi - 1);
    }
  }

  lemma {:induction false} WaysGrowHigh(s: int, q: int, n: int, lo: int, hi: int, hi': int)
    requires hi <= hi'
    ensures Ways(s, q, n, lo, hi) <= Ways(s, q, n, lo, hi')
    decreases hi' - hi
  {
    if hi < hi' {
      WaysGrowHigh(s, q, n, lo, hi, hi' - 1);
      if lo <= hi' {
        ProductNonNegative(Binom(s, hi'), Binom(q, n - hi'));
      }
    }
  }

  lemma {:induction false} WaysGrowLow(s: int, q: int, n: int, lo': int, lo: int, hi: int)
    requires lo' <= lo
    ensures Ways(s, q, n, lo, hi) <= Ways(s, q, n, lo', hi)
    decreases lo - lo'
  {
    if lo' < lo {
      WaysGrowLow(s, q, n, lo' + 1, lo, hi);
      if lo' <= hi {
        WaysSplitLow(s, q, n, lo', hi);
        ProductNonNegative(Binom(s, lo'), Binom(q, n - lo'));
      }
    }
  }

  /** Terms with more targets than exist vanish. */
  lemma {:induction false} WaysBeyondTargets(s: int, q: int, n: int, lo: int, hi: int)
    requires s <= hi
    ensures Ways(s, q, n, lo, hi) == Ways(s, q, n, lo, s)
    decreases hi - s
  {
    if s < hi {
      WaysBeyondTargets(s, q, n, lo, hi - 1);
    }
  }

  /** Pascal's rule on the targets, lifted to the whole sum. */
  lemma {:induction false} WaysPascal(s: int, q: int, n: int, lo: int, hi: int)
    requires s >= 0
    ensures Ways(s + 1, q, n, lo, hi) == Ways(s, q, n, lo, hi) + Ways(s, q, n - 1, lo - 1, hi - 1)
    decreases hi - lo
  {
    if lo <= hi {
      WaysPascal(s, q, n, lo, hi - 1);
      BinomPascal(s + 1, hi);
      assert (n - 1) - (hi - 1) == n - hi;
      Distribute(Binom(s, hi), Binom(s, hi - 1), Binom(q, n - hi));
    }
  }

  lemma {:induction false} WaysNoTargets(q: int, n: int, hi: int)
    requires hi >= 0
    ensures Ways(0, q, n, 0, hi) == Binom(q, n)
    decreases hi
  {
    if hi > 0 {
      WaysNoTargets(q, n, hi - 1);
    }
  }

  /** Vandermonde's identity: summing over how many targets an n-card hand holds
      counts every n-card hand of the s + q cards exactly once. */
  lemma {:induction false} Vandermonde(s: int, q: int, n: int)
    requires s >= 0 && q >= 0
    ensures Ways(s, q, n, 0, n) == Binom(s + q, n)
    decreases s
  {
    if n < 0 {
    } else if s == 0 {
      WaysNoTargets(q, n, n);
    } else {
      var t := s - 1;
      WaysPascal(t, q, n, 0, n);
      WaysSplitLow(t, q, n - 1, -1, n - 1);
      Vandermonde(t, q, n);
      Vandermonde(t, q, n - 1);
      BinomPascal(s + q, n);
    }
  }

  /** Past the guards, the sum counts a subset of all n-card hands, so it is a probability. */
  lemma HyperTailBounds(population: int, successes: int, sampleSize: int, minSuccesses: int)
    requires minSuccesses >= 0
    ensures 0.0 <= HyperTail(population, successes, sampleSize, minSuccesses) <= 1.0
  {
    if !Degenerate(population, successes, sampleSize, minSuccesses) {
      var p, s, n, m := population, successes, sampleSize, minSuccesses;
      var top := Min(s, n);
      BinomPositive(p, n);
      WaysNonNegative(s, p - s, n, m, top);
      WaysGrowLow(s, p - s, n, 0, m, top);
      WaysGrowHigh(s, p - s, n, 0, top, n);
      Vandermonde(s, p - s, n);
      QuotientBounds(Ways(s, p - s, n, m, top) as real, Binom(p, n) as real);
    }
  }

  lemma QuotientBounds(w: real, d: real)
    requires 0.0 <= w <= d && d > 0.0
    ensures 0.0 <= w / d <= 1.0
  {
  }

  lemma SelfQuotient(d: real)
    requires d != 0.0
    ensures d / d == 1.0
  {
  }

  lemma ComplementQuotient(w: real, z: real, d: real)
    requires d != 0.0 && w == d - z
    ensures w / d == 1.0 - z / d
  {
    var a, b := w / d, z / d;
    assert a * d == w;
    assert b * d == z;
    assert (a + b - 1.0) * d == 0.0;
    ZeroProduct(a + b - 1.0, d);
  }

  lemma ZeroProduct(x: real, d: real)
    requires x * d == 0.0 && d != 0.0
    ensures x == 0.0
  {
  }

  /** Drawing at least zero targets is certain whenever the guards pass. */
  lemma AtLeastNoneIsCertain(population: int, successes: int, sampleSize: int)
    requires 0 <= successes <= population && 0 <= sampleSize <= population
    ensures HyperTail(population, successes, sampleSize, 0) == 1.0
  {
    var p, s, n := population, successes, sampleSize;
    BinomPositive(p, n);
    if s < n {
      WaysBeyondTargets(s, p - s, n, 0, n);
    }
    Vandermonde(s, p - s, n);
    SelfQuotient(Binom(p, n) as real);
  }

  /** At least one target is the complement of drawing none: 1 - C(p-s, n) / C(p, n). */
  lemma AtLeastOneIsComplement(population: int, successes: int, sampleSize: int)
    requires 1 <= successes <= population && 1 <= sampleSize <= population
    ensures Binom(population, sampleSize) > 0
    ensures HyperTail(population, successes, sampleSize, 1)
         == 1.0 - (Binom(population - successes, sampleSize) as real) / (Binom(population, sampleSize) as real)
  {
    var p, s, n := population, successes, sampleSize;
    var top := Min(s, n);
    BinomPositive(p, n);
    if s < n {
      WaysBeyondTargets(s, p - s, n, 0, n);
    }
    WaysSplitLow(s, p - s, n, 0, top);
    Vandermonde(s, p - s, n);
    assert Ways(s, p - s, n, 1, top) == Binom(p, n) - Binom(p - s, n);
    ComplementQuotient(Ways(s, p - s, n, 1, top) as real, Binom(p - s, n) as real, Binom(p, n) as real);
  }

  /** With a single copy in the population, the chance of drawing it is n / p. */
  lemma SingleCopyChance(population: int, sampleSize: int)
    requires 1 <= sampleSize <= population
    ensures HyperTail(population, 1, sampleSize, 1) == (sampleSize as real) / (population as real)
  {
    var p, n := population, sampleSize;
    assert Ways(1, p - 1, n, 1, 1) == Binom(p - 1, n - 1);
    BinomAbsorption(p, n);
    BinomPositive(p, n);
    CrossRatio(Binom(p - 1, n - 1), Binom(p, n), n, p);
  }

  /** Two copies among 20 cards, drawing 7: at least one turns up with probability
      1 - C(18,7)/C(20,7) = 1 - 31824/77520, which is exactly 56/95 (about 0.5895).
      The arguments are pinned by the precondition rather than written as literals, so
      that the verifier does not unfold `Binom` on constant arguments. */
  lemma TwoCopiesInTwenty(population: int, successes: int, sampleSize: int)
    requires population == 20 && successes == 2 && sampleSize == 7
    ensures HyperTail(population, successes, sampleSize, 1) == 56.0 / 95.0
  {
    AtLeastOneIsComplement(population, successes, sampleSize);
    NoTargetInTwenty(population, successes, sampleSize);
  }

  /** C(18, 7) / C(20, 7) = 39/95: the chance that the 7 cards miss both copies.
      The arguments are pinned by the precondition rather than written as literals, so
      that the verifier does not unfold `Binom` on constant arguments. */
  lemma NoTargetInTwenty(population: int, successes: int, sampleSize: int)
    requires population == 20 && successes == 2 && sampleSize == 7
    ensures 1.0 - (Binom(population - successes, sampleSize) as real) / (Binom(population, sampleSize) as real) == 56.0 / 95.0
  {
    EighteenChooseSeven(population - successes, sampleSize);
    TwentyChooseSeven(population, sampleSize);
    ComplementValue(Binom(population - successes, sampleSize), Binom(population, sampleSize));
  }

  /** C(18, 7) = 31824, with the arguments pinned by the precondition so that the
      verifier does not unfold `Binom` on constant arguments. */
  lemma EighteenChooseSeven(n: int, k: int)
    requires n == 18 && k == 7
    ensures Binom(n, k) == 31824
  {
    FactorialValues();
    assert n - k == 11;
    FactorialSplit(n, k);
    BinomFromFactorials(Binom(n, k), Fact(k), Fact(n - k), Fact(n), 5040, 39916800, 6402373705728000, 31824);
  }

  /** C(20, 7) = 77520, with the arguments pinned as above. */
  lemma TwentyChooseSeven(n: int, k: int)
    requires n == 20 && k == 7
    ensures Binom(n, k) == 77520
  {
    FactorialValues();
    assert n - k == 13;
    FactorialSplit(n, k);
    BinomFromFactorials(Binom(n, k), Fact(k), Fact(n - k), Fact(n), 5040, 6227020800, 2432902008176640000, 77520);
  }

  /** Reading C(n, k) off k! (n-k)! C(n, k) = n! once the factorials are known numbers. */
  lemma BinomFromFactorials(b: int, x: int, y: int, t: int, xv: int, yv: int, tv: int, bv: int)
    requires b * (x * y) == t && x == xv && y == yv && t == tv
    requires xv * yv > 0 && bv * (xv * yv) == tv
    ensures b == bv
  {
    MulCancel(b, bv, xv * yv);
  }

  lemma ComplementValue(z: int, d: int)
    requires z == 31824 && d == 77520
    ensures 1.0 - (z as real) / (d as real) == 56.0 / 95.0
  {
    assert (z as real) / (d as real) == 31824.0 / 77520.0;
  }

  lemma FactorialValues()
    ensures Fact(7) == 5040 && Fact(11) == 39916800 && Fact(13) == 6227020800
    ensures Fact(18) == 6402373705728000 && Fact(20) == 2432902008176640000
  {
  }

  lemma CrossRatio(c: int, a: int, n: int, p: int)
    requires a > 0 && p > 0 && n * a == p * c
    ensures (c as real) / (a as real) == (n as real) / (p as real)
  {
    CastProduct(n, a);
    CastProduct(p, c);
  }
}
