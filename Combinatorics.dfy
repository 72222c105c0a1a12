/**
 * Factorial and binomial coefficients, as computed by the calculation
 * utilities (`factorial` and `combination`).
 */
module Combinatorics {

  /** n! as the source computes it: 1 for every n <= 1 (negative n included, where
      the accumulator loop never runs), n * (n-1)! above. */
  function Fact(n: int): (r: int)
    ensures r >= 1
    decreases n
  {
    if n <= 1 then 1 else n * Fact(n - 1)
  }

  /** The accumulator loop: returns 1 at once for 0 and 1, otherwise multiplies 2..n. */
  method Factorial(n: int) returns (result: int)
    ensures result == Fact(n)
    ensures result >= 1
  {
    if n == 0 || n == 1 {
      return 1;
    }
    result := 1;
    var i := 2;
    while i <= n
      invariant 2 <= i && (i <= n + 1 || i == 2)
      invariant result == Fact(i - 1)
    {
      result := result * i;
      i := i + 1;
    }
  }

  lemma FactStep(m: int)
    requires m >= 1
    ensures Fact(m) == m * Fact(m - 1)
  {
  }

  /** Pascal's triangle: the reference definition of "n choose k", zero outside 0 <= k <= n. */
  function Binom(n: int, k: int): nat
    decreases n
  {
    if k < 0 || k > n then 0
    else if k == 0 || k == n then 1
    else Binom(n - 1, k - 1) + Binom(n - 1, k)
  }

  /** Pascal's rule holds for every k once n >= 1, including the edges of the triangle. */
  lemma BinomPascal(n: int, k: int)
    requires n >= 1
    ensures Binom(n, k) == Binom(n - 1, k - 1) + Binom(n - 1, k)
  {
  }

  lemma {:induction false} BinomPositive(n: int, k: int)
    requires 0 <= k <= n
    ensures Binom(n, k) >= 1
    decreases n
  {
    if 0 < k < n {
      BinomPositive(n - 1, k);
    }
  }

  lemma {:induction false} BinomSymmetric(n: int, k: int)
    ensures Binom(n, k) == Binom(n, n - k)
    decreases n
  {
    if 0 < k < n {
      BinomSymmetric(n - 1, k - 1);
      BinomSymmetric(n - 1, k);
      BinomPascal(n, n - k);
    }
  }

  /** k! * (n-k)! * C(n, k) == n!: the factorial formula agrees with Pascal's triangle. */
  lemma {:induction false} FactorialSplit(n: int, k: int)
    requires 0 <= k <= n
    ensures Binom(n, k) * (Fact(k) * Fact(n - k)) == Fact(n)
    decreases n
  {
    if 0 < k < n {
      FactorialSplit(n - 1, k - 1);
      FactorialSplit(n - 1, k);
      FactStep(k);
      FactStep(n - k);
      FactStep(n);
      BinomPascal(n, k);
      PascalStep(Binom(n - 1, k - 1), Binom(n - 1, k), Fact(n - 1), n, k,
                 Fact(k - 1), Fact(n - k - 1), Fact(k), Fact(n - k));
    }
  }

  /** The arithmetic of one Pascal step: if a*(k-1)!*(n-k)! and b*k!*(n-k-1)! are both
      (n-1)!, then (a+b)*k!*(n-k)! is n*(n-1)!. */
  lemma PascalStep(a: int, b: int, f: int, n: int, k: int, fk: int, fnk: int, x: int, y: int)
    requires x == k * fk && y == (n - k) * fnk
    requires a * (fk * y) == f && b * (x * fnk) == f
    ensures (a + b) * (x * y) == n * f
  {
    calc {
      (a + b) * (x * y);
      a * (x * y) + b * (x * y);
      { Regroup(a, k, fk, y); Regroup'(b, x, n - k, fnk); }
      k * (a * (fk * y)) + (n - k) * (b * (x * fnk));
      k * f + (n - k) * f;
      n * f;
    }
  }

  lemma Regroup(a: int, k: int, u: int, v: int)
    ensures a * ((k * u) * v) == k * (a * (u * v))
  {
  }

  lemma Regroup'(b: int, x: int, m: int, w: int)
    ensures b * (x * (m * w)) == m * (b * (x * w))
  {
  }

  lemma ExactQuotient(b: int, d: int)
    requires d > 0
    ensures ((b * d) as real) / (d as real) == b as real
  {
  }

  /** `combination(n, k)`: 0 outside the triangle, 1 on its edges, n!/(k!(n-k)!) inside,
      with the three factorials computed by the accumulator loop. The quotient is always
      the whole number C(n, k), and the factorial formula also holds on the edges. */
  method Combination(n: int, k: int) returns (r: real)
    ensures r == Binom(n, k) as real
    ensures k < 0 || k > n ==> r == 0.0
    ensures 0 <= k <= n ==> r >= 1.0 && r == (Fact(n) as real) / ((Fact(k) * Fact(n - k)) as real)
  {
    if k < 0 || k > n {
      return 0.0;
    }
    FactorialSplit(n, k);
    BinomPositive(n, k);
    ExactQuotient(Binom(n, k), Fact(k) * Fact(n - k));
    if k == 0 || k == n {
      return 1.0;
    }
    var fn := Factorial(n);
    var fk := Factorial(k);
    var fnk := Factorial(n - k);
    r := (fn as real) / ((fk * fnk) as real);
  }

  /** k * C(n, k) == n * C(n-1, k-1). */
  lemma BinomAbsorption(n: int, k: int)
    requires 1 <= k <= n
    ensures k * Binom(n, k) == n * Binom(n - 1, k - 1)
  {
    FactorialSplit(n, k);
    FactorialSplit(n - 1, k - 1);
    FactStep(k);
    FactStep(n);
    AbsorptionStep(Binom(n, k), Binom(n - 1, k - 1), n, k, Fact(k - 1), Fact(n - k), Fact(k), Fact(n), Fact(n - 1));
  }

  lemma AbsorptionStep(c: int, c': int, n: int, k: int, fk: int, fnk: int, x: int, fn: int, fn': int)
    requires fk >= 1 && fnk >= 1
    requires x == k * fk && fn == n * fn'
    requires c * (x * fnk) == fn && c' * (fk * fnk) == fn'
    ensures k * c == n * c'
  {
    var d := fk * fnk;
    assert d >= 1;
    calc {
      (k * c) * d;
      { Regroup(c, k, fk, fnk); }
      c * (x * fnk);
      n * (c' * d);
      (n * c') * d;
    }
    MulCancel(k * c, n * c', d);
  }

  lemma MulCancel(x: int, y: int, c: int)
    requires c > 0 && x * c == y * c
    ensures x == y
  {
  }

  lemma FactorialExamples()
    ensures Fact(0) == 1 && Fact(1) == 1 && Fact(5) == 120
  {
  }
}
