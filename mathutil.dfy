/** Integer helpers shared by the model: powers of two and PHP's shift operators. */
module MathUtil {

  /** 2^n, the value of PHP's `1 << n` for the shift widths the model admits. */
  function Pow2(n: nat): (r: nat)
    ensures r >= 1
  {
    if n == 0 then 1 else 2 * Pow2(n - 1)
  }

  /** PHP's arithmetic `v >> 8`: rounds toward negative infinity, also for negative `v`. */
  function Shr8(v: int): (r: int)
    ensures r * 256 <= v < r * 256 + 256
  {
    v / 256
  }

  /** PHP's arithmetic `v >> 1`: rounds toward negative infinity. */
  function Shr1(v: int): (r: int)
    ensures 2 * r <= v < 2 * r + 2
  {
    v / 2
  }

  function Min(a: int, b: int): int {
    if a <= b then a else b
  }

  function Max(a: int, b: int): int {
    if a >= b then a else b
  }

  lemma {:induction false} Pow2Add(a: nat, b: nat)
    ensures Pow2(a + b) == Pow2(a) * Pow2(b)
  {
    if a > 0 {
      Pow2Add(a - 1, b);
      calc {
        Pow2(a + b);
        2 * Pow2(a - 1 + b);
        2 * (Pow2(a - 1) * Pow2(b));
        (2 * Pow2(a - 1)) * Pow2(b);
      }
    }
  }

  /**
   * `n` blocks of `size` laid end to end. Lengths and offsets of the model are stated with it
   * rather than with a product of two variables, which keeps the solver's arithmetic linear.
   */
  function Times(n: nat, size: nat): nat {
    if n == 0 then 0 else Times(n - 1, size) + size
  }

  lemma {:induction false} TimesFormula(n: nat, size: nat)
    ensures Times(n, size) == n * size
  {
    if n > 0 {
      TimesFormula(n - 1, size);
    }
  }

  lemma {:induction false} TimesMono(a: nat, b: nat, size: nat)
    requires a <= b
    ensures Times(a, size) <= Times(b, size)
    decreases b
  {
    if a < b {
      TimesMono(a, b - 1, size);
    }
  }

  /** Products of naturals are monotone; stated once so that callers avoid nonlinear reasoning. */
  lemma MulMono(a: int, b: int, c: int)
    requires 0 <= c && a <= b
    ensures a * c <= b * c
  {
  }

  /** Doubling one factor of a product, stated once for callers whose context is large. */
  lemma DoubleFactor(a: int, r: int)
    ensures ((2 * a + 1) + 1) * r == (a + 1) * (2 * r)
  {
  }
}
