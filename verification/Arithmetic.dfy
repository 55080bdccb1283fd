/** 32-bit unsigned arithmetic and division, shared by the other modules. */
module Arithmetic {

  const U32: nat := 0x1_0000_0000

  /** Quotient and remainder are unique. */
  lemma DivIs(x: int, n: int, q: int, r: int)
    requires 0 <= r < n && x == q * n + r
    ensures x / n == q && x % n == r
  {
    var d := x / n - q;
    assert d * n == r - x % n;
    assert d > 0 ==> d * n >= n;
    assert d < 0 ==> d * n <= 0 - n;
  }

  /** A whole turn makes no difference. */
  lemma Round(x: int, n: int)
    requires n > 0
    ensures (x + n) % n == x % n
  {
    DivIs(x + n, n, x / n + 1, x % n);
  }

  /** Wrapping early makes no difference. */
  lemma WrapEarly(a: int, b: int)
    ensures (a % U32 + b) % U32 == (a + b) % U32
  {
    DivIs(a + b, U32, a / U32 + (a % U32 + b) / U32, (a % U32 + b) % U32);
  }
}
