/** Arithmetic facts shared by the layout, the renderer and the frame script. */
module Arith {

  function Max(a: int, b: int): int { if a < b then b else a }
  function Min(a: int, b: int): int { if a < b then a else b }

  /** Multiplying by a non-negative factor keeps the order. */
  lemma MulMono(a: int, b: int, c: nat)
    requires a <= b
    ensures a * c <= b * c
  {
    assert b * c - a * c == (b - a) * c;
  }

  /** `d / s == g` exactly when `d` lies in the g-th block of width s. */
  lemma DivBlock(d: int, g: int, s: int)
    requires s > 0
    ensures g * s <= d < g * s + s <==> d / s == g
  {
    var q, r := d / s, d % s;
    assert d == q * s + r;
    if g * s <= d < g * s + s {
      if q < g { MulMono(q + 1, g, s); }
      if g < q { MulMono(g + 1, q, s); }
    }
  }

  /** A remainder by a larger modulus leaves a non-negative number as it is. */
  lemma ModSmall(a: int, b: int)
    requires 0 <= a < b
    ensures a % b == a
  {
  }

  /** A fraction in [0, 1) of `n` lies in [0, n), and below `n` when `n > 0`. */
  lemma {:induction false} FractionBelow(r: real, n: nat)
    requires 0.0 <= r < 1.0
    ensures 0.0 <= r * n as real
    ensures n > 0 ==> r * n as real < n as real
  {
    if n > 0 {
      FractionBelow(r, n - 1);
      assert r * n as real == r * (n - 1) as real + r;
    }
  }

  /** `Math.floor(r * n)` for `r` in [0, 1) is an index below `n`. */
  lemma FloorIndex(r: real, n: nat)
    requires 0.0 <= r < 1.0 && n > 0
    ensures 0 <= (r * n as real).Floor < n
  {
    FractionBelow(r, n);
    FloorBelow(r * n as real, n);
  }

  /** The floor of a real in [0, n) is an integer in [0, n). */
  lemma FloorBelow(x: real, n: nat)
    requires 0.0 <= x < n as real
    ensures 0 <= x.Floor < n
  {
    assert x.Floor as real <= x < x.Floor as real + 1.0;
  }
}
