/** Multiplication and division, one fact at a time. */
module Arithmetic {

  function Times(a: nat, b: nat): nat { a * b }

  lemma Euclid(x: nat, c: nat)
    requires c > 0
    ensures x == x / c * c + x % c
  {
  }

  lemma DivMod(x: int, q: int, r: nat, c: nat)
    requires r < c && x == q * c + r
    ensures x / c == q && x % c == r
  {
    var d := x / c - q;
    assert x == x / c * c + x % c;
    assert d * c == x / c * c - q * c;
    assert d * c == r - x % c;
  }

  /** Whole multiples do not change the remainder. */
  lemma SameRemainder(x: int, d: int, c: nat)
    requires c > 0
    ensures (x + d * c) % c == x % c
  {
    assert x == x / c * c + x % c;
    assert x + d * c == (x / c + d) * c + x % c;
    DivMod(x + d * c, x / c + d, x % c, c);
  }

  lemma AtMost(a: nat, b: nat, factor: nat)
    requires a <= b
    ensures a * factor <= b * factor
  {
    assert b * factor == a * factor + (b - a) * factor;
    assert (b - a) * factor >= 0;
  }

  lemma Distribute(a: nat, b: nat, factor: nat)
    ensures (a + b) * factor == a * factor + b * factor
  {
  }

  lemma Regroup(n: nat, pageSize: nat)
    ensures n * (pageSize * 4) == n * pageSize * 4
  {
  }
}
