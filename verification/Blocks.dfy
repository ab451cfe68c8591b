/** Division by a block size. */
module Blocks {

  function CeilDiv(a: nat, b: nat): nat
    requires b > 0
  {
    (a + b - 1) / b
  }

  function Min(a: nat, b: nat): nat {
    if a < b then a else b
  }

  lemma {:induction false} DivUnique(x: int, b: int, k: int, r: int)
    requires b > 0 && 0 <= r < b && x == k * b + r
    ensures x / b == k && x % b == r
  {
    var q, m := x / b, x % b;
    assert x == q * b + m;
    assert (q - k) * b == r - m;
    if q > k {
      MulAtLeast(q - k, b);
    } else if q < k {
      MulAtLeast(k - q, b);
    }
  }

  lemma {:induction false} MulAtLeast(j: int, b: int)
    requires j >= 1 && b > 0
    ensures j * b >= b
  {
  }

  /** `CeilDiv(a, b)` blocks are the fewest that hold `a`. */
  lemma {:induction false} CeilDivBounds(a: nat, b: nat)
    requires b > 0
    ensures a <= CeilDiv(a, b) * b < a + b
  {
    var q := (a + b - 1) / b;
    assert a + b - 1 == q * b + (a + b - 1) % b;
  }

  /** The block of the last of `a` positions. */
  lemma {:induction false} LastBlock(a: nat, b: nat)
    requires b > 0 && a > 0
    ensures CeilDiv(a, b) - 1 == (a - 1) / b
  {
    var q, r := (a - 1) / b, (a - 1) % b;
    assert a - 1 == q * b + r;
    assert a + b - 1 == (q + 1) * b + r;
    DivUnique(a + b - 1, b, q + 1, r);
  }
}
