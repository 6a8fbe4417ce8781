/** Facts about multiplication, division and remainder that the solver
    does not find on its own. */
module Arith {
  lemma MulAssoc(x: int, y: int, z: int)
    ensures x * (y * z) == (x * y) * z
  {
  }

  lemma MulAtLeast(x: int, d: int)
    requires x >= 1 && d > 0
    ensures x * d >= d
  {
  }

  lemma MulMonotone(a: nat, b: nat, d: nat)
    requires a <= b
    ensures a * d <= b * d
  {
    assert b * d - a * d == (b - a) * d;
  }

  /** A multiple of d leaves no remainder. */
  lemma MultipleMod(k: nat, d: nat)
    requires d > 0
    ensures (k * d) % d == 0
  {
    var q, r := (k * d) / d, (k * d) % d;
    assert (k - q) * d == r;
    if k - q >= 1 {
      MulAtLeast(k - q, d);
    } else if k - q <= -1 {
      MulAtLeast(q - k, d);
    }
  }

  lemma DivMonotone(x: nat, y: nat, d: nat)
    requires x <= y && d > 0
    ensures x / d <= y / d
  {
    var qx, qy := x / d, y / d;
    if qx > qy {
      MulMonotone(qy + 1, qx, d);
    }
  }
}
