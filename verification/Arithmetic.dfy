/** Integer arithmetic that several modules use. */
module Arithmetic {
  function CeilDiv(x: nat, g: nat): nat
    requires g > 0
  {
    (x + g - 1) / g
  }

  lemma {:induction false} CeilDivBounds(x: nat, g: nat)
    requires g > 0
    ensures x <= CeilDiv(x, g) * g < x + g
  {
  }

  lemma {:induction false} MulLess(a: int, b: int, g: nat)
    ensures a < b ==> a * g + g <= b * g
    decreases b - a
  {
    if a < b {
      MulLess(a, b - 1, g);
      assert b * g == (b - 1) * g + g;
    }
  }
}
