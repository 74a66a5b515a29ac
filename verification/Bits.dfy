/** Python's bit operators on unbounded integers, and powers of two. */
module Bits {

  function Pow2(n: nat): (p: nat)
    ensures p >= 1
  {
    if n == 0 then 1 else 2 * Pow2(n - 1)
  }

  /** a & b for a non-negative b; a negative a is an infinite row of ones to the left. */
  function And(a: int, b: nat): (r: nat)
    decreases b, a
  {
    if b == 0 then 0 else 2 * And(a / 2, b / 2) + if b % 2 == 1 then a % 2 else 0
  }

  /** a | b for a non-negative b. */
  function Or(a: int, b: nat): int
    decreases b, a
  {
    if b == 0 then a else 2 * Or(a / 2, b / 2) + if a % 2 == 1 || b % 2 == 1 then 1 else 0
  }

  function Shl(a: int, n: nat): (r: int)
    ensures a >= 0 ==> r >= 0
  {
    a * Pow2(n)
  }

  function Mask(width: nat): nat {
    Pow2(width) - 1
  }

  lemma {:induction false} Pow2Add(a: nat, b: nat)
    ensures Pow2(a + b) == Pow2(a) * Pow2(b)
  {
    if a > 0 {
      Pow2Add(a - 1, b);
      assert Pow2(a) * Pow2(b) == 2 * Pow2(a - 1) * Pow2(b);
    }
  }

  lemma {:induction false} Pow2Monotone(a: nat, b: nat)
    requires a <= b
    ensures Pow2(a) <= Pow2(b)
  {
    if a < b {
      Pow2Monotone(a, b - 1);
    }
  }

  lemma {:induction false} MultipleIsFar(d: int, m: nat)
    ensures d >= 1 ==> d * m >= m
    ensures d <= -1 ==> d * m <= 0 - m
  {
  }

  /** Division with remainder is unique. */
  lemma {:induction false} DivModUnique(a: int, m: nat, q: int, r: nat)
    requires m > 0 && a == q * m + r && r < m
    ensures a / m == q && a % m == r
  {
    var d := a / m - q;
    assert a == (a / m) * m + a % m;
    assert d * m == (a / m) * m - q * m;
    MultipleIsFar(d, m);
  }

  lemma {:induction false} ModSplit(a: int, p: nat)
    requires p > 0
    ensures a % (2 * p) == 2 * ((a / 2) % p) + a % 2
  {
    var q := a / 2;
    var d, s := q / p, q % p;
    assert q == d * p + s;
    assert a == d * (2 * p) + (2 * s + a % 2) by {
      assert d * (2 * p) == 2 * (d * p);
    }
    DivModUnique(a, 2 * p, d, 2 * s + a % 2);
  }

  lemma {:induction false} AndMask(a: int, width: nat)
    ensures And(a, Mask(width)) == a % Pow2(width)
    decreases width
  {
    if width > 0 {
      assert Mask(width) / 2 == Mask(width - 1) && Mask(width) % 2 == 1;
      AndMask(a / 2, width - 1);
      ModSplit(a, Pow2(width - 1));
    }
  }

  lemma {:induction false} OrZero(b: nat)
    ensures Or(0, b) == b
  {
    if b > 0 {
      OrZero(b / 2);
    }
  }

  /** Or is addition when one operand stays below the other's lowest bit. */
  lemma {:induction false} OrDisjoint(a: int, x: nat, n: nat)
    requires 0 <= a < Pow2(n)
    ensures Or(a, Shl(x, n)) == a + Shl(x, n)
    decreases n
  {
    if n == 0 {
      OrZero(Shl(x, 0));
    } else {
      assert Shl(x, n) == 2 * Shl(x, n - 1);
      OrDisjoint(a / 2, x, n - 1);
    }
  }

  lemma {:induction false} OrNegative(a: int, b: nat)
    requires a < 0
    ensures Or(a, b) < 0
    decreases b
  {
    if b > 0 {
      OrNegative(a / 2, b / 2);
    }
  }

  // ----- Packed fields -----

  /** A member and the number of bits it is given. */
  type Field = (int, nat)

  function Width(fs: seq<Field>): nat {
    if fs == [] then 0 else Width(fs[..|fs| - 1]) + fs[|fs| - 1].1
  }

  /** A member reduced to the bits it is given. */
  function Masked(f: Field): (r: nat)
    ensures r < Pow2(f.1)
  {
    AndMask(f.0, f.1);
    And(f.0, Mask(f.1))
  }

  /** Each field masked and put above the ones before it. */
  function Pack(fs: seq<Field>): int {
    if fs == [] then 0
    else
      var n := |fs| - 1;
      Or(Pack(fs[..n]), Shl(Masked(fs[n]), Width(fs[..n])))
  }

  function Extract(id: int, offset: nat, width: nat): nat {
    And(id / Pow2(offset), Mask(width))
  }

  lemma {:induction false} SumFits(low: nat, p: nat, x: nat, q: nat)
    requires low < p && x < q
    ensures low + x * p < q * p
  {
    assert (x + 1) * p <= q * p;
    assert (x + 1) * p == x * p + p;
  }

  lemma {:induction false} PackStep(low: nat, x: nat, width: nat, o: nat)
    requires low < Pow2(o) && x < Pow2(width)
    ensures Or(low, Shl(x, o)) == low + x * Pow2(o) < Pow2(o + width)
  {
    OrDisjoint(low, x, o);
    Pow2Add(width, o);
    SumFits(low, Pow2(o), x, Pow2(width));
  }

  lemma {:induction false} PackFits(fs: seq<Field>)
    ensures 0 <= Pack(fs) < Pow2(Width(fs))
  {
    if fs != [] {
      var n := |fs| - 1;
      var low, x, w, o := Pack(fs[..n]), Masked(fs[n]), fs[n].1, Width(fs[..n]);
      PackFits(fs[..n]);
      PackStep(low, x, w, o);
      assert Pack(fs) == Or(low, Shl(x, o)) && Width(fs) == o + w;
    }
  }

  lemma {:induction false} PackIsSum(fs: seq<Field>, n: nat)
    requires n == |fs| - 1
    ensures Pack(fs) == Pack(fs[..n]) + Masked(fs[n]) * Pow2(Width(fs[..n]))
  {
    PackFits(fs[..n]);
    PackStep(Pack(fs[..n]), Masked(fs[n]), fs[n].1, Width(fs[..n]));
  }

  lemma {:induction false} DivOfSum(a: nat, p: nat, h: nat)
    requires p > 0
    ensures (a + h * p) / p == a / p + h
  {
    assert (a / p + h) * p == (a / p) * p + h * p;
    DivModUnique(a + h * p, p, a / p + h, a % p);
  }

  lemma {:induction false} ModOfSum(q: nat, w: nat, h: nat)
    requires w > 0
    ensures (q + h * w) % w == q % w
  {
    assert (q / w + h) * w == (q / w) * w + h * w;
    DivModUnique(q + h * w, w, q / w + h, q % w);
  }

  lemma {:induction false} Regroup(x: nat, p: nat, w: nat, rest: nat)
    ensures x * (p * w * rest) == ((x * rest) * w) * p
  {
    assert p * w * rest == rest * w * p;
  }

  lemma {:induction false} LowField(a: nat, x: nat, p: nat, w: nat, rest: nat)
    requires p > 0 && w > 0
    ensures (a + x * (p * w * rest)) / p % w == a / p % w
  {
    Regroup(x, p, w, rest);
    DivOfSum(a, p, (x * rest) * w);
    ModOfSum(a / p, w, x * rest);
  }

  lemma {:induction false} Pow2Split(offset: nat, width: nat, o: nat)
    requires offset + width <= o
    ensures Pow2(o) == Pow2(offset) * Pow2(width) * Pow2(o - offset - width)
  {
    Pow2Add(offset, width);
    Pow2Add(offset + width, o - offset - width);
  }

  /** Adding above `offset + width` leaves the field at `offset` as it was. */
  lemma {:induction false} LowFieldUnchanged(a: nat, x: nat, offset: nat, width: nat, o: nat)
    requires offset + width <= o
    ensures Extract(a + x * Pow2(o), offset, width) == Extract(a, offset, width)
  {
    Pow2Split(offset, width, o);
    LowField(a, x, Pow2(offset), Pow2(width), Pow2(o - offset - width));
    AndMask((a + x * Pow2(o)) / Pow2(offset), width);
    AndMask(a / Pow2(offset), width);
  }

  lemma {:induction false} TopField(low: nat, x: nat, offset: nat, width: nat)
    requires low < Pow2(offset) && x < Pow2(width)
    ensures Extract(low + x * Pow2(offset), offset, width) == x
  {
    DivModUnique(low + x * Pow2(offset), Pow2(offset), x, low);
    AndMask(x, width);
    DivModUnique(x, Pow2(width), 0, x);
  }

  lemma {:induction false} WidthUpTo(fs: seq<Field>, i: nat)
    requires i < |fs|
    ensures Width(fs[..i]) + fs[i].1 <= Width(fs)
    ensures i < |fs| - 1 ==> Width(fs[..i]) + fs[i].1 <= Width(fs[..|fs| - 1])
    decreases |fs|
  {
    var n := |fs| - 1;
    if i < n {
      WidthUpTo(fs[..n], i);
      assert fs[..n][..i] == fs[..i];
    }
  }

  lemma {:induction false} ExtractLast(fs: seq<Field>, n: nat)
    requires n == |fs| - 1
    ensures Extract(Pack(fs), Width(fs[..n]), fs[n].1) == Masked(fs[n])
  {
    PackIsSum(fs, n);
    PackFits(fs[..n]);
    TopField(Pack(fs[..n]), Masked(fs[n]), Width(fs[..n]), fs[n].1);
  }

  lemma {:induction false} ExtractEarlier(fs: seq<Field>, n: nat, i: nat)
    requires i < n == |fs| - 1
    ensures Extract(Pack(fs), Width(fs[..i]), fs[i].1) == Extract(Pack(fs[..n]), Width(fs[..i]), fs[i].1)
  {
    PackIsSum(fs, n);
    PackFits(fs[..n]);
    WidthUpTo(fs, i);
    LowFieldUnchanged(Pack(fs[..n]), Masked(fs[n]), Width(fs[..i]), fs[i].1, Width(fs[..n]));
  }

  /** Every field can be read back, reduced to the bits it was given. */
  lemma {:induction false} ExtractPack(fs: seq<Field>, i: nat)
    requires i < |fs|
    ensures Extract(Pack(fs), Width(fs[..i]), fs[i].1) == Masked(fs[i])
    decreases |fs|
  {
    var n := |fs| - 1;
    if i == n {
      ExtractLast(fs, n);
    } else {
      ExtractEarlier(fs, n, i);
      assert fs[..n][..i] == fs[..i];
      ExtractPack(fs[..n], i);
    }
  }

  lemma {:induction false} PackCongruent(a: seq<Field>, b: seq<Field>)
    requires |a| == |b| && forall i | 0 <= i < |a| :: a[i].1 == b[i].1 && Masked(a[i]) == Masked(b[i])
    ensures Pack(a) == Pack(b) && Width(a) == Width(b)
  {
    if a != [] {
      PackCongruent(a[..|a| - 1], b[..|b| - 1]);
    }
  }
}
