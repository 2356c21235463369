/**
 The field GF(2^255-19) in ten limbs of 26 and 25 bits, as in the portable
 crypto/ed25519/internal/edwards25519/fe.go.
 */
module FieldLimbs {

  import opened Radix

  const P: int := 0x7FFF_FFFF_FFFF_FFFF_FFFF_FFFF_FFFF_FFFF_FFFF_FFFF_FFFF_FFFF_FFFF_FFFF_FFFF_FFED

  /** Ten limbs; products of elements are handled in twenty. */
  type Limbs = seq<int>

  /** Limb 2i weighs 2^(51i), limb 2i+1 weighs 2^(51i+26); limbs come in pairs. */
  function Value(h: Limbs): int {
    if |h| < 2 then 0 else h[0] + 0x400_0000 * h[1] + 0x8_0000_0000_0000 * Value(h[2..])
  }

  lemma ValueUnfolds(h: Limbs)
    requires |h| >= 2
    ensures Value(h) == h[0] + 0x400_0000 * h[1] + 0x8_0000_0000_0000 * Value(h[2..])
  {
  }

  // ----- Schoolbook product -----

  /** Limb k of g, or 0 outside its limbs. */
  function At(g: Limbs, k: int): int {
    if 0 <= k < |g| then g[k] else 0
  }

  /** Limb k of 2^26*g: two odd limbs meet with a weight of 2^52, twice that of the even limb they go to. */
  function AtShifted(g: Limbs, k: int): int {
    if k % 2 == 1 then At(g, k - 1) else 2 * At(g, k - 1)
  }

  /** Limb k of the product of f and g. */
  function ProductAt(f: Limbs, g: Limbs, k: int): int {
    if |f| < 2 then 0
    else f[0] * At(g, k) + f[1] * AtShifted(g, k) + ProductAt(f[2..], g, k - 2)
  }

  function Product(f: Limbs, g: Limbs, n: nat): (r: Limbs)
    ensures |r| == n && forall k | 0 <= k < n :: r[k] == ProductAt(f, g, k)
  {
    seq(n, k requires 0 <= k < n => ProductAt(f, g, k))
  }

  function Plus(a: Limbs, b: Limbs): (r: Limbs)
    requires |a| == |b|
    ensures |r| == |a| && forall k | 0 <= k < |a| :: r[k] == a[k] + b[k]
  {
    seq(|a|, k requires 0 <= k < |a| => a[k] + b[k])
  }

  lemma {:induction false} PlusValue(a: Limbs, b: Limbs)
    requires |a| == |b|
    ensures Value(Plus(a, b)) == Value(a) + Value(b)
  {
    if |a| >= 2 {
      PlusValue(a[2..], b[2..]);
      assert Plus(a, b)[2..] == Plus(a[2..], b[2..]);
    }
  }

  lemma {:induction false} ZeroValue(a: Limbs)
    requires forall k | 0 <= k < |a| :: a[k] == 0
    ensures Value(a) == 0
  {
    if |a| >= 2 {
      ZeroValue(a[2..]);
    }
  }

  /** Limbs of (x + 2^26*y)*g, with `c` in the place of the limb before g[0]. */
  function Scaled(x: int, y: int, c: int, g: Limbs, n: nat): (r: Limbs)
    ensures |r| == n
    ensures forall k | 0 <= k < n :: r[k] == x * At(g, k) + y * (if k == 0 then 2 * c else AtShifted(g, k))
  {
    seq(n, k requires 0 <= k < n => x * At(g, k) + y * (if k == 0 then 2 * c else AtShifted(g, k)))
  }

  lemma ScaledTail(x: int, y: int, c: int, g: Limbs, n: nat)
    requires |g| >= 2 && n >= 2
    ensures Scaled(x, y, c, g, n)[2..] == Scaled(x, y, g[1], g[2..], n - 2)
  {
    forall k | 0 <= k < n - 2
      ensures At(g, k + 2) == At(g[2..], k)
      ensures AtShifted(g, k + 2) == if k == 0 then 2 * g[1] else AtShifted(g[2..], k)
    {
    }
  }

  lemma ScaledEmpty(x: int, y: int, c: int, n: nat)
    requires n >= 2
    ensures Value(Scaled(x, y, c, [], n)) == y * (2 * c)
  {
    var r := Scaled(x, y, c, [], n);
    forall k | 1 <= k < n
      ensures r[k] == 0
    {
      assert At([], k) == 0 && AtShifted([], k) == 0;
    }
    ZeroValue(r[2..]);
  }

  lemma {:induction false} ScaledValue(x: int, y: int, c: int, g: Limbs, n: nat)
    requires |g| % 2 == 0 && n >= |g| + 2
    ensures Value(Scaled(x, y, c, g, n)) == (x + 0x400_0000 * y) * Value(g) + y * (2 * c)
    decreases |g|
  {
    if g == [] {
      hide Scaled, At, AtShifted;
      ScaledEmpty(x, y, c, n);
    } else {
      var r := Scaled(x, y, c, g, n);
      assert At(g, 0) == g[0] && At(g, 1) == g[1] && AtShifted(g, 1) == g[0];
      ScaledTail(x, y, c, g, n);
      ScaledValue(x, y, g[1], g[2..], n - 2);
      assert Value(r) == r[0] + 0x400_0000 * r[1] + 0x8_0000_0000_0000 * Value(r[2..]);
      assert Value(g) == g[0] + 0x400_0000 * g[1] + 0x8_0000_0000_0000 * Value(g[2..]);
      hide *;
      ScaledStep(x, y, c, g[0], g[1], Value(g[2..]));
    }
  }

  lemma ScaledStep(x: int, y: int, c: int, g0: int, g1: int, v: int)
    ensures x * g0 + y * (2 * c) + 0x400_0000 * (x * g1 + y * g0)
            + 0x8_0000_0000_0000 * ((x + 0x400_0000 * y) * v + y * (2 * g1))
         == (x + 0x400_0000 * y) * (g0 + 0x400_0000 * g1 + 0x8_0000_0000_0000 * v) + y * (2 * c)
  {
  }

  /** The schoolbook limbs stand for the product. */
  lemma {:induction false} ProductValue(f: Limbs, g: Limbs)
    requires |f| % 2 == 0 && |g| % 2 == 0
    ensures Value(Product(f, g, |f| + |g|)) == Value(f) * Value(g)
    decreases |f|
  {
    hide *;
    var n := |f| + |g|;
    if f == [] {
      ProductOfNone(g, n);
    } else {
      var rest := Product(f[2..], g, n - 2);
      ValueUnfolds(f);
      PadValue(rest);
      ProductValue(f[2..], g);
      ScaledValue(f[0], f[1], 0, g, n);
      ProductSplits(f, g, n);
      PlusValue(Scaled(f[0], f[1], 0, g, n), [0, 0] + rest);
      ProductStep(Value(f), f[0] + 0x400_0000 * f[1], Value(f[2..]), Value(g),
                  Value(Product(f, g, n)), Value(Scaled(f[0], f[1], 0, g, n)), Value(rest));
    }
  }

  lemma ProductOfNone(g: Limbs, n: nat)
    ensures Value([]) == 0 && Value(Product([], g, n)) == 0
  {
    ZeroValue(Product([], g, n));
  }

  lemma PadValue(a: Limbs)
    ensures Value([0, 0] + a) == 0x8_0000_0000_0000 * Value(a)
  {
    assert ([0, 0] + a)[2..] == a;
  }

  lemma ProductStep(vf: int, x: int, v: int, w: int, p: int, head: int, tail: int)
    requires vf == x + 0x8_0000_0000_0000 * v && tail == v * w
    requires head == x * w && p == head + 0x8_0000_0000_0000 * tail
    ensures p == vf * w
  {
  }

  lemma ProductSplits(f: Limbs, g: Limbs, n: nat)
    requires |f| >= 2 && n >= 2
    ensures Product(f, g, n) == Plus(Scaled(f[0], f[1], 0, g, n), [0, 0] + Product(f[2..], g, n - 2))
  {
    var r := Plus(Scaled(f[0], f[1], 0, g, n), [0, 0] + Product(f[2..], g, n - 2));
    assert AtShifted(g, 0) == 0;
    forall k | 0 <= k < n
      ensures Product(f, g, n)[k] == r[k]
    {
      ProductUnfolds(f, g, k);
      hide ProductAt, At, AtShifted;
      if k < 2 {
        ProductBelow(f[2..], g, k - 2);
      }
    }
  }

  lemma ProductUnfolds(f: Limbs, g: Limbs, k: int)
    requires |f| >= 2
    ensures ProductAt(f, g, k) == f[0] * At(g, k) + f[1] * AtShifted(g, k) + ProductAt(f[2..], g, k - 2)
  {
  }

  lemma {:induction false} ProductBelow(f: Limbs, g: Limbs, k: int)
    requires k < 0
    ensures ProductAt(f, g, k) == 0
    decreases |f|
  {
    if |f| >= 2 {
      ProductBelow(f[2..], g, k - 2);
    }
  }

  lemma Expand(f: Limbs, g: Limbs, k: int, a0: int, a1: int, a2: int, a3: int, a4: int,
               a5: int, a6: int, a7: int, a8: int, a9: int)
    requires |f| == 10
    requires a0 == At(g, k) && a1 == AtShifted(g, k) && a2 == At(g, k - 2) && a3 == AtShifted(g, k - 2)
    requires a4 == At(g, k - 4) && a5 == AtShifted(g, k - 4) && a6 == At(g, k - 6) && a7 == AtShifted(g, k - 6)
    requires a8 == At(g, k - 8) && a9 == AtShifted(g, k - 8)
    ensures ProductAt(f, g, k)
         == f[0] * a0 + f[1] * a1 + f[2] * a2 + f[3] * a3 + f[4] * a4
          + f[5] * a5 + f[6] * a6 + f[7] * a7 + f[8] * a8 + f[9] * a9
  {
    var f2, f4, f6, f8 := f[2..], f[4..], f[6..], f[8..];
    assert f2[2..] == f4;
    assert f4[2..] == f6;
    assert f6[2..] == f8;
    assert f8[2..] == [];
    assert ProductAt([], g, k - 10) == 0;
    hide *;
    ProductUnfolds(f, g, k);
    ProductUnfolds(f2, g, k - 2);
    ProductUnfolds(f4, g, k - 4);
    ProductUnfolds(f6, g, k - 6);
    ProductUnfolds(f8, g, k - 8);
  }

  // ----- FeMul and feSquare -----

  /** The bounds `FeMul` and `FeSquare` ask of their operands: 1.1*2^26 and 1.1*2^25. */
  predicate Bounded(f: Limbs) {
    |f| == 10 && forall i | 0 <= i < 10 ::
      if i % 2 == 0 then -0x466_6666 <= f[i] <= 0x466_6666 else -0x233_3333 <= f[i] <= 0x233_3333
  }

  /** A 64-bit product of two factors, each a limb or a small multiple of one that fits 32 bits. */
  function Times(x: int, y: int): (r: int)
    requires -0x8CC_CCCC <= x <= 0x8CC_CCCC && -0x5399_9999 <= y <= 0x5399_9999
    ensures -0x400_0000_0000_0000 <= r <= 0x400_0000_0000_0000
  {
    TimesRange(x, y);
    x * y
  }

  lemma TimesRange(x: int, y: int)
    requires -0x8CC_CCCC <= x <= 0x8CC_CCCC && -0x5399_9999 <= y <= 0x5399_9999
    ensures -0x400_0000_0000_0000 <= x * y <= 0x400_0000_0000_0000
  {
    var m := if x >= 0 then x else -x;
    MulMonotone(m, y, 0x5399_9999);
    MulMonotone(m, -0x5399_9999, y);
  }

  function Mul0(f: Limbs, g: Limbs): (h: int)
    requires Bounded(f) && Bounded(g)
    ensures -0x2800_0000_0000_0000 <= h <= 0x2800_0000_0000_0000
  {
    Times(f[0], g[0]) + Times(2 * f[1], 19 * g[9]) + Times(f[2], 19 * g[8]) + Times(2 * f[3], 19 * g[7])
    + Times(f[4], 19 * g[6]) + Times(2 * f[5], 19 * g[5]) + Times(f[6], 19 * g[4])
    + Times(2 * f[7], 19 * g[3]) + Times(f[8], 19 * g[2]) + Times(2 * f[9], 19 * g[1])
  }

  function Mul1(f: Limbs, g: Limbs): (h: int)
    requires Bounded(f) && Bounded(g)
    ensures -0x2800_0000_0000_0000 <= h <= 0x2800_0000_0000_0000
  {
    Times(f[0], g[1]) + Times(f[1], g[0]) + Times(f[2], 19 * g[9]) + Times(f[3], 19 * g[8])
    + Times(f[4], 19 * g[7]) + Times(f[5], 19 * g[6]) + Times(f[6], 19 * g[5]) + Times(f[7], 19 * g[4])
    + Times(f[8], 19 * g[3]) + Times(f[9], 19 * g[2])
  }

  function Mul2(f: Limbs, g: Limbs): (h: int)
    requires Bounded(f) && Bounded(g)
    ensures -0x2800_0000_0000_0000 <= h <= 0x2800_0000_0000_0000
  {
    Times(f[0], g[2]) + Times(2 * f[1], g[1]) + Times(f[2], g[0]) + Times(2 * f[3], 19 * g[9])
    + Times(f[4], 19 * g[8]) + Times(2 * f[5], 19 * g[7]) + Times(f[6], 19 * g[6])
    + Times(2 * f[7], 19 * g[5]) + Times(f[8], 19 * g[4]) + Times(2 * f[9], 19 * g[3])
  }

  function Mul3(f: Limbs, g: Limbs): (h: int)
    requires Bounded(f) && Bounded(g)
    ensures -0x2800_0000_0000_0000 <= h <= 0x2800_0000_0000_0000
  {
    Times(f[0], g[3]) + Times(f[1], g[2]) + Times(f[2], g[1]) + Times(f[3], g[0]) + Times(f[4], 19 * g[9])
    + Times(f[5], 19 * g[8]) + Times(f[6], 19 * g[7]) + Times(f[7], 19 * g[6]) + Times(f[8], 19 * g[5])
    + Times(f[9], 19 * g[4])
  }

  function Mul4(f: Limbs, g: Limbs): (h: int)
    requires Bounded(f) && Bounded(g)
    ensures -0x2800_0000_0000_0000 <= h <= 0x2800_0000_0000_0000
  {
    Times(f[0], g[4]) + Times(2 * f[1], g[3]) + Times(f[2], g[2]) + Times(2 * f[3], g[1])
    + Times(f[4], g[0]) + Times(2 * f[5], 19 * g[9]) + Times(f[6], 19 * g[8]) + Times(2 * f[7], 19 * g[7])
    + Times(f[8], 19 * g[6]) + Times(2 * f[9], 19 * g[5])
  }

  function Mul5(f: Limbs, g: Limbs): (h: int)
    requires Bounded(f) && Bounded(g)
    ensures -0x2800_0000_0000_0000 <= h <= 0x2800_0000_0000_0000
  {
    Times(f[0], g[5]) + Times(f[1], g[4]) + Times(f[2], g[3]) + Times(f[3], g[2]) + Times(f[4], g[1])
    + Times(f[5], g[0]) + Times(f[6], 19 * g[9]) + Times(f[7], 19 * g[8]) + Times(f[8], 19 * g[7])
    + Times(f[9], 19 * g[6])
  }

  function Mul6(f: Limbs, g: Limbs): (h: int)
    requires Bounded(f) && Bounded(g)
    ensures -0x2800_0000_0000_0000 <= h <= 0x2800_0000_0000_0000
  {
    Times(f[0], g[6]) + Times(2 * f[1], g[5]) + Times(f[2], g[4]) + Times(2 * f[3], g[3])
    + Times(f[4], g[2]) + Times(2 * f[5], g[1]) + Times(f[6], g[0]) + Times(2 * f[7], 19 * g[9])
    + Times(f[8], 19 * g[8]) + Times(2 * f[9], 19 * g[7])
  }

  function Mul7(f: Limbs, g: Limbs): (h: int)
    requires Bounded(f) && Bounded(g)
    ensures -0x2800_0000_0000_0000 <= h <= 0x2800_0000_0000_0000
  {
    Times(f[0], g[7]) + Times(f[1], g[6]) + Times(f[2], g[5]) + Times(f[3], g[4]) + Times(f[4], g[3])
    + Times(f[5], g[2]) + Times(f[6], g[1]) + Times(f[7], g[0]) + Times(f[8], 19 * g[9])
    + Times(f[9], 19 * g[8])
  }

  function Mul8(f: Limbs, g: Limbs): (h: int)
    requires Bounded(f) && Bounded(g)
    ensures -0x2800_0000_0000_0000 <= h <= 0x2800_0000_0000_0000
  {
    Times(f[0], g[8]) + Times(2 * f[1], g[7]) + Times(f[2], g[6]) + Times(2 * f[3], g[5])
    + Times(f[4], g[4]) + Times(2 * f[5], g[3]) + Times(f[6], g[2]) + Times(2 * f[7], g[1])
    + Times(f[8], g[0]) + Times(2 * f[9], 19 * g[9])
  }

  function Mul9(f: Limbs, g: Limbs): (h: int)
    requires Bounded(f) && Bounded(g)
    ensures -0x2800_0000_0000_0000 <= h <= 0x2800_0000_0000_0000
  {
    Times(f[0], g[9]) + Times(f[1], g[8]) + Times(f[2], g[7]) + Times(f[3], g[6]) + Times(f[4], g[5])
    + Times(f[5], g[4]) + Times(f[6], g[3]) + Times(f[7], g[2]) + Times(f[8], g[1]) + Times(f[9], g[0])
  }

  lemma MulLimb0(f: Limbs, g: Limbs)
    requires Bounded(f) && Bounded(g)
    ensures Mul0(f, g) == ProductAt(f, g, 0) + 19 * ProductAt(f, g, 10)
  {
    hide ProductAt;
    Expand(f, g, 0, g[0], 0, 0, 0, 0, 0, 0, 0, 0, 0);
    Expand(f, g, 10, 0, 2 * g[9], g[8], 2 * g[7], g[6], 2 * g[5], g[4], 2 * g[3], g[2], 2 * g[1]);
  }

  lemma MulLimb1(f: Limbs, g: Limbs)
    requires Bounded(f) && Bounded(g)
    ensures Mul1(f, g) == ProductAt(f, g, 1) + 19 * ProductAt(f, g, 11)
  {
    hide ProductAt;
    Expand(f, g, 1, g[1], g[0], 0, 0, 0, 0, 0, 0, 0, 0);
    Expand(f, g, 11, 0, 0, g[9], g[8], g[7], g[6], g[5], g[4], g[3], g[2]);
  }

  lemma MulLimb2(f: Limbs, g: Limbs)
    requires Bounded(f) && Bounded(g)
    ensures Mul2(f, g) == ProductAt(f, g, 2) + 19 * ProductAt(f, g, 12)
  {
    hide ProductAt;
    Expand(f, g, 2, g[2], 2 * g[1], g[0], 0, 0, 0, 0, 0, 0, 0);
    Expand(f, g, 12, 0, 0, 0, 2 * g[9], g[8], 2 * g[7], g[6], 2 * g[5], g[4], 2 * g[3]);
  }

  lemma MulLimb3(f: Limbs, g: Limbs)
    requires Bounded(f) && Bounded(g)
    ensures Mul3(f, g) == ProductAt(f, g, 3) + 19 * ProductAt(f, g, 13)
  {
    hide ProductAt;
    Expand(f, g, 3, g[3], g[2], g[1], g[0], 0, 0, 0, 0, 0, 0);
    Expand(f, g, 13, 0, 0, 0, 0, g[9], g[8], g[7], g[6], g[5], g[4]);
  }

  lemma MulLimb4(f: Limbs, g: Limbs)
    requires Bounded(f) && Bounded(g)
    ensures Mul4(f, g) == ProductAt(f, g, 4) + 19 * ProductAt(f, g, 14)
  {
    hide ProductAt;
    Expand(f, g, 4, g[4], 2 * g[3], g[2], 2 * g[1], g[0], 0, 0, 0, 0, 0);
    Expand(f, g, 14, 0, 0, 0, 0, 0, 2 * g[9], g[8], 2 * g[7], g[6], 2 * g[5]);
  }

  lemma MulLimb5(f: Limbs, g: Limbs)
    requires Bounded(f) && Bounded(g)
    ensures Mul5(f, g) == ProductAt(f, g, 5) + 19 * ProductAt(f, g, 15)
  {
    hide ProductAt;
    Expand(f, g, 5, g[5], g[4], g[3], g[2], g[1], g[0], 0, 0, 0, 0);
    Expand(f, g, 15, 0, 0, 0, 0, 0, 0, g[9], g[8], g[7], g[6]);
  }

  lemma MulLimb6(f: Limbs, g: Limbs)
    requires Bounded(f) && Bounded(g)
    ensures Mul6(f, g) == ProductAt(f, g, 6) + 19 * ProductAt(f, g, 16)
  {
    hide ProductAt;
    Expand(f, g, 6, g[6], 2 * g[5], g[4], 2 * g[3], g[2], 2 * g[1], g[0], 0, 0, 0);
    Expand(f, g, 16, 0, 0, 0, 0, 0, 0, 0, 2 * g[9], g[8], 2 * g[7]);
  }

  lemma MulLimb7(f: Limbs, g: Limbs)
    requires Bounded(f) && Bounded(g)
    ensures Mul7(f, g) == ProductAt(f, g, 7) + 19 * ProductAt(f, g, 17)
  {
    hide ProductAt;
    Expand(f, g, 7, g[7], g[6], g[5], g[4], g[3], g[2], g[1], g[0], 0, 0);
    Expand(f, g, 17, 0, 0, 0, 0, 0, 0, 0, 0, g[9], g[8]);
  }

  lemma MulLimb8(f: Limbs, g: Limbs)
    requires Bounded(f) && Bounded(g)
    ensures Mul8(f, g) == ProductAt(f, g, 8) + 19 * ProductAt(f, g, 18)
  {
    hide ProductAt;
    Expand(f, g, 8, g[8], 2 * g[7], g[6], 2 * g[5], g[4], 2 * g[3], g[2], 2 * g[1], g[0], 0);
    Expand(f, g, 18, 0, 0, 0, 0, 0, 0, 0, 0, 0, 2 * g[9]);
  }

  lemma MulLimb9(f: Limbs, g: Limbs)
    requires Bounded(f) && Bounded(g)
    ensures Mul9(f, g) == ProductAt(f, g, 9) + 19 * ProductAt(f, g, 19)
  {
    hide ProductAt;
    Expand(f, g, 9, g[9], g[8], g[7], g[6], g[5], g[4], g[3], g[2], g[1], g[0]);
    Expand(f, g, 19, 0, 0, 0, 0, 0, 0, 0, 0, 0, 0);
  }

  /** The ten sums of `FeMul`. */
  function MulLimbs(f: Limbs, g: Limbs): Limbs
    requires Bounded(f) && Bounded(g)
  {
    [Mul0(f, g), Mul1(f, g), Mul2(f, g), Mul3(f, g), Mul4(f, g), Mul5(f, g), Mul6(f, g), Mul7(f, g), Mul8(f, g), Mul9(f, g)]
  }

  lemma MulLimbsAt(f: Limbs, g: Limbs)
    requires Bounded(f) && Bounded(g)
    ensures forall k {:trigger MulLimbs(f, g)[k]} | 0 <= k < 10 ::
              MulLimbs(f, g)[k] == ProductAt(f, g, k) + 19 * ProductAt(f, g, k + 10)
  {
    hide Mul0, Mul1, Mul2, Mul3, Mul4, Mul5, Mul6, Mul7, Mul8, Mul9, ProductAt;
    MulLimb0(f, g);
    MulLimb1(f, g);
    MulLimb2(f, g);
    MulLimb3(f, g);
    MulLimb4(f, g);
    MulLimb5(f, g);
    MulLimb6(f, g);
    MulLimb7(f, g);
    MulLimb8(f, g);
    MulLimb9(f, g);
  }

  function Square0(f: Limbs): (h: int)
    requires Bounded(f)
    ensures h == Mul0(f, f)
  {
    Times(f[0], f[0]) + Times(2 * f[1], 38 * f[9]) + Times(2 * f[2], 19 * f[8]) + Times(2 * f[3], 38 * f[7])
    + Times(2 * f[4], 19 * f[6]) + Times(f[5], 38 * f[5])
  }

  function Square1(f: Limbs): (h: int)
    requires Bounded(f)
    ensures h == Mul1(f, f)
  {
    Times(2 * f[0], f[1]) + Times(f[2], 38 * f[9]) + Times(2 * f[3], 19 * f[8]) + Times(f[4], 38 * f[7])
    + Times(2 * f[5], 19 * f[6])
  }

  function Square2(f: Limbs): (h: int)
    requires Bounded(f)
    ensures h == Mul2(f, f)
  {
    Times(2 * f[0], f[2]) + Times(2 * f[1], f[1]) + Times(2 * f[3], 38 * f[9]) + Times(2 * f[4], 19 * f[8])
    + Times(2 * f[5], 38 * f[7]) + Times(f[6], 19 * f[6])
  }

  function Square3(f: Limbs): (h: int)
    requires Bounded(f)
    ensures h == Mul3(f, f)
  {
    Times(2 * f[0], f[3]) + Times(2 * f[1], f[2]) + Times(f[4], 38 * f[9]) + Times(2 * f[5], 19 * f[8])
    + Times(f[6], 38 * f[7])
  }

  function Square4(f: Limbs): (h: int)
    requires Bounded(f)
    ensures h == Mul4(f, f)
  {
    Times(2 * f[0], f[4]) + Times(2 * f[1], 2 * f[3]) + Times(f[2], f[2]) + Times(2 * f[5], 38 * f[9])
    + Times(2 * f[6], 19 * f[8]) + Times(f[7], 38 * f[7])
  }

  function Square5(f: Limbs): (h: int)
    requires Bounded(f)
    ensures h == Mul5(f, f)
  {
    Times(2 * f[0], f[5]) + Times(2 * f[1], f[4]) + Times(2 * f[2], f[3]) + Times(f[6], 38 * f[9])
    + Times(2 * f[7], 19 * f[8])
  }

  function Square6(f: Limbs): (h: int)
    requires Bounded(f)
    ensures h == Mul6(f, f)
  {
    Times(2 * f[0], f[6]) + Times(2 * f[1], 2 * f[5]) + Times(2 * f[2], f[4]) + Times(2 * f[3], f[3])
    + Times(2 * f[7], 38 * f[9]) + Times(f[8], 19 * f[8])
  }

  function Square7(f: Limbs): (h: int)
    requires Bounded(f)
    ensures h == Mul7(f, f)
  {
    Times(2 * f[0], f[7]) + Times(2 * f[1], f[6]) + Times(2 * f[2], f[5]) + Times(2 * f[3], f[4])
    + Times(f[8], 38 * f[9])
  }

  function Square8(f: Limbs): (h: int)
    requires Bounded(f)
    ensures h == Mul8(f, f)
  {
    Times(2 * f[0], f[8]) + Times(2 * f[1], 2 * f[7]) + Times(2 * f[2], f[6]) + Times(2 * f[3], 2 * f[5])
    + Times(f[4], f[4]) + Times(f[9], 38 * f[9])
  }

  function Square9(f: Limbs): (h: int)
    requires Bounded(f)
    ensures h == Mul9(f, f)
  {
    Times(2 * f[0], f[9]) + Times(2 * f[1], f[8]) + Times(2 * f[2], f[7]) + Times(2 * f[3], f[6])
    + Times(2 * f[4], f[5])
  }

  lemma ValueTen(h: Limbs)
    requires |h| == 10
    ensures Value(h) == Linear(h[0], h[1], h[2], h[3], h[4], h[5], h[6], h[7], h[8], h[9])
  {
    var h2, h4, h6, h8 := h[2..], h[4..], h[6..], h[8..];
    assert h2[2..] == h4;
    assert h4[2..] == h6;
    assert h6[2..] == h8;
    assert h8[2..] == [];
    assert Value(h8) == h[8] + 0x400_0000 * h[9];
    assert Value(h6) == h[6] + 0x400_0000 * h[7] + 0x8_0000_0000_0000 * Value(h8);
    assert Value(h4) == h[4] + 0x400_0000 * h[5] + 0x8_0000_0000_0000 * Value(h6);
    assert Value(h2) == h[2] + 0x400_0000 * h[3] + 0x8_0000_0000_0000 * Value(h4);
  }

  function Linear(h0: int, h1: int, h2: int, h3: int, h4: int, h5: int, h6: int, h7: int, h8: int, h9: int): int {
    h0 + 0x400_0000 * h1
    + 0x8_0000_0000_0000 * h2 + 0x8_0000_0000_0000 * 0x400_0000 * h3
    + 0x40_0000_0000_0000_0000_0000_0000 * h4 + 0x40_0000_0000_0000_0000_0000_0000 * 0x400_0000 * h5
    + 0x200_0000_0000_0000_0000_0000_0000_0000_0000_0000 * h6
    + 0x200_0000_0000_0000_0000_0000_0000_0000_0000_0000 * 0x400_0000 * h7
    + 0x1000_0000_0000_0000_0000_0000_0000_0000_0000_0000_0000_0000_0000 * h8
    + 0x1000_0000_0000_0000_0000_0000_0000_0000_0000_0000_0000_0000_0000 * 0x400_0000 * h9
  }

  lemma {:induction false} ValueSplits(h: Limbs, n: nat)
    requires 2 * n <= |h|
    ensures Value(h) == Value(h[..2 * n]) + Weight(0x8_0000_0000_0000, n) * Value(h[2 * n..])
  {
    if n == 0 {
      assert h[..0] == [] && h[0..] == h;
    } else {
      assert Weight(0x8_0000_0000_0000, n) == 0x8_0000_0000_0000 * Weight(0x8_0000_0000_0000, n - 1);
      hide *;
      var low, high := h[..2 * n], h[2 * n..];
      assert h[2..][..2 * (n - 1)] == low[2..];
      assert h[2..][2 * (n - 1)..] == high;
      ValueSplits(h[2..], n - 1);
      ValueUnfolds(h);
      ValueUnfolds(low);
      SplitStep(Value(h), h[0] + 0x400_0000 * h[1], Value(h[2..]), Value(low), Value(low[2..]),
                Weight(0x8_0000_0000_0000, n), Weight(0x8_0000_0000_0000, n - 1), Value(high));
    }
  }

  lemma SplitStep(all: int, x: int, rest: int, low: int, lowRest: int, w: int, v: int, high: int)
    requires all == x + 0x8_0000_0000_0000 * rest && low == x + 0x8_0000_0000_0000 * lowRest
    requires rest == lowRest + v * high && w == 0x8_0000_0000_0000 * v
    ensures all == low + w * high
  {
    MulAssoc(0x8_0000_0000_0000, v, high);
  }

  lemma TopWeight()
    ensures Weight(0x8_0000_0000_0000, 5) == P + 19
  {
  }

  /** Limbs k and k+10 of a product, brought together with a factor of 19, keep the value modulo P. */
  lemma FoldedValue(p: Limbs, h: Limbs)
    requires |p| == 20 && |h| == 10
    requires forall k {:trigger h[k]} | 0 <= k < 10 :: h[k] == p[k] + 19 * p[k + 10]
    ensures Value(p) == Value(h) + P * Value(p[10..])
  {
    hide *;
    ValueSplits(p, 5);
    TopWeight();
    FoldsLimbwise(p[..10], p[10..], h);
    FoldStep(Value(p), Value(p[..10]), Weight(0x8_0000_0000_0000, 5), Value(p[10..]), Value(h));
  }

  lemma {:induction false} FoldsLimbwise(low: Limbs, high: Limbs, h: Limbs)
    requires |low| == |high| == |h| && forall k | 0 <= k < |h| :: h[k] == low[k] + 19 * high[k]
    ensures Value(h) == Value(low) + 19 * Value(high)
    decreases |h|
  {
    if |h| >= 2 {
      FoldsLimbwise(low[2..], high[2..], h[2..]);
    }
  }

  lemma FoldStep(all: int, low: int, w: int, high: int, folded: int)
    requires all == low + w * high && w == P + 19 && folded == low + 19 * high
    ensures all == folded + P * high
  {
  }

  lemma MulLimbsValue(f: Limbs, g: Limbs)
    requires Bounded(f) && Bounded(g)
    ensures Value(MulLimbs(f, g)) % P == (Value(f) * Value(g)) % P
  {
    var p, h := Product(f, g, 20), MulLimbs(f, g);
    ProductValue(f, g);
    MulLimbsAt(f, g);
    hide Value, ProductAt, Product, MulLimbs, Mul0, Mul1, Mul2, Mul3, Mul4, Mul5, Mul6, Mul7, Mul8, Mul9;
    FoldedValue(p, h);
    ModAdds(Value(h), Value(p[10..]), P);
  }

  // ----- FeCombine -----

  /** Every operation on this type is checked to stay within 64 bits. */
  newtype Int64 = x: int | -0x8000_0000_0000_0000 <= x < 0x8000_0000_0000_0000

  /** The limbs `FeCombine` leaves; all within 1.1*2^25 and 1.1*2^24, so that they fit 32 bits. */
  predicate Reduced(h: Limbs) {
    && |h| == 10
    && -0x200_0000 <= h[0] <= 0x200_0000 && -0x102_8F5C <= h[1] <= 0x102_8F5C
    && -0x200_0000 <= h[2] <= 0x200_0000 && -0x100_0000 <= h[3] <= 0x100_0000
    && -0x200_0000 <= h[4] <= 0x200_0000 && -0x102_8F5C <= h[5] <= 0x102_8F5C
    && -0x200_0000 <= h[6] <= 0x200_0000 && -0x100_0000 <= h[7] <= 0x100_0000
    && -0x200_0000 <= h[8] <= 0x200_0000 && -0x100_0000 <= h[9] <= 0x100_0000
  }

  function Carry26(h: Int64): (c: Int64)
    requires -0x5000_0000_0000_0000 <= h <= 0x5000_0000_0000_0000
    ensures -0x200_0000 <= h as int - 0x400_0000 * (c as int) < 0x200_0000
    ensures -0x14_0000_0001 <= c <= 0x14_0000_0001
  {
    (h + 0x200_0000) / 0x400_0000
  }

  function Carry25(h: Int64): (c: Int64)
    requires -0x5000_0000_0000_0000 <= h <= 0x5000_0000_0000_0000
    ensures -0x100_0000 <= h as int - 0x200_0000 * (c as int) < 0x100_0000
    ensures -0x28_0000_0001 <= c <= 0x28_0000_0001
  {
    (h + 0x100_0000) / 0x200_0000
  }

  predicate Short(x: Int64) {
    -0x4000_0000_0000_0000 <= x <= 0x4000_0000_0000_0000
  }

  /** The eight carries that run through the two halves side by side. */
  method CarryHalves(i0: Int64, i1: Int64, i2: Int64, i3: Int64, i4: Int64,
                     i5: Int64, i6: Int64, i7: Int64, i8: Int64, i9: Int64)
    returns (h0: Int64, h1: Int64, h2: Int64, h3: Int64, h4: Int64,
             h5: Int64, h6: Int64, h7: Int64, h8: Int64, h9: Int64)
    requires Short(i0) && Short(i1) && Short(i2) && Short(i3) && Short(i4)
    requires Short(i5) && Short(i6) && Short(i7) && Short(i8) && Short(i9)
    ensures -0x200_0000 <= h0 <= 0x200_0000 && -0x100_0000 <= h1 <= 0x100_0000
    ensures -0x200_0000 <= h2 <= 0x200_0000 && -0x100_0000 <= h3 <= 0x100_0000
    ensures -0x41_0000_0000 <= h4 <= 0x41_0000_0000 && -0x100_0000 <= h5 <= 0x100_0000
    ensures -0x200_0000 <= h6 <= 0x200_0000 && -0x100_0000 <= h7 <= 0x100_0000
    ensures -0x4001_0000_0000_0000 <= h8 <= 0x4001_0000_0000_0000 && h9 == i9
    ensures Linear(h0 as int, h1 as int, h2 as int, h3 as int, h4 as int,
                   h5 as int, h6 as int, h7 as int, h8 as int, h9 as int)
         == Linear(i0 as int, i1 as int, i2 as int, i3 as int, i4 as int,
                   i5 as int, i6 as int, i7 as int, i8 as int, i9 as int)
  {
    hide Carry26, Carry25, Linear;
    h0, h1, h2, h3, h4, h5, h6, h7, h8, h9 := i0, i1, i2, i3, i4, i5, i6, i7, i8, i9;
    var c0 := Carry26(h0);
    h1 := h1 + c0;
    h0 := h0 - c0 * 0x400_0000;
    var c4 := Carry26(h4);
    h5 := h5 + c4;
    h4 := h4 - c4 * 0x400_0000;

    var c1 := Carry25(h1);
    h2 := h2 + c1;
    h1 := h1 - c1 * 0x200_0000;
    var c5 := Carry25(h5);
    h6 := h6 + c5;
    h5 := h5 - c5 * 0x200_0000;

    var c2 := Carry26(h2);
    h3 := h3 + c2;
    h2 := h2 - c2 * 0x400_0000;
    var c6 := Carry26(h6);
    h7 := h7 + c6;
    h6 := h6 - c6 * 0x400_0000;

    var c3 := Carry25(h3);
    h4 := h4 + c3;
    h3 := h3 - c3 * 0x200_0000;
    var c7 := Carry25(h7);
    h8 := h8 + c7;
    h7 := h7 - c7 * 0x200_0000;
    HalvesSum(i0 as int, i1 as int, i2 as int, i3 as int, i4 as int,
              i5 as int, i6 as int, i7 as int, i8 as int, i9 as int,
              c0 as int, c1 as int, c2 as int, c3 as int, c4 as int, c5 as int, c6 as int, c7 as int);
  }

  lemma HalvesSum(i0: int, i1: int, i2: int, i3: int, i4: int, i5: int, i6: int, i7: int, i8: int, i9: int,
                  c0: int, c1: int, c2: int, c3: int, c4: int, c5: int, c6: int, c7: int)
    ensures Linear(i0 - c0 * 0x400_0000, i1 + c0 - c1 * 0x200_0000, i2 + c1 - c2 * 0x400_0000,
                   i3 + c2 - c3 * 0x200_0000, i4 - c4 * 0x400_0000 + c3, i5 + c4 - c5 * 0x200_0000,
                   i6 + c5 - c6 * 0x400_0000, i7 + c6 - c7 * 0x200_0000, i8 + c7, i9)
         == Linear(i0, i1, i2, i3, i4, i5, i6, i7, i8, i9)
  {
  }

  /** `FeCombine`: twelve carries, of which the one out of the top limb comes back 19-fold at the bottom. */
  method FeCombine(i0: Int64, i1: Int64, i2: Int64, i3: Int64, i4: Int64,
                   i5: Int64, i6: Int64, i7: Int64, i8: Int64, i9: Int64)
    returns (h: Limbs, ghost q: int)
    requires Short(i0) && Short(i1) && Short(i2) && Short(i3) && Short(i4)
    requires Short(i5) && Short(i6) && Short(i7) && Short(i8) && Short(i9)
    ensures Reduced(h)
    ensures Value(h) + P * q == Linear(i0 as int, i1 as int, i2 as int, i3 as int, i4 as int,
                                       i5 as int, i6 as int, i7 as int, i8 as int, i9 as int)
  {
    hide Carry26, Carry25, Linear, Value;
    var h0, h1, h2, h3, h4, h5, h6, h7, h8, h9 := CarryHalves(i0, i1, i2, i3, i4, i5, i6, i7, i8, i9);
    ghost var s0, s1, s4, s5, s8, s9 := h0 as int, h1 as int, h4 as int, h5 as int, h8 as int, h9 as int;

    var c4 := Carry26(h4);
    h5 := h5 + c4;
    h4 := h4 - c4 * 0x400_0000;
    var c8 := Carry26(h8);
    h9 := h9 + c8;
    h8 := h8 - c8 * 0x400_0000;

    var c9 := Carry25(h9);
    h0 := h0 + c9 * 19;
    h9 := h9 - c9 * 0x200_0000;

    var c0 := Carry26(h0);
    h1 := h1 + c0;
    h0 := h0 - c0 * 0x400_0000;

    q := c9 as int;
    h := [h0 as int, h1 as int, h2 as int, h3 as int, h4 as int,
          h5 as int, h6 as int, h7 as int, h8 as int, h9 as int];
    ValueTen(h);
    TopSum(s0, s1, h2 as int, h3 as int, s4, s5, h6 as int, h7 as int, s8, s9,
           c4 as int, c8 as int, q, c0 as int);
  }

  lemma TopSum(i0: int, i1: int, i2: int, i3: int, i4: int, i5: int, i6: int, i7: int, i8: int, i9: int,
               c4: int, c8: int, c9: int, c0: int)
    ensures Linear(i0 + c9 * 19 - c0 * 0x400_0000, i1 + c0, i2, i3, i4 - c4 * 0x400_0000, i5 + c4, i6, i7,
                   i8 - c8 * 0x400_0000, i9 + c8 - c9 * 0x200_0000) + P * c9
         == Linear(i0, i1, i2, i3, i4, i5, i6, i7, i8, i9)
  {
  }

  /** `FeMul`: the product modulo 2^255-19, in limbs small enough to be multiplied again. */
  method FeMul(f: Limbs, g: Limbs) returns (h: Limbs)
    requires Bounded(f) && Bounded(g)
    ensures Reduced(h) && Bounded(h)
    ensures Value(h) % P == (Value(f) * Value(g)) % P
  {
    ghost var q;
    hide Linear, Value, Mul0, Mul1, Mul2, Mul3, Mul4, Mul5, Mul6, Mul7, Mul8, Mul9;
    h, q := FeCombine(Mul0(f, g) as Int64, Mul1(f, g) as Int64, Mul2(f, g) as Int64, Mul3(f, g) as Int64,
                      Mul4(f, g) as Int64, Mul5(f, g) as Int64, Mul6(f, g) as Int64, Mul7(f, g) as Int64,
                      Mul8(f, g) as Int64, Mul9(f, g) as Int64);
    MulLimbsValue(f, g);
    ValueTen(MulLimbs(f, g));
    ModAdds(Value(h), q, P);
  }

  method FeSquare(f: Limbs) returns (h: Limbs)
    requires Bounded(f)
    ensures Reduced(h) && Bounded(h)
    ensures Value(h) % P == (Value(f) * Value(f)) % P
  {
    ghost var q;
    hide Linear, Value, Mul0, Mul1, Mul2, Mul3, Mul4, Mul5, Mul6, Mul7, Mul8, Mul9,
         Square0, Square1, Square2, Square3, Square4, Square5, Square6, Square7, Square8, Square9;
    h, q := FeCombine(Square0(f) as Int64, Square1(f) as Int64, Square2(f) as Int64, Square3(f) as Int64,
                      Square4(f) as Int64, Square5(f) as Int64, Square6(f) as Int64, Square7(f) as Int64,
                      Square8(f) as Int64, Square9(f) as Int64);
    MulLimbsValue(f, f);
    ValueTen(MulLimbs(f, f));
    ModAdds(Value(h), q, P);
  }
}
