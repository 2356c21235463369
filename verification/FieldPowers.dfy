/**
 The two fixed exponentiations of crypto/ed25519/internal/edwards25519/field.go, as
 chains of squarings and multiplications of field elements in limbs.
 */
module FieldPowers {

  import opened Radix
  import opened Bits
  import opened FieldLimbs

  function Pow(x: int, n: nat): int {
    if n == 0 then 1 else x * Pow(x, n - 1)
  }

  lemma {:induction false} PowAdds(x: int, m: nat, n: nat)
    ensures Pow(x, m + n) == Pow(x, m) * Pow(x, n)
  {
    if m > 0 {
      PowAdds(x, m - 1, n);
      MulAssoc(x, Pow(x, m - 1), Pow(x, n));
    }
  }

  /** `t` holds the n-th power of `z` modulo 2^255-19. */
  ghost predicate Power(t: Limbs, z: int, n: nat) {
    Bounded(t) && Value(t) % P == Pow(z, n) % P
  }

  lemma ModTimes(x: int, y: int, x': int, y': int)
    requires x % P == x' % P && y % P == y' % P
    ensures (x * y) % P == (x' * y') % P
  {
    ModFactor(x, x', y);
    ModFactor(y, y', x');
  }

  lemma ModFactor(x: int, x': int, y: int)
    requires x % P == x' % P
    ensures (x * y) % P == (x' * y) % P && (y * x) % P == (y * x') % P
  {
    var k := x / P - x' / P;
    assert x == x' + P * k;
    Scaled(x', k, y);
    ModAdds(x' * y, k * y, P);
  }

  lemma Scaled(x: int, k: int, y: int)
    ensures (x + P * k) * y == x * y + P * (k * y)
    ensures y * (x + P * k) == x * y + P * (k * y)
  {
  }

  method Multiply(a: Limbs, b: Limbs, ghost z: int, ghost m: nat, ghost n: nat) returns (r: Limbs)
    requires Power(a, z, m) && Power(b, z, n)
    ensures Power(r, z, m + n)
  {
    hide Value, Pow;
    r := FeMul(a, b);
    ModTimes(Value(a), Value(b), Pow(z, m), Pow(z, n));
    PowAdds(z, m, n);
  }

  method Square(a: Limbs, ghost z: int, ghost m: nat) returns (r: Limbs)
    requires Power(a, z, m)
    ensures Power(r, z, 2 * m)
  {
    hide Value, Pow;
    r := FeSquare(a);
    ModTimes(Value(a), Value(a), Pow(z, m), Pow(z, m));
    PowAdds(z, m, m);
  }

  /** One squaring into a new element, then n-1 squarings in place. */
  method SquareTimes(a: Limbs, n: nat, ghost z: int, ghost m: nat) returns (r: Limbs)
    requires n >= 1 && Power(a, z, m)
    ensures Power(r, z, m * Pow2(n))
  {
    hide Power;
    r := Square(a, z, m);
    var i := 1;
    while i < n
      invariant 1 <= i <= n && Power(r, z, m * Pow2(i))
    {
      r := Square(r, z, m * Pow2(i));
      assert 2 * (m * Pow2(i)) == m * Pow2(i + 1) by {
        Twice(m, Pow2(i));
      }
      i := i + 1;
    }
  }

  lemma Twice(m: int, p: int)
    ensures 2 * (m * p) == m * (2 * p)
  {
  }

  /** 2^k - 1. */
  function Ones(k: nat): nat {
    Pow2(k) - 1
  }

  lemma OnesAdd(j: nat, k: nat)
    ensures Ones(j) * Pow2(k) + Ones(k) == Ones(j + k)
  {
    Pow2Adds(j, k);
    Distribution(Pow2(j), Pow2(k));
  }

  lemma Distribution(a: int, b: int)
    ensures (a - 1) * b + b - 1 == a * b - 1
  {
  }

  lemma SmallOnes()
    ensures Pow2(1) == 2 && Pow2(2) == 4 && Pow2(5) == 32 && Ones(5) == 31
  {
    assert Pow2(3) == 8;
  }

  lemma TopOnes()
    ensures Ones(250) * Pow2(5) + 11 == P - 2
    ensures Ones(250) * Pow2(2) + 1 == (P - 5) / 8
  {
    SmallOnes();
    hide Pow2;
    Doubled(5, 0x20);
    Doubled(10, 0x400);
    Doubled(20, 0x10_0000);
    Pow2Adds(40, 10);
    Doubled(50, 0x4_0000_0000_0000);
    Doubled(100, 0x4_0000_0000_0000 * 0x4_0000_0000_0000);
    Pow2Adds(200, 50);
  }

  lemma Doubled(k: nat, p: nat)
    requires Pow2(k) == p
    ensures Pow2(2 * k) == p * p
  {
    Pow2Adds(k, k);
  }

  lemma PowerMeans(t: Limbs, z: int, n: nat)
    requires Power(t, z, n)
    ensures Bounded(t) && Value(t) % P == Pow(z, n) % P
  {
  }

  lemma FirstPower(z: Limbs)
    requires Bounded(z)
    ensures Power(z, Value(z), 1)
  {
    assert Pow(Value(z), 1) == Value(z);
  }

  /** Squares `a` k times and multiplies by `b`: a run of j ones in the exponent becomes a run of j+k. */
  method Lengthen(a: Limbs, j: nat, b: Limbs, k: nat, ghost z: int) returns (r: Limbs)
    requires k >= 1 && Power(a, z, Ones(j)) && Power(b, z, Ones(k))
    ensures Power(r, z, Ones(j + k))
  {
    hide Power, Pow2, Ones;
    r := SquareTimes(a, k, z, Ones(j));
    OnesAdd(j, k);
    r := Multiply(r, b, z, Ones(j) * Pow2(k), Ones(k));
  }

  /** z^(2^250 - 1) and z^11, the part both exponentiations share. */
  method Chain(z: Limbs) returns (t1: Limbs, t0: Limbs)
    requires Bounded(z)
    ensures Power(t1, Value(z), Ones(250)) && Power(t0, Value(z), 11)
  {
    ghost var v := Value(z);
    FirstPower(z);
    SmallOnes();
    hide *;
    t0 := Square(z, v, 1);
    t1 := SquareTimes(t0, 2, v, 2);
    t1 := Multiply(z, t1, v, 1, 8);
    t0 := Multiply(t0, t1, v, 2, 9);
    var t2 := Square(t0, v, 11);
    t1 := Multiply(t1, t2, v, 9, 22);
    t1 := Lengthen(t1, 5, t1, 5, v);
    t2 := Lengthen(t1, 10, t1, 10, v);
    t2 := Lengthen(t2, 20, t2, 20, v);
    t1 := Lengthen(t2, 40, t1, 10, v);
    t2 := Lengthen(t1, 50, t1, 50, v);
    t2 := Lengthen(t2, 100, t2, 100, v);
    t1 := Lengthen(t2, 200, t1, 50, v);
  }

  /** `FeInvert`: z to the power p-2. */
  method FeInvert(z: Limbs) returns (out: Limbs)
    requires Bounded(z)
    ensures Bounded(out) && Value(out) % P == Pow(Value(z), P - 2) % P
  {
    var t1, t0 := Chain(z);
    TopOnes();
    hide Power, Value, Ones, Pow2;
    t1 := SquareTimes(t1, 5, Value(z), Ones(250));
    out := Multiply(t1, t0, Value(z), Ones(250) * Pow2(5), 11);
    PowerMeans(out, Value(z), P - 2);
  }

  /** `fePow22523`: z to the power (p-5)/8. */
  method FePow22523(z: Limbs) returns (out: Limbs)
    requires Bounded(z)
    ensures Bounded(out) && Value(out) % P == Pow(Value(z), (P - 5) / 8) % P
  {
    var t0, _ := Chain(z);
    FirstPower(z);
    TopOnes();
    hide Power, Value, Ones, Pow2;
    t0 := SquareTimes(t0, 2, Value(z), Ones(250));
    out := Multiply(t0, z, Value(z), Ones(250) * Pow2(2), 1);
    PowerMeans(out, Value(z), (P - 5) / 8);
  }
}
