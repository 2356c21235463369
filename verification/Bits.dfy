/**
 Bitwise operators on natural numbers, by their definition bit by bit, and the two
 arithmetic facts the source relies on: a mask is a remainder, and joining values
 that have no bit in common is addition.
 */
module Bits {

  import opened Radix

  type Byte = x: int | 0 <= x < 256

  function Pow2(k: nat): (r: nat)
    ensures r > 0
  {
    if k == 0 then 1 else 2 * Pow2(k - 1)
  }

  lemma {:induction false} Pow2Adds(j: nat, k: nat)
    ensures Pow2(j + k) == Pow2(j) * Pow2(k)
  {
    if j > 0 {
      Pow2Adds(j - 1, k);
      MulAssoc(2, Pow2(j - 1), Pow2(k));
    }
  }

  lemma {:induction false} Pow2Monotone(j: nat, k: nat)
    requires j <= k
    ensures Pow2(j) <= Pow2(k)
    decreases k
  {
    if j < k {
      Pow2Monotone(j, k - 1);
    }
  }

  /** In a base that is a power of two, weights are powers of two. */
  lemma {:induction false} WeightIsPow2(base: int, bits: nat, i: nat)
    requires base == Pow2(bits)
    ensures Weight(base, i) == Pow2(bits * i)
  {
    if i == 0 {
      assert bits * i == 0;
    } else {
      WeightIsPow2(base, bits, i - 1);
      assert bits * i == bits + bits * (i - 1);
      Pow2Adds(bits, bits * (i - 1));
    }
  }

  /** `x >> k`. */
  function Shr(x: nat, k: nat): (r: nat)
    ensures r == x / Pow2(k)
  {
    DivNonNegative(x, Pow2(k));
    x / Pow2(k)
  }

  /** `x << k`, with no bit lost. */
  function Shl(x: nat, k: nat): (r: nat)
    ensures r == x * Pow2(k)
  {
    MulMonotone(x, 0, Pow2(k));
    x * Pow2(k)
  }

  function And(a: nat, b: nat): nat
    decreases a
  {
    if a == 0 then 0 else 2 * And(a / 2, b / 2) + (if a % 2 == 1 && b % 2 == 1 then 1 else 0)
  }

  function Or(a: nat, b: nat): nat
    decreases a + b
  {
    if a == 0 && b == 0 then 0
    else 2 * Or(a / 2, b / 2) + (if a % 2 == 1 || b % 2 == 1 then 1 else 0)
  }

  function Xor(a: nat, b: nat): nat
    decreases a + b
  {
    if a == 0 && b == 0 then 0
    else 2 * Xor(a / 2, b / 2) + (if a % 2 != b % 2 then 1 else 0)
  }

  lemma {:induction false} MaskIsRemainder(a: nat, k: nat)
    ensures And(a, Pow2(k) - 1) == And(Pow2(k) - 1, a) == a % Pow2(k)
  {
    if k == 0 {
      AndZero(a);
    } else {
      var m := Pow2(k - 1);
      MaskIsRemainder(a / 2, k - 1);
      assert (2 * m - 1) / 2 == m - 1;
      HalfRemainder(a, m);
    }
  }

  lemma AndZero(a: nat)
    ensures And(a, 0) == 0
  {
  }

  lemma HalfRemainder(a: nat, m: nat)
    requires m > 0
    ensures a % (2 * m) == 2 * (a / 2 % m) + a % 2
  {
    DivDiv(a, 2, m);
    var q := a / 2 / m;
    assert a / 2 == m * q + a / 2 % m;
    assert 2 * (m * q) == (2 * m) * q;
    DivUnique(a, 2 * m, q, 2 * (a / 2 % m) + a % 2);
  }

  lemma {:induction false} JoinIsSum(a: nat, b: nat, k: nat)
    requires a < Pow2(k)
    ensures Or(a, Shl(b, k)) == Xor(a, Shl(b, k)) == a + b * Pow2(k)
  {
    if k == 0 {
      assert b * Pow2(0) == b;
      JoinZero(b);
    } else {
      var c := Shl(b, k - 1);
      assert Shl(b, k) == 2 * c;
      JoinIsSum(a / 2, b, k - 1);
      assert (2 * c) / 2 == c && (2 * c) % 2 == 0;
    }
  }

  lemma JoinZero(b: nat)
    ensures Or(0, b) == Xor(0, b) == b
  {
  }

  lemma ShlStep(x: nat, k: nat)
    requires k > 0
    ensures Shl(x, k) == 2 * Shl(x, k - 1)
  {
    MulAssoc(x, 2, Pow2(k - 1));
  }

  lemma {:induction false} AndShifts(x: nat, m: nat, k: nat)
    ensures And(Shl(x, k), Shl(m, k)) == Shl(And(x, m), k)
  {
    if k == 0 {
      assert Shl(x, 0) == x && Shl(m, 0) == m;
    } else {
      hide And, Shl;
      AndShifts(x, m, k - 1);
      ShlStep(x, k);
      ShlStep(m, k);
      ShlStep(And(x, m), k);
      AndDoubles(Shl(x, k - 1), Shl(m, k - 1));
    }
  }

  lemma AndDoubles(a: nat, b: nat)
    ensures And(2 * a, 2 * b) == 2 * And(a, b)
  {
  }

  lemma {:induction false} XorCancels(a: nat, b: nat)
    ensures Xor(a, Xor(a, b)) == b && Xor(a, 0) == a
    decreases a + b
  {
    if a != 0 || b != 0 {
      XorCancels(a / 2, b / 2);
      if a != 0 {
        XorCancels(a / 2, 0);
      }
    }
  }

  lemma {:induction false} XorItself(a: nat)
    ensures Xor(a, a) == 0
  {
    if a > 0 {
      XorItself(a / 2);
    }
  }

  lemma {:induction false} XorRange(a: nat, b: nat, k: nat)
    requires a < Pow2(k) && b < Pow2(k)
    ensures Xor(a, b) < Pow2(k)
    decreases k
  {
    if k > 0 {
      XorRange(a / 2, b / 2, k - 1);
    }
  }
}
