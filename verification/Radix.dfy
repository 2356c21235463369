/**
 Numbers written in a positional system, least significant digit first.  Digits may
 be any integers; a row of digits all in [0, base) is the ordinary representation.
 */
module Radix {

  function Weight(base: int, i: nat): (w: int)
    ensures base > 0 ==> w > 0
  {
    if i == 0 then 1 else base * Weight(base, i - 1)
  }

  function Val(base: int, s: seq<int>): int {
    if s == [] then 0 else s[0] + base * Val(base, s[1..])
  }

  predicate Digits(base: int, s: seq<int>) {
    forall i | 0 <= i < |s| :: 0 <= s[i] < base
  }

  lemma MulAssoc(a: int, b: int, c: int)
    ensures a * (b * c) == (a * b) * c
  {
  }

  lemma Distribute(a: int, x: int, w: int, y: int)
    ensures a * (x + w * y) == a * x + (a * w) * y
  {
  }

  lemma MulMonotone(a: int, b: int, c: int)
    requires a >= 0 && b <= c
    ensures a * b <= a * c
  {
  }

  lemma {:induction false} WeightAdds(base: int, i: nat, j: nat)
    ensures Weight(base, i + j) == Weight(base, i) * Weight(base, j)
  {
    if i > 0 {
      WeightAdds(base, i - 1, j);
      MulAssoc(base, Weight(base, i - 1), Weight(base, j));
    }
  }

  lemma {:induction false} ValUpdate(base: int, s: seq<int>, i: nat, x: int)
    requires i < |s|
    ensures Val(base, s[i := x]) == Val(base, s) + (x - s[i]) * Weight(base, i)
  {
    hide Val, Weight;
    ValUnfolds(base, s);
    ValUnfolds(base, s[i := x]);
    WeightUnfolds(base, i);
    if i == 0 {
      assert s[i := x][1..] == s[1..];
    } else {
      ValUpdate(base, s[1..], i - 1, x);
      assert s[i := x][1..] == s[1..][i - 1 := x];
      Distribute(base, Val(base, s[1..]), Weight(base, i - 1), x - s[i]);
    }
  }

  lemma ValUnfolds(base: int, s: seq<int>)
    requires s != []
    ensures Val(base, s) == s[0] + base * Val(base, s[1..])
  {
  }

  lemma WeightUnfolds(base: int, i: nat)
    ensures Weight(base, i) == if i == 0 then 1 else base * Weight(base, i - 1)
  {
  }

  lemma ValChange(base: int, s: seq<int>, i: nat, d: int)
    requires i < |s|
    ensures Val(base, s[i := s[i] + d]) == Val(base, s) + d * Weight(base, i)
  {
    hide Val, Weight;
    ValUpdate(base, s, i, s[i] + d);
  }

  lemma {:induction false} ValSplits(base: int, s: seq<int>, n: nat)
    requires n <= |s|
    ensures Val(base, s) == Val(base, s[..n]) + Weight(base, n) * Val(base, s[n..])
  {
    if n == 0 {
      assert s[..0] == [] && s[0..] == s;
    } else {
      ValSplits(base, s[1..], n - 1);
      assert s[1..][..n - 1] == s[..n][1..] && s[1..][n - 1..] == s[n..];
      Distribute(base, Val(base, s[1..n]), Weight(base, n - 1), Val(base, s[n..]));
    }
  }

  lemma {:induction false} DigitsRange(base: int, s: seq<int>)
    requires base > 0 && Digits(base, s)
    ensures 0 <= Val(base, s) < Weight(base, |s|)
  {
    if s != [] {
      DigitsRange(base, s[1..]);
      RangeStep(base, s[0], Val(base, s[1..]), Weight(base, |s| - 1));
    }
  }

  lemma RangeStep(base: int, x: int, v: int, w: int)
    requires 0 <= x < base && 0 <= v < w
    ensures 0 <= x + base * v < base * w
  {
    MulMonotone(base, 0, v);
    MulMonotone(base, v, w - 1);
  }

  lemma DivUnique(x: int, d: int, q: int, r: int)
    requires 0 <= r < d && x == r + d * q
    ensures x / d == q && x % d == r
  {
    var q' := x / d;
    assert x == d * q' + x % d;
    if q' < q {
      MulMonotone(d, q', q - 1);
    } else if q' > q {
      MulMonotone(d, q, q' - 1);
    }
  }

  lemma DivNonNegative(x: int, d: int)
    requires x >= 0 && d > 0
    ensures x / d >= 0
  {
    if x / d < 0 {
      MulMonotone(d, x / d, -1);
    }
  }

  lemma DivDiv(x: int, a: int, b: int)
    requires a > 0 && b > 0
    ensures a * b > 0 && x / (a * b) == x / a / b
  {
    var q, r := x / a, x % a;
    var q', r' := q / b, q % b;
    assert q == r' + b * q';
    RangeStep(a, r, r', b);
    assert a * (r' + b * q') == a * r' + (a * b) * q';
    DivUnique(x, a * b, q', r + a * r');
  }

  lemma ModAdds(x: int, z: int, m: int)
    requires m > 0
    ensures (x + m * z) % m == x % m
  {
    DivUnique(x + m * z, m, x / m + z, x % m) by {
      assert m * (x / m + z) == m * (x / m) + m * z;
    }
  }

  lemma ShiftMod(x: int, t: int, p: int, c: int, m: int)
    requires p > 0 && m > 0
    ensures (x + (p * (m * c)) * t) / p % m == x / p % m
  {
    var z := c * t;
    assert (p * (m * c)) * t == p * (m * z) by {
      MulAssoc(p, m * c, t);
      MulAssoc(m, c, t);
    }
    DivUnique(x + p * (m * z), p, x / p + m * z, x % p) by {
      assert p * (x / p + m * z) == p * (x / p) + p * (m * z);
    }
    ModAdds(x / p, z, m);
  }

  lemma DivLess(x: int, p: int, q: int)
    requires p > 0 && 0 <= x < p * q
    ensures x / p < q
  {
    if x / p >= q {
      MulMonotone(p, q, x / p);
    }
  }

  lemma DivSplits(x: int, y: int, p: int, q: int)
    requires p > 0
    ensures (x + (p * q) * y) / p == x / p + y * q
  {
    assert p * (x / p + y * q) == p * (x / p) + (p * q) * y;
    DivUnique(x + (p * q) * y, p, x / p + y * q, x % p);
  }

  /** Dropping the low digits divides by their weight. */
  lemma ValDrops(base: int, s: seq<int>, n: nat)
    requires base > 0 && n <= |s| && Digits(base, s[..n])
    ensures Val(base, s) / Weight(base, n) == Val(base, s[n..])
    ensures Val(base, s) % Weight(base, n) == Val(base, s[..n])
  {
    ValSplits(base, s, n);
    DigitsRange(base, s[..n]);
    DivUnique(Val(base, s), Weight(base, n), Val(base, s[n..]), Val(base, s[..n]));
  }

  /** A row whose digits are read off `v` stands for `v`, up to what is left above it. */
  lemma {:induction false} ReadOff(base: int, s: seq<int>, v: int)
    requires base > 0
    requires forall i | 0 <= i < |s| :: s[i] == v / Weight(base, i) % base
    ensures Val(base, s) + Weight(base, |s|) * (v / Weight(base, |s|)) == v
  {
    if s != [] {
      var u := v / base;
      forall i | 0 <= i < |s| - 1
        ensures s[1..][i] == u / Weight(base, i) % base
      {
        DivDiv(v, base, Weight(base, i));
        assert s[1..][i] == s[i + 1];
      }
      ReadOff(base, s[1..], u);
      DivDiv(v, base, Weight(base, |s| - 1));
      assert s[0] == v / Weight(base, 0) % base;
      ReadOffStep(base, s[0], v, Val(base, s[1..]), Weight(base, |s| - 1));
    }
  }

  lemma ReadOffStep(base: int, x: int, v: int, rest: int, w: int)
    requires base > 0 && w > 0 && x == v % base && rest + w * (v / base / w) == v / base
    ensures x + base * rest + (base * w) * (v / base / w) == v
  {
    var q := v / base / w;
    assert base * (rest + w * q) == base * rest + (base * w) * q;
  }
}
