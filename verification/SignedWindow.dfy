/**
 The signed sliding-window recoding `slide` of
 crypto/ed25519/internal/edwards25519/group.go: 256 bits are turned in place into
 digits that are 0 or odd between -15 and 15, at least five places apart.
 */
module SignedWindow {

  import opened Radix
  import opened Bits

  // ----- Reference definition -----

  /** The lowest digit of the width-5 signed form of `n`. */
  function Digit(n: int): int {
    if n % 2 == 0 then 0 else if n % 32 < 16 then n % 32 else n % 32 - 32
  }

  /** What is left of `n` once its lowest digit is taken off. */
  function Next(n: int): int {
    (n - Digit(n)) / 2
  }

  /** The lowest `len` digits of `n`. */
  function Naf(n: int, len: nat): (s: seq<int>)
    ensures |s| == len
    decreases len
  {
    if len == 0 then [] else [Digit(n)] + Naf(Next(n), len - 1)
  }

  function Left(n: int, len: nat): int
    decreases len
  {
    if len == 0 then n else Left(Next(n), len - 1)
  }

  predicate GoodDigit(d: int) {
    d == 0 || (d % 2 == 1 && -15 <= d <= 15)
  }

  lemma TakeDigit(n: int)
    ensures n == Digit(n) + 2 * Next(n)
    ensures GoodDigit(Digit(n))
    ensures Digit(n) != 0 ==> Next(n) % 16 == 0
  {
  }

  lemma {:induction false} NafValue(n: int, len: nat)
    ensures Val(2, Naf(n, len)) + Weight(2, len) * Left(n, len) == n
    decreases len
  {
    if len > 0 {
      TakeDigit(n);
      hide Digit, Next;
      NafValue(Next(n), len - 1);
      assert Naf(n, len)[1..] == Naf(Next(n), len - 1);
      MulAssoc(2, Weight(2, len - 1), Left(Next(n), len - 1));
    }
  }

  lemma {:induction false} NafDigits(n: int, len: nat)
    ensures forall i | 0 <= i < len :: GoodDigit(Naf(n, len)[i])
    decreases len
  {
    if len > 0 {
      TakeDigit(n);
      hide Digit, Next, GoodDigit;
      NafDigits(Next(n), len - 1);
    }
  }

  lemma {:induction false} NafZeros(n: int, len: nat, k: nat)
    requires n % Pow2(k) == 0
    ensures forall i | 0 <= i < k && i < len :: Naf(n, len)[i] == 0
    decreases len
  {
    if k > 0 && len > 0 {
      HalfEven(n, Pow2(k - 1));
      NafZeros(Next(n), len - 1, k - 1);
    }
  }

  lemma HalfEven(n: int, m: int)
    requires m > 0 && n % (2 * m) == 0
    ensures n % 2 == 0 && (n / 2) % m == 0
  {
    var q := n / (2 * m);
    assert n == 2 * (m * q);
    DivUnique(n / 2, m, q, 0);
  }

  /** Any two non-zero digits are at least five places apart. */
  lemma {:induction false} NafSparse(n: int, len: nat, i: nat, j: nat)
    requires i < j < len && j < i + 5 && Naf(n, len)[i] != 0
    ensures Naf(n, len)[j] == 0
    decreases len
  {
    if i == 0 {
      TakeDigit(n);
      assert Pow2(4) == 16;
      hide Next, Digit, Pow2;
      NafZeros(Next(n), len - 1, 4);
    } else {
      hide Next, Digit;
      NafSparse(Next(n), len - 1, i - 1, j - 1);
    }
  }

  /** Rounding to a multiple of 32 does not pass a multiple of 32. */
  lemma NextBelow(n: int, q: int)
    requires 0 <= n <= 32 * q
    ensures 0 <= Next(n) <= 16 * q
  {
    var h, v := n / 32, n % 32;
    assert n == v + 32 * h;
    if v % 2 == 1 {
      DigitOf(v, h);
      hide Next, Digit;
    } else {
      EvenNext(n);
      hide Next, Digit;
    }
  }

  lemma EvenNext(n: int)
    requires n % 2 == 0
    ensures Next(n) == n / 2
  {
  }

  lemma NextSmall(n: int, m: int)
    requires 0 <= n <= m && (m % 32 == 0 || m in {1, 2, 4, 8, 16})
    ensures 0 <= Next(n) <= m / 2
  {
    if m % 32 == 0 {
      assert m == 32 * (m / 32);
      NextBelow(n, m / 32);
    }
  }

  lemma {:induction false} PowerShape(k: nat)
    ensures k >= 5 ==> Pow2(k) % 32 == 0
    ensures k < 5 ==> Pow2(k) in {1, 2, 4, 8, 16}
  {
    if k >= 5 {
      Pow2Adds(5, k - 5);
      assert Pow2(5) == 32;
    } else {
      assert Pow2(0) == 1 && Pow2(1) == 2 && Pow2(2) == 4 && Pow2(3) == 8 && Pow2(4) == 16;
    }
  }

  /** A number with a spare top bit is written out completely. */
  lemma {:induction false} NothingLeft(n: int, len: nat)
    requires len > 0 && 0 <= n <= Pow2(len - 1)
    ensures Left(n, len) == 0
    decreases len
  {
    PowerShape(len - 1);
    NextSmall(n, Pow2(len - 1));
    hide Next, Digit;
    if len > 1 {
      NothingLeft(Next(n), len - 1);
    }
  }

  // ----- One window, on values -----

  predicate Binary(t: seq<int>) {
    forall i | 0 <= i < |t| :: t[i] == 0 || t[i] == 1
  }

  /** One is added to a row of bits; a carry out of the last bit is dropped. */
  function Incr(t: seq<int>): (r: seq<int>)
    ensures |r| == |t|
  {
    if t == [] then [] else if t[0] == 0 then [1] + t[1..] else [0] + Incr(t[1..])
  }

  predicate AllZero(t: seq<int>) {
    forall i | 0 <= i < |t| :: t[i] == 0
  }

  lemma {:induction false} IncrValue(t: seq<int>)
    requires Binary(t)
    ensures Binary(Incr(t))
    ensures Val(2, Incr(t)) == Val(2, t) + 1 || (AllZero(Incr(t)) && Val(2, t) + 1 == Weight(2, |t|))
  {
    if t != [] {
      IncrValue(t[1..]);
      assert Incr(t)[1..] == if t[0] == 0 then t[1..] else Incr(t[1..]);
    }
  }

  /** `r` stands for `n`, or for `n` less a carry that has left the row. */
  predicate StandsFor(r: seq<int>, n: int) {
    n == Val(2, r) || (AllZero(r) && n == Weight(2, |r|))
  }

  function Min(a: int, b: int): int {
    if a < b then a else b
  }

  function Zeros(k: nat): (z: seq<int>)
    ensures |z| == k && AllZero(z)
  {
    seq(k, _ => 0)
  }

  /** What `slide` makes of the bits from a non-zero one on. */
  function Window(t: seq<int>): (r: seq<int>)
    requires |t| > 0
    ensures |r| == |t|
  {
    var w := Min(5, |t|);
    var v := Val(2, t[..w]);
    var zeros := Zeros(w - 1);
    if v < 16 then [v] + zeros + t[w..] else [v - 32] + zeros + Incr(t[w..])
  }

  lemma {:induction false} BinaryRange(t: seq<int>)
    requires Binary(t)
    ensures 0 <= Val(2, t) < Weight(2, |t|)
  {
    DigitsRange(2, t);
  }

  lemma {:induction false} ZerosValue(t: seq<int>, k: nat)
    requires k <= |t| && AllZero(t[..k])
    ensures Val(2, t) == Weight(2, k) * Val(2, t[k..])
    decreases k
  {
    ValSplits(2, t, k);
    ZeroVal(t[..k]);
  }

  lemma {:induction false} ZeroVal(t: seq<int>)
    requires AllZero(t)
    ensures Val(2, t) == 0
  {
    if t != [] {
      ZeroVal(t[1..]);
    }
  }

  lemma Weights2()
    ensures Weight(2, 0) == 1 && Weight(2, 1) == 2 && Weight(2, 2) == 4 && Weight(2, 3) == 8
    ensures Weight(2, 4) == 16 && Weight(2, 5) == 32
  {
  }

  lemma EmptyVal()
    ensures Val(2, []) == 0
  {
  }

  lemma DigitOf(v: int, h: int)
    requires 0 <= v < 32 && v % 2 == 1
    ensures Digit(v + 32 * h) == if v < 16 then v else v - 32
    ensures Next(v + 32 * h) == if v < 16 then 16 * h else 16 * (h + 1)
  {
    assert (v + 32 * h) % 32 == v;
  }

  /** The row is `zeros` zeros and then `rest`. */
  lemma ZerosThen(rest: seq<int>, k: nat)
    ensures var r := Zeros(k) + rest;
            Val(2, r) == Weight(2, k) * Val(2, rest) && (Binary(rest) ==> Binary(r))
            && (AllZero(rest) ==> AllZero(r))
  {
    var r := Zeros(k) + rest;
    hide Val, Weight;
    assert r[..k] == Zeros(k) && r[k..] == rest;
    ZerosValue(r, k);
  }

  lemma LowBitOdd(t: seq<int>)
    requires |t| > 0 && t[0] == 1
    ensures Val(2, t) % 2 == 1
  {
  }

  lemma ShortWindow(t: seq<int>)
    requires 0 < |t| < 5 && Binary(t) && t[0] == 1
    ensures Window(t)[0] == Digit(Val(2, t))
    ensures Binary(Window(t)[1..]) && StandsFor(Window(t)[1..], Next(Val(2, t)))
  {
    Weights2();
    hide Weight, Val;
    assert t[..|t|] == t && t[|t|..] == [];
    LowBitOdd(t);
    BinaryRange(t);
    DigitOf(Val(2, t), 0);
    EmptyVal();
    hide Digit, Next;
    assert Window(t)[1..] == Zeros(|t| - 1) + [];
    ZerosThen([], |t| - 1);
  }

  lemma FullWindowShape(t: seq<int>)
    requires |t| >= 5
    ensures var v := Val(2, t[..5]);
            && Window(t)[0] == (if v < 16 then v else v - 32)
            && Window(t)[1..] == Zeros(4) + (if v < 16 then t[5..] else Incr(t[5..]))
  {
    hide Val, Incr;
  }

  lemma ZerosStand(rest: seq<int>, q: int)
    requires Binary(rest) && StandsFor(rest, q)
    ensures Binary(Zeros(4) + rest) && StandsFor(Zeros(4) + rest, 16 * q)
  {
    Weights2();
    hide Val, Weight;
    ZerosThen(rest, 4);
    WeightAdds(2, 4, |rest|);
  }

  lemma IncrStands(t: seq<int>)
    requires Binary(t)
    ensures Binary(Incr(t)) && StandsFor(Incr(t), Val(2, t) + 1)
  {
    IncrValue(t);
  }

  lemma FullWindow(t: seq<int>)
    requires |t| >= 5 && Binary(t) && t[0] == 1
    ensures Window(t)[0] == Digit(Val(2, t))
    ensures Binary(Window(t)[1..]) && StandsFor(Window(t)[1..], Next(Val(2, t)))
  {
    hide *;
    var v, h := Val(2, t[..5]), Val(2, t[5..]);
    FullWindowParts(t);
    FullWindowShape(t);
    DigitOf(v, h);
    if v < 16 {
      ZerosStand(t[5..], h);
    } else {
      IncrStands(t[5..]);
      ZerosStand(Incr(t[5..]), h + 1);
    }
  }

  lemma FullWindowParts(t: seq<int>)
    requires |t| >= 5 && Binary(t) && t[0] == 1
    ensures Binary(t[..5]) && Binary(t[5..]) && StandsFor(t[5..], Val(2, t[5..]))
    ensures Val(2, t) == Val(2, t[..5]) + 32 * Val(2, t[5..])
    ensures 0 <= Val(2, t[..5]) < 32 && Val(2, t[..5]) % 2 == 1
  {
    Weights2();
    hide Weight, Val;
    LowBitOdd(t[..5]);
    BinaryRange(t[..5]);
    ValSplits(2, t, 5);
  }

  /** One window takes the lowest digit off the number and leaves the rest in the later bits. */
  lemma WindowTakesDigit(t: seq<int>)
    requires |t| > 0 && Binary(t) && t[0] == 1
    ensures Window(t)[0] == Digit(Val(2, t))
    ensures Binary(Window(t)[1..]) && StandsFor(Window(t)[1..], Next(Val(2, t)))
  {
    if |t| < 5 {
      ShortWindow(t);
    } else {
      FullWindow(t);
    }
  }

  // ----- The recoding in place -----

  lemma IncrFirst(t: seq<int>)
    requires |t| > 0
    ensures t[0] == 0 ==> Incr(t) == [1] + t[1..]
    ensures t[0] != 0 ==> Incr(t) == [0] + Incr(t[1..])
  {
  }

  /** The carry loop: one is added from position `from` on. */
  method CarryOn(r: array<int>, from: nat)
    requires from <= r.Length
    modifies r
    ensures r[..] == old(r[..from]) + Incr(old(r[from..]))
  {
    hide Incr;
    ghost var goal := r[..from] + Incr(r[from..]);
    var k := from;
    while k < r.Length
      invariant from <= k <= r.Length
      invariant goal == r[..k] + Incr(r[k..])
    {
      ghost var low, rest := r[..k], r[k + 1..];
      IncrFirst(r[k..]);
      assert r[k..][1..] == rest;
      if r[k] == 0 {
        r[k] := 1;
        assert r[..] == low + [1] + rest;
        return;
      }
      r[k] := 0;
      assert r[..k + 1] == low + [0];
      assert r[k + 1..] == rest;
      k := k + 1;
    }
    assert r[k..] == [] && Incr([]) == [];
    assert r[..k] == r[..];
  }

  /** A window of which `b` bits have been gathered into the first. */
  function Gathered(t: seq<int>, b: nat): (r: seq<int>)
    requires 0 < b <= |t|
    ensures |r| == |t|
  {
    [Val(2, t[..b])] + Zeros(b - 1) + t[b..]
  }

  lemma GatherOne(t: seq<int>, b: nat)
    requires 0 < b < |t|
    ensures Gathered(t, b)[b] == t[b]
    ensures Gathered(t, b + 1) == Gathered(t, b)[0 := Val(2, t[..b]) + t[b] * Weight(2, b)][b := 0]
  {
    assert t[..b + 1][..b] == t[..b] && t[..b + 1][b..] == [t[b]];
    assert Val(2, [t[b]]) == t[b] + 2 * Val(2, []);
    hide Val, Weight;
    EmptyVal();
    ValSplits(2, t[..b + 1], b);
  }

  lemma GatheredIsWindow(t: seq<int>, b: nat)
    requires 0 < b <= |t| && b <= 5 && Binary(t) && t[0] == 1
    requires b == |t| < 5 || (b == 5 && t[4] == 0)
    ensures Gathered(t, b) == Window(t)
  {
    Weights2();
    assert t[..b][0] == 1;
    hide Val, Weight, Incr;
    BinaryRange(t[..b]);
    if b == 5 {
      GatherOne(t, 4);
      BinaryRange(t[..4]);
      assert Gathered(t, 5)[0] == Val(2, t[..5]);
    }
  }

  /** With the fifth bit set, the window turns negative and a carry starts at that bit. */
  lemma NegativeWindow(t: seq<int>)
    requires |t| >= 5 && Binary(t) && t[4] == 1
    ensures 0 <= Val(2, t[..4]) < 16
    ensures Window(t) == [Val(2, t[..4]) - 16] + Zeros(3) + Incr(t[4..])
  {
    Weights2();
    assert Incr(t[4..]) == [0] + Incr(t[5..]) by { assert t[4..][1..] == t[5..]; }
    hide Val, Weight, Incr;
    GatherOne(t, 4);
    BinaryRange(t[..4]);
    assert Gathered(t, 5)[0] == Val(2, t[..5]);
  }

  /** The first digit of a window is odd, so no later bit can be absorbed. */
  lemma WindowCloses(t: seq<int>, b: nat)
    requires |t| >= 5 && Binary(t) && t[0] == 1 && 1 <= b < |t|
    ensures -15 <= Window(t)[0] <= 15 && 0 <= Window(t)[b] <= 1
  {
    FullWindow(t);
    TakeDigit(Val(2, t));
    assert Window(t)[1..][b - 1] == Window(t)[b];
  }

  predicate Int8(x: int) {
    -128 <= x < 128
  }

  lemma FirstBit(t: seq<int>)
    requires |t| > 0
    ensures Gathered(t, 1) == t
  {
    assert Val(2, t[..1]) == t[0] + 2 * Val(2, []);
  }

  /** The first bits fit: gathering bit b < 4 keeps the digit below 16. */
  lemma GatherFits(t: seq<int>, b: nat)
    requires 0 < b < |t| && b <= 4 && Binary(t) && t[0] == 1
    ensures Gathered(t, b)[0] == Val(2, t[..b])
    ensures 1 <= Val(2, t[..b]) < 16 && (b < 4 ==> Val(2, t[..b]) + Weight(2, b) <= 15)
    ensures Gathered(t, b)[b..] == t[b..] && Binary(t[b..]) && 0 <= t[b] <= 1
  {
    Weights2();
    LowBitOdd(t[..b]);
    hide Val, Weight;
    BinaryRange(t[..b]);
  }

  /** The row when bit i has looked at the `b - 1` bits after it. */
  ghost predicate Looked(r: seq<int>, low: seq<int>, t: seq<int>, b: nat)
    requires 0 < b <= |t|
  {
    r == low + if b <= 4 then Gathered(t, b) else Window(t)
  }

  lemma LookedAt(r: seq<int>, low: seq<int>, t: seq<int>, b: nat)
    requires 0 < b < |t| && b <= 6 && Binary(t) && t[0] == 1 && Looked(r, low, t, b)
    ensures |r| == |low| + |t| && 0 <= r[|low| + b] <= 1
    ensures b <= 4 ==> 1 <= r[|low|] < 16 && r[|low| + b] == t[b]
    ensures b < 4 ==> r[|low|] + Weight(2, b) <= 15
    ensures -15 <= r[|low|] <= 15
  {
    hide Val, Weight, Window, Gathered;
    if b <= 4 {
      GatherFits(t, b);
    } else {
      WindowCloses(t, b);
    }
  }

  /** Nothing to absorb. */
  lemma LookPast(r: seq<int>, low: seq<int>, t: seq<int>, b: nat)
    requires 0 < b < |t| && b <= 6 && Binary(t) && t[0] == 1 && Looked(r, low, t, b) && r[|low| + b] == 0
    ensures Looked(r, low, t, b + 1)
  {
    hide Val, Weight, Window, Gathered;
    if b <= 4 {
      GatherOne(t, b);
      GatherFits(t, b);
      assert Gathered(t, b + 1) == Gathered(t, b);
    }
    if b == 4 {
      GatheredIsWindow(t, 5);
    }
  }

  lemma LookAbsorb(r: seq<int>, low: seq<int>, t: seq<int>, b: nat)
    requires 0 < b < |t| && b < 4 && Binary(t) && t[0] == 1 && Looked(r, low, t, b) && r[|low| + b] == 1
    ensures Looked(r[|low| := r[|low|] + Weight(2, b)][|low| + b := 0], low, t, b + 1)
  {
    hide Val, Weight, Window, Gathered;
    GatherOne(t, b);
    GatherFits(t, b);
  }

  lemma LookBorrow(r: seq<int>, low: seq<int>, t: seq<int>)
    requires |t| >= 5 && Binary(t) && t[0] == 1 && Looked(r, low, t, 4) && r[|low| + 4] == 1
    ensures Binary(r[|low| + 4..])
    ensures var n := |low|;
            Looked(r[n := r[n] - 16][..n + 4] + Incr(r[n + 4..]), low, t, 5)
  {
    hide Val, Weight, Window, Gathered, Incr;
    GatherFits(t, 4);
    GatherOne(t, 4);
    NegativeWindow(t);
    var n := |low|;
    assert r[n + 4..] == t[4..];
    GatheredZeros(t);
    assert r[..n + 4] == low + Gathered(t, 4)[..4];
    assert r[n := r[n] - 16][..n + 4] == low + [Val(2, t[..4]) - 16] + Zeros(3);
  }

  lemma GatheredZeros(t: seq<int>)
    requires |t| >= 5
    ensures Gathered(t, 4)[..4] == [Val(2, t[..4])] + Zeros(3)
  {
    hide Val;
  }

  /** `x << b` for a bit x. */
  lemma ShiftedBit(x: int, b: nat)
    requires 0 <= x <= 1 && 1 <= b <= 6
    ensures x == 1 ==> x * Weight(2, b) == Weight(2, b)
    ensures 0 <= x * Weight(2, b) <= 64 && Weight(2, 4) == 16 && (b >= 5 ==> Weight(2, b) >= 32)
  {
    Weights2();
    assert Weight(2, 6) == 64;
  }

  /** The body of the outer loop: bit `i` absorbs the bits after it. */
  method Absorb(r: array<int>, i: nat)
    requires r.Length == 256 && i < 256 && Binary(r[i..]) && r[i] == 1
    modifies r
    ensures r[..] == old(r[..i]) + Window(old(r[i..]))
  {
    hide Val, Weight, Incr, Binary, Window, Gathered, Looked;
    ghost var low, t := r[..i], r[i..];
    LookFirst(r[..], low, t);
    var b, closed := 1, false;
    while !closed && b <= 6 && i + b < 256
      invariant 1 <= b <= 7 && i + b <= 256 && r.Length == 256
      invariant Looked(r[..], low, t, b)
      invariant closed ==> b >= 5
      decreases !closed, 7 - b
    {
      closed := AbsorbBit(r, i, b, low, t);
      if !closed {
        b := b + 1;
      }
    }
    LookLast(r[..], low, t, b);
  }

  method AbsorbBit(r: array<int>, i: nat, b: nat, ghost low: seq<int>, ghost t: seq<int>) returns (closed: bool)
    requires |low| == i && r.Length == 256 == i + |t| && 1 <= b <= 6 && i + b < 256
    requires Binary(t) && t[0] == 1 && Looked(r[..], low, t, b)
    modifies r
    ensures Looked(r[..], low, t, if closed then b else b + 1)
    ensures closed ==> b >= 5
  {
    hide Val, Weight, Incr, Binary, Window, Gathered, Looked;
    ghost var now := r[..];
    LookedAt(now, low, t, b);
    ShiftedBit(r[i + b], b);
    closed := false;
    var shifted := r[i + b] * Weight(2, b);
    assert Int8(shifted) && Int8(r[i] + shifted) && Int8(r[i] - shifted);
    if r[i + b] == 0 {
      LookPast(now, low, t, b);
    } else if r[i] + shifted <= 15 {
      LookAbsorb(now, low, t, b);
      r[i] := r[i] + shifted;
      r[i + b] := 0;
      assert r[..] == now[i := now[i] + shifted][i + b := 0];
    } else if r[i] - shifted >= -15 {
      LookBorrow(now, low, t);
      r[i] := r[i] - shifted;
      assert r[..] == now[i := now[i] - shifted];
      assert r[i + b..] == now[i + b..];
      CarryOn(r, i + b);
    } else {
      closed := true;
    }
  }

  lemma LookFirst(r: seq<int>, low: seq<int>, t: seq<int>)
    requires r == low + t && |t| > 0
    ensures Looked(r, low, t, 1)
  {
    FirstBit(t);
  }

  lemma LookLast(r: seq<int>, low: seq<int>, t: seq<int>, b: nat)
    requires 0 < b <= |t| && b <= 7 && Binary(t) && t[0] == 1 && Looked(r, low, t, b)
    requires b >= 5 || b == |t|
    ensures r == low + Window(t)
  {
    hide Window, Gathered;
    if b <= 4 {
      GatheredIsWindow(t, b);
    }
  }

  // ----- The whole recoding -----

  /** `1 & (a[i>>3] >> (i&7))`. */
  function BitAt(a: seq<Byte>, i: nat): (x: int)
    requires i / 8 < |a|
  {
    And(1, Shr(a[i / 8], i % 8))
  }

  lemma BitReads(a: seq<Byte>, i: nat)
    requires i / 8 < |a|
    ensures BitAt(a, i) == Val(256, a) / Weight(2, i) % 2
  {
    var k, r := i / 8, i % 8;
    var x, rest := a[k], Val(256, a[k + 1..]);
    BitsAbove(a, k, r);
    assert i == 8 * k + r;
    ByteBit(x, rest, r);
    assert Pow2(1) == 2;
    hide Val, Weight, Pow2, And;
    WeightIsPow2(2, 1, i);
    MaskIsRemainder(Shr(x, r), 1);
  }

  /** What is left of a byte string above bit 8k + r. */
  lemma BitsAbove(a: seq<Byte>, k: nat, r: nat)
    requires k < |a|
    ensures Val(256, a) / Pow2(8 * k + r) == (a[k] + 256 * Val(256, a[k + 1..])) / Pow2(r)
  {
    assert Val(256, a[k..]) == a[k] + 256 * Val(256, a[k + 1..]) by { assert a[k..][1..] == a[k + 1..]; }
    assert Pow2(8) == 256;
    hide Val, Weight, Pow2;
    WeightIsPow2(256, 8, k);
    Pow2Adds(8 * k, r);
    ValDrops(256, a, k);
    DivDiv(Val(256, a), Weight(256, k), Pow2(r));
  }

  lemma ByteBit(x: int, rest: int, r: nat)
    requires r < 8
    ensures (x + 256 * rest) / Pow2(r) % 2 == x / Pow2(r) % 2
  {
    assert Pow2(8) == 256 && Pow2(1) == 2;
    hide Pow2;
    Pow2Adds(r, 8 - r);
    Pow2Adds(1, 7 - r);
    ShiftMod(x, rest, Pow2(r), Pow2(7 - r), 2);
  }

  lemma {:induction false} LeftStep(n: int, i: nat)
    ensures Left(n, i + 1) == Next(Left(n, i))
    decreases i
  {
    if i > 0 {
      LeftStep(Next(n), i - 1);
    }
  }

  lemma {:induction false} NafAt(n: int, len: nat, i: nat)
    requires i < len
    ensures Naf(n, len)[i] == Digit(Left(n, i))
    decreases len
  {
    if i > 0 {
      NafAt(Next(n), len - 1, i - 1);
    }
  }

  lemma ZeroBit(t: seq<int>, n: int)
    requires |t| > 0 && Binary(t) && StandsFor(t, n) && t[0] == 0
    ensures Digit(n) == 0 && Binary(t[1..]) && StandsFor(t[1..], Next(n))
  {
  }

  lemma OneBit(t: seq<int>, n: int)
    requires |t| > 0 && Binary(t) && StandsFor(t, n) && t[0] == 1
    ensures Window(t)[0] == Digit(n) && Binary(Window(t)[1..]) && StandsFor(Window(t)[1..], Next(n))
  {
    WindowTakesDigit(t);
  }

  method LoadBits(r: array<int>, a: seq<Byte>)
    requires r.Length == 256 && |a| == 32
    modifies r
    ensures Binary(r[..]) && StandsFor(r[..], Val(256, a))
  {
    hide Weight, Val, Binary, StandsFor;
    for i := 0 to 256
      invariant forall k | 0 <= k < i :: r[k] == Val(256, a) / Weight(2, k) % 2
    {
      BitReads(a, i);
      r[i] := BitAt(a, i);
    }
    BitsStandFor(r[..], a);
  }

  /** One step of the outer loop, on values: the digit at `i` is settled, the rest stands for what is left. */
  lemma Settle(before: seq<int>, after: seq<int>, i: nat, n: int)
    requires i < |before| == |after| && Binary(before[i..]) && StandsFor(before[i..], Left(n, i))
    requires before[..i] == Naf(n, |before|)[..i] && before[..i] == after[..i]
    requires after[i..] == if before[i] == 0 then before[i..] else Window(before[i..])
    ensures after[..i + 1] == Naf(n, |before|)[..i + 1]
    ensures Binary(after[i + 1..]) && StandsFor(after[i + 1..], Left(n, i + 1))
  {
    hide *;
    var t := before[i..];
    NafAt(n, |before|, i);
    LeftStep(n, i);
    FirstIsBit(t);
    if t[0] == 1 {
      OneBit(t, Left(n, i));
    } else {
      ZeroBit(t, Left(n, i));
    }
    var naf := Naf(n, |before|);
    assert after[i] == after[i..][0];
    assert after[i + 1..] == after[i..][1..];
    assert after[..i + 1] == after[..i] + [after[i]];
    assert naf[..i + 1] == naf[..i] + [naf[i]];
  }

  method Recode(r: array<int>, ghost n: int)
    requires r.Length == 256 && Binary(r[..]) && StandsFor(r[..], n)
    modifies r
    ensures r[..] == Naf(n, 256)
  {
    var len := r.Length;
    assert r[0..] == r[..];
    assert Left(n, 0) == n;
    hide *;
    for i := 0 to len
      invariant r[..i] == Naf(n, len)[..i]
      invariant Binary(r[i..]) && StandsFor(r[i..], Left(n, i))
    {
      ghost var before := r[..];
      assert before[i..] == r[i..];
      assert before[..i] == r[..i];
      FirstIsBit(r[i..]);
      if r[i] != 0 {
        Absorb(r, i);
      }
      Settle(before, r[..], i, n);
      assert r[..][..i + 1] == r[..i + 1];
      assert r[..][i + 1..] == r[i + 1..];
    }
    assert r[..len] == r[..];
    assert Naf(n, len)[..len] == Naf(n, len);
  }

  lemma FirstIsBit(t: seq<int>)
    requires |t| > 0 && Binary(t)
    ensures t[0] == 0 || t[0] == 1
  {
  }

  /** `slide` writes the signed form of the number that the bytes stand for. */
  method Slide(r: array<int>, a: seq<Byte>)
    requires r.Length == 256 && |a| == 32
    modifies r
    ensures r[..] == Naf(Val(256, a), 256)
  {
    LoadBits(r, a);
    Recode(r, Val(256, a));
  }

  lemma BitsStandFor(t: seq<int>, a: seq<Byte>)
    requires |t| == 256 && |a| == 32
    requires forall k | 0 <= k < 256 :: t[k] == Val(256, a) / Weight(2, k) % 2
    ensures Binary(t) && StandsFor(t, Val(256, a))
  {
    var n := Val(256, a);
    hide Val, Weight;
    ReadOff(2, t, n);
    DigitsRange(256, a);
    assert Weight(2, 256) == Weight(256, 32) by {
      assert Pow2(1) == 2 && Pow2(8) == 256;
      hide Pow2;
      WeightIsPow2(2, 1, 256);
      WeightIsPow2(256, 8, 32);
    }
    DivUnique(n, Weight(2, 256), 0, n);
  }

  lemma {:induction false} LeftIsCarry(n: int, len: nat)
    requires 0 <= n <= Pow2(len)
    ensures 0 <= Left(n, len) <= 1
    decreases len
  {
    if len > 0 {
      PowerShape(len);
      NextSmall(n, Pow2(len));
      hide Next, Digit;
      LeftIsCarry(Next(n), len - 1);
    }
  }

  /**
   What the recoded digits stand for: the scalar, less 2^256 if a carry is left above the
   last digit; a clear top bit guarantees that none is.
   */
  lemma SlideValue(a: seq<Byte>)
    requires |a| == 32
    ensures var n := Val(256, a);
            var digits := Naf(n, 256);
            && (forall i | 0 <= i < 256 :: GoodDigit(digits[i]))
            && (forall i, j | 0 <= i < j < 256 && j < i + 5 && digits[i] != 0 :: digits[j] == 0)
            && 0 <= Left(n, 256) <= 1
            && Val(2, digits) == n - Weight(2, 256) * Left(n, 256)
            && (a[31] <= 127 ==> Left(n, 256) == 0)
  {
    var n := Val(256, a);
    hide Naf, Left, Val, Weight, GoodDigit;
    NafValue(n, 256);
    NafDigits(n, 256);
    forall i, j | 0 <= i < j < 256 && j < i + 5 && Naf(n, 256)[i] != 0
      ensures Naf(n, 256)[j] == 0
    {
      NafSparse(n, 256, i, j);
    }
    ScalarRange(a);
    LeftIsCarry(n, 256);
    if a[31] <= 127 {
      NothingLeft(n, 256);
    }
  }

  lemma ScalarRange(a: seq<Byte>)
    requires |a| == 32
    ensures 0 <= Val(256, a) < Pow2(256)
    ensures a[31] <= 127 ==> Val(256, a) < Pow2(255)
  {
    hide *;
    BytePowers();
    TopByte(a, 31);
    DigitsRange(256, a);
    WeightIsPow2(256, 8, 32);
    DigitsRange(256, a[..31]);
    WeightIsPow2(256, 8, 31);
    Pow2Adds(7, 248);
    if a[31] <= 127 {
      MulMonotone(Pow2(248), a[31], 127);
    }
  }

  lemma BytePowers()
    ensures Pow2(8) == 256 && Pow2(7) == 128
  {
  }

  lemma TopByte(a: seq<Byte>, n: nat)
    requires |a| == n + 1
    ensures Val(256, a) == Val(256, a[..n]) + Weight(256, n) * a[n]
  {
    assert a[n..] == [a[n]];
    assert Val(256, [a[n]]) == a[n] + 256 * Val(256, []);
    hide Val, Weight;
    ValSplits(256, a, n);
  }

  lemma NextOfOnes(m: int)
    requires m % 32 == 0
    ensures Next(m - 1) == m / 2
  {
  }

  /** The carry out of len ones is lost. */
  lemma OnesCarry(len: nat)
    requires len >= 5
    ensures Left(Pow2(len) - 1, len) == 1
  {
    PowerShape(len);
    NextOfOnes(Pow2(len));
    hide Next, Digit;
    LeftPower(len - 1);
  }

  /** k bytes of 255. */
  function Ones(k: nat): (a: seq<Byte>)
    ensures |a| == k && forall i | 0 <= i < k :: a[i] == 255
  {
    if k == 0 then [] else [255] + Ones(k - 1)
  }

  lemma {:induction false} OnesValue(k: nat)
    ensures Val(256, Ones(k)) == Weight(256, k) - 1
  {
    if k > 0 {
      OnesValue(k - 1);
      assert Ones(k)[1..] == Ones(k - 1);
    }
  }

  /** With the top bit set the last carry can be lost: 32 bytes of 255 are recoded as digits that stand for -1. */
  lemma TopBitCanBeLost()
    ensures var n := Val(256, Ones(32)); Left(n, 256) == 1 && Val(2, Naf(n, 256)) == -1
  {
    hide *;
    BytePowers();
    OnesValue(32);
    WeightIsPow2(256, 8, 32);
    OnesCarry(256);
    NafValue(Pow2(256) - 1, 256);
    PowOne();
    WeightIsPow2(2, 1, 256);
  }

  lemma PowOne()
    ensures Pow2(1) == 2
  {
  }

  lemma {:induction false} LeftPower(k: nat)
    ensures Left(Pow2(k), k) == 1
  {
    if k > 0 {
      assert Next(Pow2(k)) == Pow2(k - 1);
      LeftPower(k - 1);
    }
  }
}
