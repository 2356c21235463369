/**
 Arithmetic modulo the order of the Ed25519 base point, as in
 crypto/ed25519/internal/edwards25519/scalar.go: numbers in 21-bit limbs, folded
 and carried until the canonical residue is left.
 */
module Scalar {

  import opened Radix
  import opened Bits
  import opened LimbBytes

  /** l = 2^252 + 27742317777372353535851937790883648493. */
  const ORDER: int := 0x1000_0000_0000_0000_0000_0000_0000_0000 * 0x1_0000_0000_0000_0000_0000_0000_0000_0000
                      + 27742317777372353535851937790883648493

  predicate Int64(x: int) {
    -0x8000_0000_0000_0000 <= x < 0x8000_0000_0000_0000
  }

  predicate Within(s: seq<int>, lo: int, hi: int, b: int)
  {
    forall i | 0 <= lo <= i < hi && i < |s| :: -b <= s[i] <= b
  }

  lemma OrderIsWeight()
    ensures Weight(B, 12) - (666643 + 470296 * B + 654183 * B * B - 997805 * B * B * B
                          + 136657 * B * B * B * B - 683901 * B * B * B * B * B) == ORDER
  {
  }

  /**
   Replaces limb `n` by what 2^(21n) is congruent to modulo the order, spread over
   the six limbs twelve places down.
   */
  function Fold(s: seq<int>, n: nat): (r: seq<int>)
    requires 12 <= n < |s|
    ensures |r| == |s|
  {
    var x := s[n];
    s[n - 12 := s[n - 12] + x * 666643]
     [n - 11 := s[n - 11] + x * 470296]
     [n - 10 := s[n - 10] + x * 654183]
     [n - 9 := s[n - 9] - x * 997805]
     [n - 8 := s[n - 8] + x * 136657]
     [n - 7 := s[n - 7] - x * 683901]
     [n := 0]
  }

  /** No product or sum of a fold leaves the int64 range. */
  predicate FoldFits(s: seq<int>, n: nat)
    requires 12 <= n < |s|
  {
    var x := s[n];
    && Int64(x * 666643) && Int64(x * 470296) && Int64(x * 654183)
    && Int64(x * 997805) && Int64(x * 136657) && Int64(x * 683901)
    && forall i | 0 <= i < |s| :: Int64(s[i]) && Int64(Fold(s, n)[i])
  }

  lemma FoldUpdates(s: seq<int>, n: nat)
    requires 12 <= n < |s|
    ensures var x := s[n];
            Val(B, Fold(s, n)) == Val(B, s) + x * 666643 * Weight(B, n - 12) + x * 470296 * Weight(B, n - 11)
                               + x * 654183 * Weight(B, n - 10) - x * 997805 * Weight(B, n - 9)
                               + x * 136657 * Weight(B, n - 8) - x * 683901 * Weight(B, n - 7)
                               - x * Weight(B, n)
  {
    hide Val, Weight;
    var x := s[n];
    var s0 := s[n - 12 := s[n - 12] + x * 666643];
    var s1 := s0[n - 11 := s[n - 11] + x * 470296];
    var s2 := s1[n - 10 := s[n - 10] + x * 654183];
    var s3 := s2[n - 9 := s[n - 9] - x * 997805];
    var s4 := s3[n - 8 := s[n - 8] + x * 136657];
    var s5 := s4[n - 7 := s[n - 7] - x * 683901];
    ValUpdate(B, s, n - 12, s[n - 12] + x * 666643);
    ValUpdate(B, s0, n - 11, s[n - 11] + x * 470296);
    ValUpdate(B, s1, n - 10, s[n - 10] + x * 654183);
    ValUpdate(B, s2, n - 9, s[n - 9] - x * 997805);
    ValUpdate(B, s3, n - 8, s[n - 8] + x * 136657);
    ValUpdate(B, s4, n - 7, s[n - 7] - x * 683901);
    ValUpdate(B, s5, n, 0);
  }

  lemma WeightsAbove(k: nat)
    ensures var w := Weight(B, k);
            && Weight(B, k + 1) == B * w
            && Weight(B, k + 2) == B * (B * w)
            && Weight(B, k + 3) == B * (B * (B * w))
            && Weight(B, k + 4) == B * (B * (B * (B * w)))
            && Weight(B, k + 5) == B * (B * (B * (B * (B * w))))
  {
  }

  lemma FoldValue(s: seq<int>, n: nat)
    requires 12 <= n < |s|
    ensures Val(B, Fold(s, n)) == Val(B, s) - s[n] * Weight(B, n - 12) * ORDER
  {
    hide *;
    FoldUpdates(s, n);
    WeightsAbove(n - 12);
    WeightAdds(B, n - 12, 12);
    OrderIsWeight();
    FoldSum(s[n], Weight(B, n - 12), Weight(B, 12));
  }

  lemma FoldSum(x: int, w: int, w12: int)
    requires w12 - (666643 + 470296 * B + 654183 * B * B - 997805 * B * B * B
                    + 136657 * B * B * B * B - 683901 * B * B * B * B * B) == ORDER
    ensures x * 666643 * w + x * 470296 * (B * w) + x * 654183 * (B * (B * w))
            - x * 997805 * (B * (B * (B * w))) + x * 136657 * (B * (B * (B * (B * w))))
            - x * 683901 * (B * (B * (B * (B * (B * w))))) - x * (w * w12)
         == -(x * w * ORDER)
  {
  }

  lemma FoldBounds(s: seq<int>, n: nat, b: int, c: int)
    requires 12 <= n < |s| && Within(s, 0, |s|, b) && -c <= s[n] <= c
    requires b + 997805 * c < 0x8000_0000_0000_0000
    ensures FoldFits(s, n)
    ensures Within(Fold(s, n), 0, |s|, b + 997805 * c)
    ensures forall i | n - 7 < i < |s| :: Fold(s, n)[i] == if i == n then 0 else s[i]
  {
  }

  /** `c` units of the next limb are moved there from limb `i`. */
  function Move(s: seq<int>, i: nat, c: int): (r: seq<int>)
    requires i + 1 < |s|
    ensures |r| == |s|
  {
    s[i + 1 := s[i + 1] + c][i := s[i] - c * 0x20_0000]
  }

  lemma MoveValue(s: seq<int>, i: nat, c: int)
    requires i + 1 < |s|
    ensures Val(B, Move(s, i, c)) == Val(B, s)
  {
    hide *;
    var t, d := s[i + 1 := s[i + 1] + c], -(c * 0x20_0000);
    MoveIsTwoChanges(s, i, c);
    ValChange(B, s, i + 1, c);
    ValChange(B, t, i, d);
    WeightAbove(i);
    MoveCancels(Val(B, s), Val(B, t), Val(B, Move(s, i, c)), c, Weight(B, i));
  }

  lemma MoveIsTwoChanges(s: seq<int>, i: nat, c: int)
    requires i + 1 < |s|
    ensures var t := s[i + 1 := s[i + 1] + c];
            Move(s, i, c) == t[i := t[i] + -(c * 0x20_0000)]
  {
  }

  lemma WeightAbove(i: nat)
    ensures Weight(B, i + 1) == 0x20_0000 * Weight(B, i)
  {
  }

  lemma MoveCancels(v: int, v1: int, v2: int, c: int, w: int)
    requires v1 == v + c * (0x20_0000 * w) && v2 == v1 + -(c * 0x20_0000) * w
    ensures v2 == v
  {
  }

  /**
   Moves what limb `i` has above its 21 bits into the next limb.  With `half` 2^20
   the limb is rounded to the nearest multiple and ends in [-2^20, 2^20); with 0 it
   is rounded down and ends in [0, 2^21).
   */
  function Carry(s: seq<int>, i: nat, half: int): (r: seq<int>)
    requires i + 1 < |s|
    ensures |r| == |s|
  {
    Move(s, i, (s[i] + half) / B)
  }

  lemma CarryValue(s: seq<int>, i: nat, half: int)
    requires i + 1 < |s|
    ensures Val(B, Carry(s, i, half)) == Val(B, s)
  {
    hide Val, Move;
    MoveValue(s, i, (s[i] + half) / B);
  }

  const HALF: int := 0x10_0000

  method Round(s: seq<int>, i: nat) returns (r: seq<int>)
    requires i + 1 < |s| && Int64(s[i] + HALF) && Int64(s[i + 1] + (s[i] + HALF) / B)
    ensures |r| == |s| && Val(B, r) == Val(B, s)
    ensures -HALF <= r[i] < HALF && r[i + 1] == s[i + 1] + (s[i] + HALF) / B
    ensures forall j | 0 <= j < |s| && j != i && j != i + 1 :: r[j] == s[j]
  {
    r := Carry(s, i, HALF);
    CarryValue(s, i, HALF);
  }

  /** Rounds three limbs, every other one from `lo` on. */
  method RoundThree(s0: seq<int>, lo: nat, ghost b: int) returns (s: seq<int>)
    requires |s0| == 24 && lo + 6 <= 24 && b < 0x4000_0000_0000_0000
    requires forall i | lo <= i < lo + 6 :: -b <= s0[i] <= b
    ensures |s| == 24 && Val(B, s) == Val(B, s0)
    ensures forall i | 0 <= i < 24 && !(lo <= i < lo + 6) :: s[i] == s0[i]
    ensures forall i | lo <= i < lo + 6 ::
              if (i - lo) % 2 == 0 then -HALF <= s[i] < HALF
              else s0[i] - b / B - 1 <= s[i] <= s0[i] + b / B + 1
  {
    hide Val, Weight;
    s := Round(s0, lo);
    s := Round(s, lo + 2);
    s := Round(s, lo + 4);
  }

  /** Rounds six limbs, every other one from `lo` on. */
  method RoundSix(s0: seq<int>, lo: nat, ghost b: int) returns (s: seq<int>)
    requires |s0| == 24 && lo + 12 <= 24 && b < 0x4000_0000_0000_0000
    requires forall i | lo <= i < lo + 12 :: -b <= s0[i] <= b
    ensures |s| == 24 && Val(B, s) == Val(B, s0)
    ensures forall i | 0 <= i < 24 && !(lo <= i < lo + 12) :: s[i] == s0[i]
    ensures forall i | lo <= i < lo + 12 ::
              if (i - lo) % 2 == 0 then -HALF <= s[i] < HALF
              else s0[i] - b / B - 1 <= s[i] <= s0[i] + b / B + 1
  {
    hide Val, Weight;
    s := RoundThree(s0, lo, b);
    s := RoundThree(s, lo + 6, b);
  }

  method FoldHigh(s0: seq<int>) returns (s: seq<int>, ghost k: int)
    requires |s0| == 24 && Within(s0, 0, 24, 0x2_0000_0000)
    ensures |s| == 24 && Val(B, s) == Val(B, s0) - k * ORDER
    ensures Within(s, 0, 17, 0x100_0000_0000_0000) && Within(s, 17, 18, 0x2_0000_0000) && Within(s, 18, 24, 0)
  {
    hide Val, Weight, Fold, FoldFits;
    s := s0;
    FoldBounds(s, 23, 0x2_0000_0000, 0x2_0000_0000);
    FoldValue(s, 23);
    k := s[23] * Weight(B, 11);
    s := Fold(s, 23);
    FoldBounds(s, 22, 0x2_0000_0000 + 997805 * 0x2_0000_0000, 0x2_0000_0000);
    FoldValue(s, 22);
    k := k + s[22] * Weight(B, 10);
    s := Fold(s, 22);
    FoldBounds(s, 21, 0x2_0000_0000 + 2 * 997805 * 0x2_0000_0000, 0x2_0000_0000);
    FoldValue(s, 21);
    k := k + s[21] * Weight(B, 9);
    s := Fold(s, 21);
    FoldBounds(s, 20, 0x2_0000_0000 + 3 * 997805 * 0x2_0000_0000, 0x2_0000_0000);
    FoldValue(s, 20);
    k := k + s[20] * Weight(B, 8);
    s := Fold(s, 20);
    FoldBounds(s, 19, 0x2_0000_0000 + 4 * 997805 * 0x2_0000_0000, 0x2_0000_0000);
    FoldValue(s, 19);
    k := k + s[19] * Weight(B, 7);
    s := Fold(s, 19);
    FoldBounds(s, 18, 0x2_0000_0000 + 5 * 997805 * 0x2_0000_0000, 0x2_0000_0000);
    FoldValue(s, 18);
    k := k + s[18] * Weight(B, 6);
    s := Fold(s, 18);
  }

  method RoundHigh(s0: seq<int>) returns (s: seq<int>)
    requires |s0| == 24
    requires Within(s0, 0, 17, 0x100_0000_0000_0000) && Within(s0, 17, 18, 0x2_0000_0000) && Within(s0, 18, 24, 0)
    ensures |s| == 24 && Val(B, s) == Val(B, s0)
    ensures Within(s, 0, 6, 0x100_0000_0000_0000) && Within(s, 6, 18, 0x10_0000_0000) && Within(s, 18, 24, 0)
  {
    hide Val, Weight;
    s := RoundSix(s0, 6, 0x100_0000_0000_0000);
    s := RoundThree(s, 7, 0x100_0010_0000_0000);
    s := Round(s, 13);
    s := Round(s, 15);
  }

  method FoldMiddle(s0: seq<int>) returns (s: seq<int>, ghost k: int)
    requires |s0| == 24
    requires Within(s0, 0, 6, 0x100_0000_0000_0000) && Within(s0, 6, 18, 0x10_0000_0000) && Within(s0, 18, 24, 0)
    ensures |s| == 24 && Val(B, s) == Val(B, s0) - k * ORDER
    ensures Within(s, 0, 12, 0x800_0000_0000_0000) && Within(s, 12, 24, 0)
  {
    hide Val, Weight, Fold, FoldFits;
    s := s0;
    FoldBounds(s, 17, 0x100_0000_0000_0000, 0x10_0000_0000);
    FoldValue(s, 17);
    k := s[17] * Weight(B, 5);
    s := Fold(s, 17);
    FoldBounds(s, 16, 0x100_0000_0000_0000 + 997805 * 0x10_0000_0000, 0x10_0000_0000);
    FoldValue(s, 16);
    k := k + s[16] * Weight(B, 4);
    s := Fold(s, 16);
    FoldBounds(s, 15, 0x100_0000_0000_0000 + 2 * 997805 * 0x10_0000_0000, 0x10_0000_0000);
    FoldValue(s, 15);
    k := k + s[15] * Weight(B, 3);
    s := Fold(s, 15);
    FoldBounds(s, 14, 0x100_0000_0000_0000 + 3 * 997805 * 0x10_0000_0000, 0x10_0000_0000);
    FoldValue(s, 14);
    k := k + s[14] * Weight(B, 2);
    s := Fold(s, 14);
    FoldBounds(s, 13, 0x100_0000_0000_0000 + 4 * 997805 * 0x10_0000_0000, 0x10_0000_0000);
    FoldValue(s, 13);
    k := k + s[13] * Weight(B, 1);
    s := Fold(s, 13);
    FoldBounds(s, 12, 0x100_0000_0000_0000 + 5 * 997805 * 0x10_0000_0000, 0x10_0000_0000);
    FoldValue(s, 12);
    k := k + s[12] * Weight(B, 0);
    s := Fold(s, 12);
  }

  /** After this the number is below 2^252 in size, with limb 11 carrying the sign. */
  method RoundLow(s0: seq<int>) returns (s: seq<int>)
    requires |s0| == 24 && Within(s0, 0, 12, 0x800_0000_0000_0000) && Within(s0, 12, 24, 0)
    ensures |s| == 24 && Val(B, s) == Val(B, s0)
    ensures Within(s, 0, 11, 0x80_0000_0000) && Within(s, 11, 12, HALF)
    ensures Within(s, 12, 13, 0x80_0000_0000) && Within(s, 13, 24, 0)
  {
    hide Val, Weight;
    s := RoundSix(s0, 0, 0x800_0000_0000_0000);
    s := RoundSix(s, 1, 0x800_0080_0000_0000);
  }

  /** Folds limb 12 into the limbs below. */
  method FoldTop(s0: seq<int>, ghost b: int, ghost c: int) returns (s: seq<int>)
    requires |s0| == 24 && Within(s0, 0, 24, b) && -c <= s0[12] <= c
    requires b + 997805 * c < 0x8000_0000_0000_0000
    ensures |s| == 24 && Val(B, s) == Val(B, s0) - s0[12] * ORDER
    ensures Within(s, 0, 24, b + 997805 * c) && s[12] == 0
    ensures forall i | 6 <= i < 24 && i != 12 :: s[i] == s0[i]
  {
    FoldBounds(s0, 12, b, c);
    FoldValue(s0, 12);
    assert Weight(B, 0) == 1;
    s := Fold(s0, 12);
  }

  method Floor(s: seq<int>, i: nat) returns (r: seq<int>)
    requires i + 1 < |s| && Int64(s[i]) && Int64(s[i + 1] + s[i] / B)
    ensures |r| == |s| && Val(B, r) == Val(B, s)
    ensures 0 <= r[i] < B && r[i + 1] == s[i + 1] + s[i] / B
    ensures forall j | 0 <= j < |s| && j != i && j != i + 1 :: r[j] == s[j]
  {
    r := Carry(s, i, 0);
    CarryValue(s, i, 0);
  }

  method FloorLow(s0: seq<int>) returns (s: seq<int>)
    requires |s0| == 24 && Within(s0, 0, 24, 0x1000_0000_0000_0000)
    ensures |s| == 24 && Val(B, s) == Val(B, s0)
    ensures forall i | 0 <= i < 6 :: 0 <= s[i] < B
    ensures forall i | 7 <= i < 24 :: s[i] == s0[i]
    ensures Within(s, 6, 7, 0x1800_0000_0000_0000)
  {
    hide Val, Weight;
    s := s0;
    s := Floor(s, 0);
    s := Floor(s, 1);
    s := Floor(s, 2);
    s := Floor(s, 3);
    s := Floor(s, 4);
    s := Floor(s, 5);
  }

  method FloorLimbs(s0: seq<int>) returns (s: seq<int>)
    requires |s0| == 24 && Within(s0, 0, 24, 0x1000_0000_0000_0000)
    ensures |s| == 24 && Val(B, s) == Val(B, s0)
    ensures Digits(B, s[..11])
    ensures forall i | 12 <= i < 24 :: s[i] == s0[i]
    ensures Within(s, 11, 12, 0x2000_0000_0000_0000)
  {
    hide Val, Weight;
    s := FloorLow(s0);
    s := Floor(s, 6);
    s := Floor(s, 7);
    s := Floor(s, 8);
    s := Floor(s, 9);
    s := Floor(s, 10);
  }

  lemma {:induction false} ValBound(s: seq<int>, b: int)
    requires |s| > 0 && Within(s, 0, |s|, b) && b >= 0
    ensures -(b * (2 * Weight(B, |s| - 1) - 1)) <= Val(B, s) <= b * (2 * Weight(B, |s| - 1) - 1)
  {
    if |s| == 1 {
      assert Val(B, s[1..]) == 0;
    } else {
      var w := Weight(B, |s| - 2);
      assert Within(s[1..], 0, |s| - 1, b);
      ValBound(s[1..], b);
      assert Weight(B, |s| - 1) == B * w;
      assert b * (2 * (B * w) - 1) == B * (b * (2 * w - 1)) + (B - 1) * b;
    }
  }

  lemma ZeroTail(s: seq<int>)
    requires forall i | 0 <= i < |s| :: s[i] == 0
    ensures Val(B, s) == 0
  {
  }

  lemma ThreeParts(s: seq<int>)
    requires |s| == 24 && Within(s, 12, 24, 0)
    ensures Val(B, s) == Val(B, s[..6]) + Weight(B, 6) * (Val(B, s[6..11]) + Weight(B, 5) * s[11])
  {
    var low := s[..12];
    assert Val(B, [s[11]]) == s[11] + B * Val(B, []);
    hide Weight, Val;
    assert low[..6] == s[..6];
    assert low[6..][..5] == s[6..11];
    assert low[6..][5..] == [s[11]];
    ValSplits(B, s, 12);
    ZeroTail(s[12..]);
    ValSplits(B, low, 6);
    ValSplits(B, low[6..], 5);
  }

  /** What `RoundLow` leaves, once limb 12 is folded, is less than 2^252 in size. */
  lemma SmallValue(s: seq<int>)
    requires |s| == 24 && Within(s, 12, 24, 0)
    requires Within(s, 0, 6, 0x1000_0000_0000_0000) && Within(s, 6, 11, 0x80_0000_0000) && Within(s, 11, 12, HALF)
    ensures -Weight(B, 12) < Val(B, s) < Weight(B, 12)
  {
    hide Weight, Val;
    ThreeParts(s);
    ValBound(s[..6], 0x1000_0000_0000_0000);
    ValBound(s[6..11], 0x80_0000_0000);
    SmallSum(Val(B, s[..6]), Val(B, s[6..11]), s[11]);
  }

  lemma SmallSum(a: int, b: int, c: int)
    requires -(0x1000_0000_0000_0000 * (2 * Weight(B, 5) - 1)) <= a <= 0x1000_0000_0000_0000 * (2 * Weight(B, 5) - 1)
    requires -(0x80_0000_0000 * (2 * Weight(B, 4) - 1)) <= b <= 0x80_0000_0000 * (2 * Weight(B, 4) - 1)
    requires -HALF <= c <= HALF
    ensures -Weight(B, 12) < a + Weight(B, 6) * (b + Weight(B, 5) * c) < Weight(B, 12)
  {
  }

  /** Limb 12 ends as the number's sign: 0, or -1 for a negative number. */
  method FloorAll(s0: seq<int>) returns (s: seq<int>)
    requires |s0| == 24 && Within(s0, 0, 24, 0x1000_0000_0000_0000) && Within(s0, 12, 24, 0)
    requires -Weight(B, 12) < Val(B, s0) < Weight(B, 12)
    ensures |s| == 24 && Val(B, s) == Val(B, s0) && Digits(B, s[..12]) && Within(s, 13, 24, 0)
    ensures -1 <= s[12] <= 0 && 0 <= Val(B, s) - s[12] * ORDER < ORDER
  {
    hide Val, Weight;
    s := FloorLimbs(s0);
    s := Floor(s, 11);
    assert Digits(B, s[..12]);
    TopLimb(s);
    SignLimb(Val(B, s[..12]), s[12]);
  }

  lemma SignLimb(low: int, t: int)
    requires 0 <= low < Weight(B, 12) && -Weight(B, 12) < low + Weight(B, 12) * t < Weight(B, 12)
    ensures -1 <= t <= 0 && 0 <= low + Weight(B, 12) * t - t * ORDER < ORDER
  {
    OrderIsWeight();
  }

  /** The last two folds and carry chains: the result is the canonical residue. */
  method Canonical(s0: seq<int>) returns (s: seq<int>, ghost k: int)
    requires |s0| == 24 && Within(s0, 0, 11, 0x80_0000_0000) && Within(s0, 11, 12, HALF)
    requires Within(s0, 12, 13, 0x80_0000_0000) && Within(s0, 13, 24, 0)
    ensures |s| == 24 && Val(B, s) == Val(B, s0) - k * ORDER
    ensures 0 <= Val(B, s) < ORDER && Digits(B, s[..11]) && 0 <= s[11] <= B && Within(s, 12, 24, 0)
  {
    hide Val, Weight;
    s := FoldTop(s0, 0x80_0000_0000, 0x80_0000_0000);
    SmallValue(s);
    s := FloorAll(s);
    k := s0[12] + s[12];
    assert forall i | 0 <= i < 12 :: s[i] == s[..12][i];
    s := FoldTop(s, B, 1);
    s := FloorLimbs(s);
    LastLimb(s);
  }

  lemma TopLimb(s: seq<int>)
    requires |s| == 24 && Digits(B, s[..12]) && Within(s, 13, 24, 0)
    ensures Val(B, s) == Val(B, s[..12]) + Weight(B, 12) * s[12]
    ensures 0 <= Val(B, s[..12]) < Weight(B, 12)
  {
    ValSplits(B, s, 12);
    DigitsRange(B, s[..12]);
    ZeroTail(s[12..][1..]);
  }

  lemma LastLimb(s: seq<int>)
    requires |s| == 24 && Digits(B, s[..11]) && Within(s, 12, 24, 0)
    requires 0 <= Val(B, s) < ORDER
    ensures 0 <= s[11] <= B
  {
    hide Val, Weight;
    ValSplits(B, s, 11);
    DigitsRange(B, s[..11]);
    ValUnfolds(B, s[11..]);
    ZeroTail(s[11..][1..]);
    TopIsSmall(Val(B, s[..11]), s[11]);
  }

  lemma TopIsSmall(low: int, t: int)
    requires 0 <= low < Weight(B, 11) && 0 <= low + Weight(B, 11) * t < ORDER
    ensures 0 <= t <= B
  {
  }

  /** From 24 limbs to the canonical residue of the number they stand for. */
  method Reduce(s0: seq<int>) returns (out: seq<Byte>)
    requires |s0| == 24 && Within(s0, 0, 24, 0x2_0000_0000)
    ensures |out| == 32 && Val(256, out) == Val(B, s0) % ORDER
  {
    hide *;
    ghost var k0, k1, k2;
    var s: seq<int>;
    s, k0 := FoldHigh(s0);
    s := RoundHigh(s);
    s, k1 := FoldMiddle(s);
    s := RoundLow(s);
    s, k2 := Canonical(s);
    Residue(Val(B, s0), Val(B, s), k0 + k1 + k2);
    LowLimbs(s);
    PackValue(s[..12]);
    out := Pack(s[..12]);
  }

  lemma Residue(x: int, r: int, k: int)
    requires r == x - k * ORDER && 0 <= r < ORDER
    ensures x % ORDER == r
  {
    DivUnique(x, ORDER, k, r);
  }

  lemma LowLimbs(s: seq<int>)
    requires |s| == 24 && Within(s, 12, 24, 0) && 0 <= Val(B, s) < ORDER && Digits(B, s[..11]) && 0 <= s[11]
    ensures Val(B, s[..12]) == Val(B, s) < Weight(256, 32)
    ensures Digits(B, s[..12][..11]) && forall i | 0 <= i < 12 :: s[..12][i] >= 0
  {
    assert s[..12][..11] == s[..11];
    assert forall i | 0 <= i < 11 :: s[i] == s[..11][i];
    ZeroTail(s[12..]);
    ByteWeight();
    hide Val, Weight;
    ValSplits(B, s, 12);
  }

  lemma ByteWeight()
    ensures Weight(256, 32) > ORDER
  {
    WeightAdds(256, 8, 8);
    WeightAdds(256, 16, 16);
    assert Weight(256, 8) == 0x1_0000_0000_0000_0000;
  }

  /** s mod l, for every 64-byte s. */
  method ScReduce(s: seq<Byte>) returns (out: seq<Byte>)
    requires |s| == 64
    ensures |out| == 32 && Val(256, out) == Val(256, s) % ORDER
  {
    hide *;
    Unpacked(s);
    out := Reduce(Unpack64(s));
  }

  lemma Unpacked(s: seq<Byte>)
    requires |s| == 64
    ensures var limbs := Unpack64(s);
            |limbs| == 24 && Within(limbs, 0, 24, 0x2_0000_0000) && Val(B, limbs) == Val(256, s)
  {
    hide Val, Unpack64;
    Unpack64Value(s);
    var limbs := Unpack64(s);
    assert forall i | 0 <= i < 23 :: limbs[i] == limbs[..23][i];
  }

  /** Limb k of a product: a[0]*b[k] + a[1]*b[k-1] + ... over the limbs there are. */
  function Conv(a: seq<int>, b: seq<int>, k: int): int {
    if a == [] then 0
    else (if 0 <= k < |b| then a[0] * b[k] else 0) + Conv(a[1..], b, k - 1)
  }

  function ConvRow(a: seq<int>, b: seq<int>, n: nat): (r: seq<int>)
    ensures |r| == n && forall k | 0 <= k < n :: r[k] == Conv(a, b, k)
  {
    seq(n, k requires 0 <= k < n => Conv(a, b, k))
  }

  lemma {:induction false} ConvBound(a: seq<int>, b: seq<int>, k: int)
    requires forall i | 0 <= i < |a| :: 0 <= a[i] < 0x200_0000
    requires forall i | 0 <= i < |b| :: 0 <= b[i] < 0x200_0000
    ensures 0 <= Conv(a, b, k) <= |a| * 0x4_0000_0000_0000
  {
    if a != [] {
      ConvBound(a[1..], b, k - 1);
      if 0 <= k < |b| {
        MulMonotone(a[0], 0, b[k]);
        MulMonotone(a[0], b[k], 0x200_0000);
      }
    }
  }

  function Plus(x: seq<int>, y: seq<int>): (r: seq<int>)
    requires |x| == |y|
    ensures |r| == |x| && forall i | 0 <= i < |r| :: r[i] == x[i] + y[i]
  {
    seq(|x|, i requires 0 <= i < |x| => x[i] + y[i])
  }

  /** x*b, padded with zeros to n limbs. */
  function Row(x: int, b: seq<int>, n: nat): (r: seq<int>)
    ensures |r| == n && forall i | 0 <= i < n :: r[i] == if i < |b| then x * b[i] else 0
  {
    seq(n, i requires 0 <= i < n => if i < |b| then x * b[i] else 0)
  }

  lemma {:induction false} PlusValue(x: seq<int>, y: seq<int>)
    requires |x| == |y|
    ensures Val(B, Plus(x, y)) == Val(B, x) + Val(B, y)
  {
    if x != [] {
      PlusValue(x[1..], y[1..]);
      assert Plus(x, y)[1..] == Plus(x[1..], y[1..]);
    }
  }

  lemma {:induction false} RowValue(x: int, b: seq<int>, n: nat)
    requires |b| <= n
    ensures Val(B, Row(x, b, n)) == x * Val(B, b)
    decreases n
  {
    if b == [] {
      ZeroTail(Row(x, b, n));
    } else {
      RowValue(x, b[1..], n - 1);
      assert Row(x, b, n)[1..] == Row(x, b[1..], n - 1);
      var v := Val(B, b[1..]);
      assert x * (b[0] + B * v) == x * b[0] + B * (x * v);
    }
  }

  lemma {:induction false} ConvValue(a: seq<int>, b: seq<int>)
    ensures Val(B, ConvRow(a, b, |a| + |b|)) == Val(B, a) * Val(B, b)
  {
    var n := |a| + |b|;
    if a == [] {
      ZeroTail(ConvRow(a, b, n));
    } else {
      var rest := ConvRow(a[1..], b, n - 1);
      ConvValue(a[1..], b);
      RowValue(a[0], b, n);
      ConvShift(a, b, n);
      PlusValue(Row(a[0], b, n), [0] + rest);
      assert ([0] + rest)[1..] == rest;
      ProductStep(a[0], Val(B, a[1..]), Val(B, b));
    }
  }

  lemma ProductStep(x: int, va: int, vb: int)
    ensures (x + B * va) * vb == x * vb + B * (va * vb)
  {
  }

  lemma ConvShift(a: seq<int>, b: seq<int>, n: nat)
    requires a != [] && n == |a| + |b|
    ensures ConvRow(a, b, n) == Plus(Row(a[0], b, n), [0] + ConvRow(a[1..], b, n - 1))
  {
    ConvBelow(a[1..], b, -1);
  }

  lemma ConvBelow(a: seq<int>, b: seq<int>, k: int)
    requires k < 0
    ensures Conv(a, b, k) == 0
  {
  }

  /** The first carry pass of a product: even limbs, then odd limbs. */
  method RoundProduct(s0: seq<int>) returns (s: seq<int>)
    requires |s0| == 24 && (forall i | 0 <= i < 23 :: 0 <= s0[i] <= 0x31_0000_0000_0000) && s0[23] == 0
    ensures |s| == 24 && Val(B, s) == Val(B, s0)
    ensures Within(s, 0, 24, 0x2_0000_0000)
  {
    hide Val, Weight;
    s := RoundSix(s0, 0, 0x31_0000_0000_0000);
    s := RoundSix(s, 12, 0x31_0002_0000_0000);
    s := RoundSix(s, 1, 0x31_0004_0000_0000);
    s := RoundOdds(s);
  }

  method RoundOdds(s0: seq<int>) returns (s: seq<int>)
    requires |s0| == 24 && Within(s0, 0, 12, 0x1_9000_0000) && Within(s0, 23, 24, 0x1_9000_0000)
    requires forall i | 12 <= i < 23 ::
               if i % 2 == 0 then -0x1_9000_0000 <= s0[i] <= 0x1_9000_0000 && (i > 12 ==> -HALF <= s0[i] < HALF)
               else -0x32_0000_0000_0000 <= s0[i] <= 0x32_0000_0000_0000
    ensures |s| == 24 && Val(B, s) == Val(B, s0)
    ensures Within(s, 0, 24, 0x2_0000_0000)
  {
    hide Val, Weight;
    s := RoundThree(s0, 13, 0x32_0000_0000_0000);
    s := Round(s, 19);
    s := Round(s, 21);
  }

  /** (ab+c) mod l, for all 32-byte a, b and c. */
  method ScMulAdd(a: seq<Byte>, b: seq<Byte>, c: seq<Byte>) returns (out: seq<Byte>)
    requires |a| == 32 && |b| == 32 && |c| == 32
    ensures |out| == 32 && Val(256, out) == (Val(256, a) * Val(256, b) + Val(256, c)) % ORDER
  {
    hide Val, Weight, Conv, Unpack32;
    Unpack32Value(a);
    Unpack32Value(b);
    Unpack32Value(c);
    var al, bl, cl := Unpack32(a), Unpack32(b), Unpack32(c);
    LimbsAreShort(al);
    LimbsAreShort(bl);
    LimbsAreShort(cl);
    var s := Plus(ConvRow(al, bl, 24), Row(1, cl, 24));
    ConvValue(al, bl);
    RowValue(1, cl, 24);
    PlusValue(ConvRow(al, bl, 24), Row(1, cl, 24));
    ProductLimbs(al, bl, cl);
    s := RoundProduct(s);
    out := Reduce(s);
  }

  lemma LimbsAreShort(u: seq<int>)
    requires |u| == 12 && Digits(B, u[..11]) && 0 <= u[11] < 0x200_0000
    ensures forall i | 0 <= i < 12 :: 0 <= u[i] < 0x200_0000
  {
    assert forall i | 0 <= i < 11 :: u[i] == u[..11][i];
  }

  /** No sum of products leaves the int64 range: all terms are non-negative and add up to less than 2^54. */
  lemma ProductLimbs(a: seq<int>, b: seq<int>, c: seq<int>)
    requires |a| == 12 && |b| == 12 && |c| == 12
    requires forall i | 0 <= i < 12 :: 0 <= a[i] < 0x200_0000 && 0 <= b[i] < 0x200_0000 && 0 <= c[i] < 0x200_0000
    ensures var s := Plus(ConvRow(a, b, 24), Row(1, c, 24));
            (forall i | 0 <= i < 23 :: 0 <= s[i] <= 0x31_0000_0000_0000) && s[23] == 0
  {
    hide Conv;
    forall k | 0 <= k < 24
      ensures 0 <= Conv(a, b, k) <= 12 * 0x4_0000_0000_0000
    {
      ConvBound(a, b, k);
    }
    ConvAbove(a, b, 23);
  }

  lemma {:induction false} ConvAbove(a: seq<int>, b: seq<int>, k: int)
    requires k >= |a| + |b| - 1
    ensures Conv(a, b, k) == 0
  {
    if a != [] {
      ConvAbove(a[1..], b, k - 1);
    }
  }
}
