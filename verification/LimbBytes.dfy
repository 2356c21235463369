/**
 Byte strings as 21-bit limbs and back: the `load3`/`load4` readers of
 crypto/ed25519/internal/edwards25519/field.go and the two ends of scalar.go.
 */
module LimbBytes {

  import opened Radix
  import opened Bits

  /** One limb's weight, 2^21. */
  const B: int := 0x20_0000

  function Load3(b: seq<Byte>, k: nat): nat
    requires k + 3 <= |b|
  {
    Or(Or(b[k], Shl(b[k + 1], 8)), Shl(b[k + 2], 16))
  }

  function Load4(b: seq<Byte>, k: nat): nat
    requires k + 4 <= |b|
  {
    Or(Load3(b, k), Shl(b[k + 3], 24))
  }

  lemma LoadReads(b: seq<Byte>, k: nat)
    requires k + 3 <= |b|
    ensures Load3(b, k) == Val(256, b[k..k + 3])
    ensures k + 4 <= |b| ==> Load4(b, k) == Val(256, b[k..k + 4])
  {
    hide Or, Val;
    assert Pow2(8) == 256 && Pow2(16) == 65536 && Pow2(24) == 0x100_0000;
    hide Pow2;
    JoinIsSum(b[k], b[k + 1], 8);
    JoinIsSum(b[k] + b[k + 1] * Pow2(8), b[k + 2], 16);
    Unfold3(b[k..k + 3]);
    if k + 4 <= |b| {
      JoinIsSum(Load3(b, k), b[k + 3], 24);
      Unfold4(b[k..k + 4]);
    }
  }

  lemma Unfold3(s: seq<int>)
    requires |s| == 3
    ensures Val(256, s) == s[0] + 256 * s[1] + 65536 * s[2]
  {
    assert Val(256, s[1..][1..]) == s[2] + 256 * Val(256, s[1..][1..][1..]);
  }

  lemma Unfold4(s: seq<int>)
    requires |s| == 4
    ensures Val(256, s) == s[0] + 256 * s[1] + 65536 * s[2] + 0x100_0000 * s[3]
  {
    Unfold3(s[1..]);
  }

  /** `2097151 & x`. */
  function Mask(x: nat): nat {
    And(0x1F_FFFF, x)
  }

  lemma MaskIsMod(x: nat)
    ensures Mask(x) == x % B
  {
    hide And;
    LimbBits();
    MaskIsRemainder(x, 21);
  }

  lemma LimbBits()
    ensures B == Pow2(21) && Pow2(8) == 256
  {
    assert Pow2(7) == 128;
    assert Pow2(14) == 16384;
    assert Pow2(21) == 0x20_0000;
  }

  lemma BitOffsets(i: nat, k: nat, r: nat)
    requires 21 * i == 8 * k + r
    ensures Weight(B, i) == Weight(256, k) * Pow2(r)
  {
    LimbBits();
    hide Pow2, Weight;
    WeightIsPow2(B, 21, i);
    WeightIsPow2(256, 8, k);
    Pow2Adds(8 * k, r);
  }

  /** What is left of a byte string above bit 21i, read from byte k on. */
  lemma AboveBit(b: seq<Byte>, i: nat, k: nat, r: nat)
    requires k <= |b| && 21 * i == 8 * k + r
    ensures Val(256, b) / Weight(B, i) == Val(256, b[k..]) / Pow2(r)
  {
    hide Weight, Val, Pow2;
    BitOffsets(i, k, r);
    ValDrops(256, b, k);
    DivDiv(Val(256, b), Weight(256, k), Pow2(r));
  }

  lemma LoadSpans(n: nat, r: nat)
    requires r + 21 <= 8 * n
    ensures Weight(256, n) == Pow2(r) * (B * Pow2(8 * n - 21 - r))
  {
    LimbBits();
    hide Pow2, Weight;
    WeightIsPow2(256, 8, n);
    Pow2Adds(21, 8 * n - 21 - r);
    Pow2Adds(r, 8 * n - r);
  }

  /** The masked, shifted load of `n` bytes at `k` is limb `i` of the whole string. */
  lemma LimbReads(b: seq<Byte>, i: nat, k: nat, r: nat, n: nat)
    requires k + n <= |b| && 21 * i == 8 * k + r && r + 21 <= 8 * n
    ensures Val(256, b[k..k + n]) / Pow2(r) % B == Val(256, b) / Weight(B, i) % B
  {
    hide Weight, Val, Pow2;
    AboveBit(b, i, k, r);
    LoadSpans(n, r);
    ValSplits(256, b[k..], n);
    assert b[k..][..n] == b[k..k + n];
    ShiftMod(Val(256, b[k..k + n]), Val(256, b[k..][n..]), Pow2(r), Pow2(8 * n - 21 - r), B);
  }

  /** `2097151 & (load(b[k:]) >> r)` with a three-byte load. */
  function Limb3(b: seq<Byte>, k: nat, r: nat): nat
    requires k + 3 <= |b|
  {
    Mask(Shr(Load3(b, k), r))
  }

  function Limb4(b: seq<Byte>, k: nat, r: nat): nat
    requires k + 4 <= |b|
  {
    Mask(Shr(Load4(b, k), r))
  }

  lemma Limb3Reads(b: seq<Byte>, i: nat, k: nat, r: nat)
    requires k + 3 <= |b| && 21 * i == 8 * k + r && r <= 3
    ensures Limb3(b, k, r) == Val(256, b) / Weight(B, i) % B
  {
    hide Weight, Val, Pow2, Load3, Mask;
    LoadReads(b, k);
    MaskIsMod(Shr(Load3(b, k), r));
    LimbReads(b, i, k, r, 3);
  }

  lemma Limb4Reads(b: seq<Byte>, i: nat, k: nat, r: nat)
    requires k + 4 <= |b| && 21 * i == 8 * k + r && r <= 11
    ensures Limb4(b, k, r) == Val(256, b) / Weight(B, i) % B
  {
    hide Weight, Val, Pow2, Load3, Load4, Mask;
    LoadReads(b, k);
    MaskIsMod(Shr(Load4(b, k), r));
    LimbReads(b, i, k, r, 4);
  }

  /** Eight limbs span 21 bytes. */
  function Group(b: seq<Byte>, k: nat): (g: seq<int>)
    requires k + 21 <= |b|
    ensures |g| == 8
  {
    [Limb3(b, k, 0), Limb4(b, k + 2, 5), Limb3(b, k + 5, 2), Limb4(b, k + 7, 7),
     Limb4(b, k + 10, 4), Limb3(b, k + 13, 1), Limb4(b, k + 15, 6), Limb3(b, k + 18, 3)]
  }

  lemma GroupReads(b: seq<Byte>, g: nat)
    requires 21 * g + 21 <= |b|
    ensures forall j | 0 <= j < 8 :: Group(b, 21 * g)[j] == Val(256, b) / Weight(B, 8 * g + j) % B
  {
    hide Weight, Val, Limb3, Limb4;
    var k, i := 21 * g, 8 * g;
    Limb3Reads(b, i, k, 0);
    Limb4Reads(b, i + 1, k + 2, 5);
    Limb3Reads(b, i + 2, k + 5, 2);
    Limb4Reads(b, i + 3, k + 7, 7);
    Limb4Reads(b, i + 4, k + 10, 4);
    Limb3Reads(b, i + 5, k + 13, 1);
    Limb4Reads(b, i + 6, k + 15, 6);
    Limb3Reads(b, i + 7, k + 18, 3);
  }

  /** The 24 limbs of a 64-byte string; the last one takes all that is left. */
  function Unpack64(b: seq<Byte>): (u: seq<int>)
    requires |b| == 64
    ensures |u| == 24
  {
    Group(b, 0) + Group(b, 21) + Group(b, 42)[..7] + [Shr(Load4(b, 60), 3)]
  }

  /** The 12 limbs of a 32-byte string. */
  function Unpack32(b: seq<Byte>): (u: seq<int>)
    requires |b| == 32
    ensures |u| == 12
  {
    Group(b, 0) + [Limb3(b, 21, 0), Limb4(b, 23, 5), Limb3(b, 26, 2), Shr(Load4(b, 28), 7)]
  }

  /** A row of limbs read off a byte string, with everything above in the last limb, stands for it. */
  lemma UnpackValue(u: seq<int>, v: int)
    requires |u| > 0 && u[|u| - 1] == v / Weight(B, |u| - 1)
    requires forall i | 0 <= i < |u| - 1 :: u[i] == v / Weight(B, i) % B
    ensures Val(B, u) == v
    ensures Digits(B, u[..|u| - 1])
  {
    var n := |u| - 1;
    assert Val(B, u[n..]) == u[n] + B * Val(B, []);
    hide Weight, Val;
    ReadOff(B, u[..n], v);
    ValSplits(B, u, n);
  }

  lemma LastLoad(b: seq<Byte>, i: nat, k: nat, r: nat)
    requires k + 4 == |b| && 21 * i == 8 * k + r
    ensures Shr(Load4(b, k), r) == Val(256, b) / Weight(B, i)
    ensures Load4(b, k) < 0x1_0000_0000
  {
    hide Weight, Val, Load4, Pow2;
    LoadReads(b, k);
    assert b[k..k + 4] == b[k..];
    AboveBit(b, i, k, r);
    Unfold4(b[k..]);
  }

  lemma Unpack64Value(b: seq<Byte>)
    requires |b| == 64
    ensures Val(B, Unpack64(b)) == Val(256, b)
    ensures Digits(B, Unpack64(b)[..23]) && 0 <= Unpack64(b)[23] < 0x2000_0000
  {
    hide Weight, Val, Group, Load4;
    GroupReads(b, 0);
    GroupReads(b, 1);
    GroupReads(b, 2);
    LastLoad(b, 23, 60, 3);
    var u := Unpack64(b);
    forall i | 0 <= i < 23
      ensures u[i] == Val(256, b) / Weight(B, i) % B
    {
      if i < 8 {
        assert u[i] == Group(b, 21 * 0)[i];
      } else if i < 16 {
        assert u[i] == Group(b, 21 * 1)[i - 8];
      } else {
        assert u[i] == Group(b, 21 * 2)[i - 16];
      }
    }
    UnpackValue(u, Val(256, b));
    assert Pow2(3) == 8;
  }

  lemma Unpack32Value(b: seq<Byte>)
    requires |b| == 32
    ensures Val(B, Unpack32(b)) == Val(256, b)
    ensures Digits(B, Unpack32(b)[..11]) && 0 <= Unpack32(b)[11] < 0x200_0000
  {
    hide Weight, Val, Group, Load4, Limb3, Limb4;
    GroupReads(b, 0);
    Limb3Reads(b, 8, 21, 0);
    Limb4Reads(b, 9, 23, 5);
    Limb3Reads(b, 10, 26, 2);
    LastLoad(b, 11, 28, 7);
    var u := Unpack32(b);
    forall i | 0 <= i < 11
      ensures u[i] == Val(256, b) / Weight(B, i) % B
    {
      if i < 8 {
        assert u[i] == Group(b, 21 * 0)[i];
      }
    }
    UnpackValue(u, Val(256, b));
    assert Pow2(7) == 128;
  }

  /** `byte(s[i] >> r)`. */
  function ByteOf(s: seq<int>, i: nat, r: nat): (c: Byte)
    requires i < |s| && s[i] >= 0
  {
    Shr(s[i], r) % 256
  }

  /** `byte((s[i] >> r) | (s[i+1] << (21-r)))`. */
  function ByteAcross(s: seq<int>, i: nat, r: nat): (c: Byte)
    requires i + 1 < |s| && s[i] >= 0 && s[i + 1] >= 0 && r <= 21
  {
    Or(Shr(s[i], r), Shl(s[i + 1], 21 - r)) % 256
  }

  function Pack(s: seq<int>): (b: seq<Byte>)
    requires |s| == 12 && forall i | 0 <= i < 12 :: s[i] >= 0
    ensures |b| == 32
  {
    [ByteOf(s, 0, 0), ByteOf(s, 0, 8), ByteAcross(s, 0, 16), ByteOf(s, 1, 3), ByteOf(s, 1, 11),
     ByteAcross(s, 1, 19), ByteOf(s, 2, 6), ByteAcross(s, 2, 14), ByteOf(s, 3, 1), ByteOf(s, 3, 9),
     ByteAcross(s, 3, 17), ByteOf(s, 4, 4), ByteOf(s, 4, 12), ByteAcross(s, 4, 20), ByteOf(s, 5, 7),
     ByteAcross(s, 5, 15), ByteOf(s, 6, 2), ByteOf(s, 6, 10), ByteAcross(s, 6, 18), ByteOf(s, 7, 5),
     ByteOf(s, 7, 13), ByteOf(s, 8, 0), ByteOf(s, 8, 8), ByteAcross(s, 8, 16), ByteOf(s, 9, 3),
     ByteOf(s, 9, 11), ByteAcross(s, 9, 19), ByteOf(s, 10, 6), ByteAcross(s, 10, 14), ByteOf(s, 11, 1),
     ByteOf(s, 11, 9), ByteOf(s, 11, 17)]
  }

  /** What is left of a row of limbs above byte j. */
  lemma ValFrom(s: seq<int>, i: nat)
    requires i < |s|
    ensures Val(B, s[i..]) == s[i] + B * Val(B, s[i + 1..])
  {
  }

  lemma AboveByte(s: seq<int>, i: nat, j: nat, r: nat)
    requires i < |s| && Digits(B, s[..i]) && 8 * j == 21 * i + r
    ensures Val(B, s) / Weight(256, j) == (s[i] + B * Val(B, s[i + 1..])) / Pow2(r)
  {
    hide *;
    ValFrom(s, i);
    LimbBits();
    WeightIsPow2(B, 21, i);
    WeightIsPow2(256, 8, j);
    Pow2Adds(21 * i, r);
    ValDrops(B, s, i);
    DivDiv(Val(B, s), Weight(B, i), Pow2(r));
  }

  lemma ByteOfReads(s: seq<int>, i: nat, j: nat, r: nat)
    requires i < |s| && s[i] >= 0 && Digits(B, s[..i]) && 8 * j == 21 * i + r
    requires r + 8 <= 21 || i == |s| - 1
    ensures ByteOf(s, i, r) == Val(B, s) / Weight(256, j) % 256
  {
    hide Weight, Val, Pow2;
    AboveByte(s, i, j, r);
    if r + 8 <= 21 {
      LimbBits();
      Pow2Adds(8, 13 - r);
      Pow2Adds(r, 21 - r);
      ShiftMod(s[i], Val(B, s[i + 1..]), Pow2(r), Pow2(13 - r), 256);
    } else {
      assert s[i + 1..] == [];
      assert Val(B, []) == 0 by { EmptyIsZero(); }
    }
  }

  lemma EmptyIsZero()
    ensures Val(B, []) == 0
  {
  }

  lemma JoinLimbs(x: int, y: int, r: nat)
    requires 0 <= x < B && y >= 0 && r <= 21
    ensures Or(Shr(x, r), Shl(y, 21 - r)) == (x + B * y) / Pow2(r)
  {
    LimbBits();
    hide Pow2, Or;
    Pow2Adds(r, 21 - r);
    DivLess(x, Pow2(r), Pow2(21 - r));
    JoinIsSum(Shr(x, r), y, 21 - r);
    DivSplits(x, y, Pow2(r), Pow2(21 - r));
  }

  lemma TwoLimbsUp(x: int, t: int, r: nat)
    requires r <= 21
    ensures (x + B * (B * t)) / Pow2(r) % 256 == x / Pow2(r) % 256
  {
    LimbBits();
    hide Pow2;
    Pow2Adds(8, 34 - r);
    Pow2Adds(r, 42 - r);
    Pow2Adds(21, 21);
    ShiftMod(x, t, Pow2(r), Pow2(34 - r), 256);
    assert Pow2(r) * (256 * Pow2(34 - r)) == B * B;
    MulAssoc(B, B, t);
  }

  lemma ByteAcrossReads(s: seq<int>, i: nat, j: nat, r: nat)
    requires i + 1 < |s| && 0 <= s[i] < B && s[i + 1] >= 0 && Digits(B, s[..i]) && 8 * j == 21 * i + r
    requires r <= 21
    ensures ByteAcross(s, i, r) == Val(B, s) / Weight(256, j) % 256
  {
    assert Val(B, s[i + 1..]) == s[i + 1] + B * Val(B, s[i + 2..]) by {
      assert s[i + 1..][1..] == s[i + 2..];
    }
    hide Weight, Val, Pow2, Or;
    AboveByte(s, i, j, r);
    JoinLimbs(s[i], s[i + 1], r);
    TwoLimbsUp(s[i] + B * s[i + 1], Val(B, s[i + 2..]), r);
  }

  lemma PackReads(s: seq<int>, j: nat)
    requires |s| == 12 && Digits(B, s[..11]) && s[11] >= 0 && j < 32
    ensures Pack(s)[j] == Val(B, s) / Weight(256, j) % 256
  {
    hide Weight, Val, Pow2, Or, ByteOf, ByteAcross;
    assert forall i | 0 <= i < 11 :: s[i] == s[..11][i];
    var i, r := 8 * j / 21, 8 * j % 21;
    assert Digits(B, s[..i]);
    if r + 8 <= 21 || i == 11 {
      ByteOfReads(s, i, j, r);
      PackIsByteOf(s, j);
    } else {
      ByteAcrossReads(s, i, j, r);
      PackIsByteAcross(s, j);
    }
  }

  /** The layout of `Pack`: byte j starts in limb 8j/21 at bit 8j%21. */
  lemma PackIsByteOf(s: seq<int>, j: nat)
    requires |s| == 12 && (forall i | 0 <= i < 12 :: s[i] >= 0) && j < 32
    requires 8 * j % 21 + 8 <= 21 || 8 * j / 21 == 11
    ensures Pack(s)[j] == ByteOf(s, 8 * j / 21, 8 * j % 21)
  {
    hide ByteOf, ByteAcross;
  }

  lemma PackIsByteAcross(s: seq<int>, j: nat)
    requires |s| == 12 && (forall i | 0 <= i < 12 :: s[i] >= 0) && j < 32
    requires 8 * j % 21 + 8 > 21 && 8 * j / 21 < 11
    ensures Pack(s)[j] == ByteAcross(s, 8 * j / 21, 8 * j % 21)
  {
    hide ByteOf, ByteAcross;
    AcrossAt(j);
    if j < 13 {
      assert j == 2 || j == 5 || j == 7 || j == 10;
    } else if j < 23 {
      assert j == 13 || j == 15 || j == 18;
    } else {
      assert j == 23 || j == 26 || j == 28;
    }
  }

  lemma AcrossAt(j: nat)
    requires j < 32 && 8 * j % 21 + 8 > 21 && 8 * j / 21 < 11
    ensures j == 2 || j == 5 || j == 7 || j == 10 || j == 13 || j == 15 || j == 18 || j == 23 || j == 26 || j == 28
  {
  }

  /** The bytes are the little-endian form of the number the limbs stand for. */
  lemma PackValue(s: seq<int>)
    requires |s| == 12 && Digits(B, s[..11]) && 0 <= s[11]
    requires Val(B, s) < Weight(256, 32)
    ensures Val(256, Pack(s)) == Val(B, s)
  {
    hide Weight, Val, Pack;
    forall j | 0 <= j < 32
      ensures Pack(s)[j] == Val(B, s) / Weight(256, j) % 256
    {
      PackReads(s, j);
    }
    ReadOff(256, Pack(s), Val(B, s));
    NonNegative(s);
    DivUnique(Val(B, s), Weight(256, 32), 0, Val(B, s));
  }

  lemma NonNegative(s: seq<int>)
    requires forall i | 0 <= i < |s| :: s[i] >= 0
    ensures Val(B, s) >= 0
  {
  }
}
