/**
 Peer identities of peer/identity.go: byte strings compared by their XOR distance.
 */
module Identity {

  import opened Radix
  import opened Bits

  type Key = seq<Byte>

  /** A peer; two peers are the same when their keys are. */
  datatype ID = ID(address: string, key: Key)

  function XorByte(x: Byte, y: Byte): Byte {
    XorRange(x, y, 8);
    assert Pow2(8) == 256 by {
      assert Pow2(4) == 16;
    }
    Xor(x, y)
  }

  function XorKey(a: Key, b: Key): (r: Key)
    ensures |r| == |a| && forall i | 0 <= i < |a| :: r[i] == if i < |b| then XorByte(a[i], b[i]) else 0
  {
    seq(|a|, i requires 0 <= i < |a| => if i < |b| then XorByte(a[i], b[i]) else 0)
  }

  lemma XorByteZero(x: Byte, y: Byte)
    ensures XorByte(x, y) == 0 <==> x == y
  {
    hide Xor;
    XorCancels(x, y);
    XorCancels(x, x);
    XorItself(x);
  }

  /** `XorID`. */
  method XorID(id: ID, other: ID) returns (r: ID)
    ensures r == ID(id.address, XorKey(id.key, other.key))
  {
    hide XorByte;
    var result := new Byte[|id.key|](_ => 0);
    var i := 0;
    while i < |id.key| && i < |other.key|
      invariant i <= |id.key| && i <= |other.key|
      invariant forall j | 0 <= j < |id.key| :: result[j] == if j < i then XorByte(id.key[j], other.key[j]) else 0
    {
      result[i] := XorByte(id.key[i], other.key[i]);
      i := i + 1;
    }
    r := ID(id.address, result[..]);
  }

  /** The number of bits needed to write x. */
  function Len(x: nat): (n: nat)
    ensures x < Pow2(n) && (x > 0 ==> n > 0 && Pow2(n - 1) <= x)
  {
    if x == 0 then 0 else 1 + Len(x / 2)
  }

  /** `bits.LeadingZeros8`. */
  function LeadingZeros8(x: Byte): int {
    8 - Len(x)
  }

  function FirstByte(x: Key): (i: nat)
    ensures i <= |x| && (forall j | 0 <= j < i :: x[j] == 0) && (i < |x| ==> x[i] != 0)
  {
    if x == [] || x[0] != 0 then 0 else 1 + FirstByte(x[1..])
  }

  /** `PrefixLen`: leading zero bits, except that a key of zeros counts one less than its length. */
  function PrefixLen(x: Key): int {
    var i := FirstByte(x);
    if i < |x| then i * 8 + LeadingZeros8(x[i]) else |x| * 8 - 1
  }

  /** `Less`: bytes.Compare gives -1. */
  predicate Less(a: Key, b: Key) {
    if b == [] then false
    else if a == [] then true
    else if a[0] != b[0] then a[0] < b[0]
    else Less(a[1..], b[1..])
  }

  // ----- Bits of a number -----

  predicate NumberBit(x: nat, k: nat) {
    x / Pow2(k) % 2 == 1
  }

  lemma HalfBit(x: nat, k: nat)
    requires k > 0
    ensures NumberBit(x, k) == NumberBit(x / 2, k - 1)
  {
    DivDiv(x, 2, Pow2(k - 1));
  }

  lemma XorHalf(a: nat, b: nat)
    ensures Xor(a, b) / 2 == Xor(a / 2, b / 2) && (Xor(a, b) % 2 == 1 <==> a % 2 != b % 2)
  {
  }

  lemma {:induction false} XorBits(a: nat, b: nat, k: nat)
    ensures NumberBit(Xor(a, b), k) <==> NumberBit(a, k) != NumberBit(b, k)
  {
    XorHalf(a, b);
    hide Xor;
    if k > 0 {
      HalfBit(a, k);
      HalfBit(b, k);
      HalfBit(Xor(a, b), k);
      hide NumberBit;
      XorBits(a / 2, b / 2, k - 1);
    }
  }

  /** Dropping one bit less. */
  lemma OneMore(x: nat, k: nat)
    ensures x / Pow2(k) == 2 * (x / Pow2(k + 1)) + (if NumberBit(x, k) then 1 else 0)
  {
    DivDiv(x, Pow2(k), 2);
    assert Pow2(k) * 2 == Pow2(k + 1);
  }

  /** Numbers below 2^n compare as their highest different bits do. */
  lemma {:induction false} SameAbove(x: nat, y: nat, k: nat, n: nat)
    requires k <= n && x < Pow2(n) && y < Pow2(n)
    requires forall j | k <= j < n :: NumberBit(x, j) == NumberBit(y, j)
    ensures x / Pow2(k) == y / Pow2(k)
    decreases n - k
  {
    if k == n {
      DivUnique(x, Pow2(n), 0, x);
      DivUnique(y, Pow2(n), 0, y);
    } else {
      SameAbove(x, y, k + 1, n);
      OneMore(x, k);
      OneMore(y, k);
    }
  }

  lemma NumberOrder(x: nat, y: nat, k: nat, n: nat)
    requires k < n && x < Pow2(n) && y < Pow2(n) && NumberBit(x, k) != NumberBit(y, k)
    requires forall j | k < j < n :: NumberBit(x, j) == NumberBit(y, j)
    ensures x != y && (x < y <==> !NumberBit(x, k))
  {
    SameAbove(x, y, k + 1, n);
    OneMore(x, k);
    OneMore(y, k);
    if x < y {
      DivGrows(x, y, Pow2(k));
    } else {
      DivGrows(y, x, Pow2(k));
    }
  }

  lemma DivGrows(x: nat, y: nat, d: nat)
    requires x <= y && d > 0
    ensures x / d <= y / d
  {
    if x / d > y / d {
      MulMonotone(d, y / d + 1, x / d);
    }
  }

  // ----- Bits of a key -----

  /** Bit i of a key, from the most significant bit of its first byte. */
  predicate Bit(x: Key, i: nat)
    requires i < 8 * |x|
  {
    NumberBit(x[i / 8], 7 - i % 8)
  }

  lemma BitOfRest(x: Key, i: nat)
    requires 8 <= i < 8 * |x|
    ensures Bit(x, i) == Bit(x[1..], i - 8)
  {
  }

  lemma XorKeyBit(a: Key, b: Key, i: nat)
    requires |a| == |b| && i < 8 * |a|
    ensures Bit(XorKey(a, b), i) <==> Bit(a, i) != Bit(b, i)
  {
    XorBits(a[i / 8], b[i / 8], 7 - i % 8);
  }

  lemma ByteRange(x: Byte)
    ensures x < Pow2(8)
  {
    assert Pow2(4) == 16;
  }

  lemma LeadingBits(x: Byte, j: nat)
    requires j < 8
    ensures 0 <= LeadingZeros8(x) <= 8 && (x != 0 ==> LeadingZeros8(x) < 8)
    ensures j < LeadingZeros8(x) ==> !NumberBit(x, 7 - j)
    ensures j == LeadingZeros8(x) ==> NumberBit(x, 7 - j)
  {
    ByteRange(x);
    LenBounded(x, 8);
    if j < LeadingZeros8(x) {
      Pow2Monotone(Len(x), 7 - j);
      DivUnique(x, Pow2(7 - j), 0, x);
    } else if j == LeadingZeros8(x) {
      DivUnique(x, Pow2(7 - j), 1, x - Pow2(7 - j));
    }
  }

  lemma {:induction false} LenBounded(x: nat, n: nat)
    requires x < Pow2(n)
    ensures Len(x) <= n
  {
    if x > 0 {
      LenBounded(x / 2, n - 1);
    }
  }

  /** The prefix length is the position of the first bit, or the last position if there is none. */
  lemma PrefixLenMeans(x: Key)
    requires x != []
    ensures 0 <= PrefixLen(x) < 8 * |x|
    ensures forall i | 0 <= i < PrefixLen(x) :: !Bit(x, i)
    ensures Bit(x, PrefixLen(x)) || (PrefixLen(x) == 8 * |x| - 1 && forall i | 0 <= i < 8 * |x| :: !Bit(x, i))
  {
    var n := FirstByte(x);
    hide NumberBit, LeadingZeros8, FirstByte;
    forall i | 0 <= i < 8 * n
      ensures !Bit(x, i)
    {
      ZeroByteBit(x, i);
    }
    if n < |x| {
      FirstByteBits(x, n);
    }
  }

  lemma ZeroByteBit(x: Key, i: nat)
    requires i < 8 * |x| && x[i / 8] == 0
    ensures !Bit(x, i)
  {
    DivUnique(0, Pow2(7 - i % 8), 0, 0);
  }

  lemma FirstByteBits(x: Key, n: nat)
    requires n < |x| && x[n] != 0
    ensures 0 <= LeadingZeros8(x[n]) < 8 && Bit(x, 8 * n + LeadingZeros8(x[n]))
    ensures forall i | 8 * n <= i < 8 * n + LeadingZeros8(x[n]) :: !Bit(x, i)
  {
    hide NumberBit, LeadingZeros8, Bit;
    var z := LeadingZeros8(x[n]);
    LeadingBits(x[n], 0);
    LeadingBits(x[n], z);
    BitInByte(x, n, z);
    forall i | 8 * n <= i < 8 * n + z
      ensures !Bit(x, i)
    {
      LeadingBits(x[n], i - 8 * n);
      BitInByte(x, n, i - 8 * n);
    }
  }

  lemma BitInByte(x: Key, n: nat, j: nat)
    requires n < |x| && j < 8
    ensures Bit(x, 8 * n + j) == NumberBit(x[n], 7 - j)
  {
    hide NumberBit;
    assert (8 * n + j) / 8 == n && (8 * n + j) % 8 == j;
  }

  // ----- Order -----

  /** Keys compare as their first different bits do. */
  lemma {:induction false} LessAt(a: Key, b: Key, i: nat)
    requires |a| == |b| && i < 8 * |a| && Bit(a, i) != Bit(b, i)
    requires forall j | 0 <= j < i :: Bit(a, j) == Bit(b, j)
    ensures a != b && (Less(a, b) <==> !Bit(a, i))
  {
    hide Bit;
    if i < 8 {
      FirstBytesDiffer(a, b, i);
    } else {
      FirstBytesAgree(a, b);
      forall j | 0 <= j < i - 8
        ensures Bit(a[1..], j) == Bit(b[1..], j)
      {
        BitOfRest(a, j + 8);
        BitOfRest(b, j + 8);
      }
      BitOfRest(a, i);
      BitOfRest(b, i);
      LessAt(a[1..], b[1..], i - 8);
    }
  }

  lemma FirstBytesDiffer(a: Key, b: Key, i: nat)
    requires a != [] && b != [] && i < 8 && Bit(a, i) != Bit(b, i) && forall j | 0 <= j < i :: Bit(a, j) == Bit(b, j)
    ensures a[0] != b[0] && (a[0] < b[0] <==> !Bit(a, i))
  {
    ByteRange(a[0]);
    ByteRange(b[0]);
    hide NumberBit, Pow2;
    forall j | 7 - i < j < 8
      ensures NumberBit(a[0], j) == NumberBit(b[0], j)
    {
      assert Bit(a, 7 - j) == Bit(b, 7 - j);
    }
    NumberOrder(a[0], b[0], 7 - i, 8);
  }

  lemma FirstBytesAgree(a: Key, b: Key)
    requires a != [] && b != [] && forall j | 0 <= j < 8 :: Bit(a, j) == Bit(b, j)
    ensures a[0] == b[0]
  {
    ByteRange(a[0]);
    ByteRange(b[0]);
    forall j | 0 <= j < 8
      ensures NumberBit(a[0], j) == NumberBit(b[0], j)
    {
      assert Bit(a, 7 - j) == Bit(b, 7 - j);
    }
    hide NumberBit, Bit;
    SameAbove(a[0], b[0], 0, 8);
  }

  lemma {:induction false} LessTransitive(a: Key, b: Key, c: Key)
    requires Less(a, b) && Less(b, c)
    ensures Less(a, c)
  {
    if a != [] && a[0] == b[0] == c[0] {
      LessTransitive(a[1..], b[1..], c[1..]);
    }
  }

  lemma {:induction false} LessTotal(a: Key, b: Key)
    ensures (Less(a, b) || Less(b, a) || a == b) && !(Less(a, b) && Less(b, a)) && !Less(a, a)
  {
    if a != [] && b != [] && a[0] == b[0] {
      LessTotal(a[1..], b[1..]);
      assert a == [a[0]] + a[1..] && b == [b[0]] + b[1..];
    }
    if a != [] {
      LessTotal(a[1..], a[1..]);
    }
  }

  // ----- Distance -----

  /** Key p is nearer to t than q is. */
  predicate Closer(t: Key, p: Key, q: Key) {
    Less(XorKey(p, t), XorKey(q, t))
  }

  lemma XorByteInjective(x: Byte, x': Byte, y: Byte)
    requires XorByte(x, y) == XorByte(x', y)
    ensures x == x'
  {
    forall k | 0 <= k < 8
      ensures NumberBit(x, k) == NumberBit(x', k)
    {
      XorBits(x, y, k);
      XorBits(x', y, k);
    }
    ByteRange(x);
    ByteRange(x');
    SameAbove(x, x', 0, 8);
  }

  /** Different keys are at different distances: nearness is a strict total order. */
  lemma CloserTotal(t: Key, p: Key, q: Key)
    requires |p| == |t| == |q|
    ensures (Closer(t, p, q) || Closer(t, q, p) || p == q) && !(Closer(t, p, q) && Closer(t, q, p)) && !Closer(t, p, p)
  {
    LessTotal(XorKey(p, t), XorKey(q, t));
    LessTotal(XorKey(p, t), XorKey(p, t));
    if XorKey(p, t) == XorKey(q, t) {
      hide XorByte;
      forall i | 0 <= i < |p|
        ensures p[i] == q[i]
      {
        assert XorKey(p, t)[i] == XorKey(q, t)[i];
        XorByteInjective(p[i], q[i], t[i]);
      }
    }
  }

  lemma CloserTransitive(t: Key, p: Key, q: Key, r: Key)
    requires Closer(t, p, q) && Closer(t, q, r)
    ensures Closer(t, p, r)
  {
    LessTransitive(XorKey(p, t), XorKey(q, t), XorKey(r, t));
  }

  /** Of two keys, the one that agrees with t where they first differ is nearer to t. */
  lemma CloserAt(t: Key, p: Key, q: Key, i: nat)
    requires |p| == |t| == |q| && i < 8 * |t| && Bit(p, i) != Bit(q, i)
    requires forall j | 0 <= j < i :: Bit(p, j) == Bit(q, j)
    ensures Closer(t, p, q) <==> Bit(p, i) == Bit(t, i)
  {
    hide Bit;
    forall j | 0 <= j <= i
      ensures Bit(XorKey(p, t), j) <==> Bit(p, j) != Bit(t, j)
      ensures Bit(XorKey(q, t), j) <==> Bit(q, j) != Bit(t, j)
    {
      XorKeyBit(p, t, j);
      XorKeyBit(q, t, j);
    }
    LessAt(XorKey(p, t), XorKey(q, t), i);
  }
}
