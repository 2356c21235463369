/**
 The two scalar multiplications of crypto/ed25519/internal/edwards25519/group.go.
 Points are taken from the free group on A and B, so that what is proved holds in
 every commutative group; the precomputed tables hold the multiples their
 comments name.
 */
module ScalarMult {

  import opened Radix
  import opened Bits
  import opened SignedWindow

  /** The point x*A + y*B. */
  datatype Point = Point(x: int, y: int)

  function Add(p: Point, q: Point): Point {
    Point(p.x + q.x, p.y + q.y)
  }

  function Neg(p: Point): Point {
    Point(-p.x, -p.y)
  }

  function Double(p: Point): Point {
    Add(p, p)
  }

  /** Adds the signed odd digit `d` times the point whose odd multiples are in `table`. */
  function AddDigit(t: Point, d: int, table: seq<Point>): (r: Point)
    requires |table| == 8 && GoodDigit(d)
  {
    if d > 0 then Add(t, table[d / 2])
    else if d < 0 then Add(t, Neg(table[(-d) / 2]))
    else t
  }

  function Scale(k: int, p: Point): Point {
    Point(k * p.x, k * p.y)
  }

  predicate OddTable(table: seq<Point>, p: Point) {
    |table| == 8 && forall j | 0 <= j < 8 :: table[j] == Scale(2 * j + 1, p)
  }

  lemma AddDigitScales(t: Point, d: int, table: seq<Point>, p: Point)
    requires OddTable(table, p) && GoodDigit(d)
    ensures AddDigit(t, d, table) == Add(t, Scale(d, p))
  {
    if d > 0 {
      assert 2 * (d / 2) + 1 == d;
    } else if d < 0 {
      assert 2 * ((-d) / 2) + 1 == -d;
    }
  }

  lemma ValAt(r: seq<int>, i: nat)
    requires i < |r|
    ensures Val(2, r[i..]) == r[i] + 2 * Val(2, r[i + 1..])
  {
    assert r[i..][1..] == r[i + 1..];
  }

  /** The highest place where either scalar has a non-zero digit, or -1. */
  method TopDigit(da: seq<int>, db: seq<int>) returns (i: int)
    requires |da| == |db|
    ensures -1 <= i < |da| && (i >= 0 ==> da[i] != 0 || db[i] != 0)
    ensures Val(2, da[i + 1..]) == 0 && Val(2, db[i + 1..]) == 0
  {
    i := |da| - 1;
    while i >= 0
      invariant -1 <= i < |da|
      invariant Val(2, da[i + 1..]) == 0 && Val(2, db[i + 1..]) == 0
    {
      if da[i] != 0 || db[i] != 0 {
        break;
      }
      ValAt(da, i);
      ValAt(db, i);
      i := i - 1;
    }
  }

  /** From the top digit down: double, then add the two digits' multiples. */
  method DoubleAndAdd(da: seq<int>, db: seq<int>, ma: seq<Point>, mb: seq<Point>) returns (r: Point)
    requires |da| == |db|
    requires forall i | 0 <= i < |da| :: GoodDigit(da[i]) && GoodDigit(db[i])
    requires OddTable(ma, Point(1, 0)) && OddTable(mb, Point(0, 1))
    ensures r == Point(Val(2, da), Val(2, db))
  {
    hide *;
    r := Point(0, 0);
    var i := TopDigit(da, db);
    while i >= 0
      invariant -1 <= i < |da|
      invariant r == Point(Val(2, da[i + 1..]), Val(2, db[i + 1..]))
    {
      ValAt(da, i);
      ValAt(db, i);
      r := DigitStep(r, da[i], db[i], ma, mb);
      assert r.x == Val(2, da[i..]) && r.y == Val(2, db[i..]);
      i := i - 1;
    }
    assert i == -1;
    assert da[0..] == da;
    assert db[0..] == db;
  }

  method DigitStep(r: Point, x: int, y: int, ma: seq<Point>, mb: seq<Point>) returns (t: Point)
    requires GoodDigit(x) && GoodDigit(y) && OddTable(ma, Point(1, 0)) && OddTable(mb, Point(0, 1))
    ensures t == Point(2 * r.x + x, 2 * r.y + y)
  {
    assert |ma| == |mb| == 8;
    hide GoodDigit, OddTable;
    t := Double(r);
    AddDigitScales(t, x, ma, Point(1, 0));
    t := AddDigit(t, x, ma);
    AddDigitScales(t, y, mb, Point(0, 1));
    t := AddDigit(t, y, mb);
  }

  /**
   a*A + b*B, as long as no carry is lost in recoding; in particular whenever both
   scalars have their top bit clear.
   */
  method GeDoubleScalarMultVartime(a: seq<Byte>, b: seq<Byte>) returns (r: Point)
    requires |a| == 32 && |b| == 32
    ensures r == Point(Val(256, a) - Weight(2, 256) * Left(Val(256, a), 256),
                       Val(256, b) - Weight(2, 256) * Left(Val(256, b), 256))
    ensures a[31] <= 127 && b[31] <= 127 ==> r == Point(Val(256, a), Val(256, b))
  {
    hide Naf, Left, Val, Weight, GoodDigit, OddTable;
    var aSlide, bSlide := new int[256], new int[256];
    Slide(aSlide, a);
    Slide(bSlide, b);
    SlideValue(a);
    SlideValue(b);
    var multiples := TableOfA();
    r := DoubleAndAdd(aSlide[..], bSlide[..], multiples, TableOfB());
  }

  /** A scalar whose top bit is set can come out wrong: 32 bytes of 255 count as -1. */
  method OnesCountAsMinusOne(b: seq<Byte>) returns (r: Point)
    requires |b| == 32 && b[31] <= 127
    ensures r == Point(-1, Val(256, b))
  {
    hide Naf, Left, Val, Weight, GoodDigit, Ones;
    r := GeDoubleScalarMultVartime(Ones(32), b);
    TopBitCanBeLost();
    SlideValue(Ones(32));
    SlideValue(b);
  }

  /** A, 3A, 5A, ..., 15A. */
  method TableOfA() returns (multiples: seq<Point>)
    ensures OddTable(multiples, Point(1, 0))
  {
    multiples := [Point(1, 0)];
    var twice := Double(Point(1, 0));
    for i := 0 to 7
      invariant |multiples| == i + 1
      invariant forall j | 0 <= j <= i :: multiples[j] == Point(2 * j + 1, 0)
    {
      multiples := multiples + [Add(twice, multiples[i])];
    }
  }

  /** The table `bi`: B, 3B, 5B, ..., 15B. */
  function TableOfB(): (bi: seq<Point>)
    ensures OddTable(bi, Point(0, 1))
  {
    seq(8, j => Scale(2 * j + 1, Point(0, 1)))
  }

  // ----- Multiples of the base point -----

  /** The bytes of a scalar, each split in its two halves. */
  function Nibbles(a: seq<Byte>): (e: seq<int>)
    ensures |e| == 2 * |a|
    ensures forall i | 0 <= i < |a| :: e[2 * i] == a[i] % 16 && e[2 * i + 1] == a[i] / 16
  {
    if a == [] then [] else [a[0] % 16, a[0] / 16] + Nibbles(a[1..])
  }

  lemma {:induction false} NibblesValue(a: seq<Byte>)
    ensures Val(16, Nibbles(a)) == Val(256, a)
  {
    if a != [] {
      NibblesValue(a[1..]);
      var e := Nibbles(a);
      assert e[1..][1..] == Nibbles(a[1..]);
      assert Val(16, e[1..]) == e[1] + 16 * Val(16, e[1..][1..]);
    }
  }

  method SplitBytes(a: seq<Byte>) returns (e: array<int>)
    requires |a| == 32
    ensures fresh(e) && e.Length == 64 && e[..] == Nibbles(a)
  {
    e := new int[64];
    var n := |a|;
    var i := 0;
    while i < n
      invariant 0 <= i <= n == |a|
      invariant forall k | 0 <= k < 2 * i :: e[k] == Nibbles(a)[k]
    {
      hide Nibbles;
      assert Nibbles(a)[2 * i] == a[i] % 16 && Nibbles(a)[2 * i + 1] == a[i] / 16;
      NibbleMask(a[i]);
      e[2 * i] := And(a[i], 15);
      e[2 * i + 1] := And(a[i] / Pow2(4), 15);
      i := i + 1;
    }
  }

  lemma NibbleMask(v: Byte)
    ensures And(v, 15) == v % 16 && And(v / Pow2(4), 15) == v / 16
  {
    assert Pow2(4) == 16;
    MaskIsRemainder(v, 4);
    MaskIsRemainder(v / 16, 4);
  }

  /** int32 as a machine word. */
  function Word(b: int): bv32
    requires -128 <= b < 128
  {
    (if b < 0 then 0x1_0000_0000 + b else b) as bv32
  }

  /** 1 if b == c and 0 otherwise, assuming that b and c are non-negative. */
  function Equal(b: bv32, c: bv32): (r: bv32)
    ensures b < 0x8000_0000 && c < 0x8000_0000 ==> r == if b == c then 1 else 0
  {
    ((b ^ c) - 1) >> 31
  }

  /** 1 if b < 0 and 0 otherwise. */
  function Negative(b: bv32): (r: bv32)
    ensures r == if b >= 0x8000_0000 then 1 else 0
  {
    (b >> 31) & 1
  }

  function Magnitude(b: bv32): bv32 {
    b - (((0 - Negative(b)) & b) << 1)
  }

  lemma SignedWord(b: int)
    requires -8 <= b <= 8
    ensures Negative(Word(b)) == if b < 0 then 1 else 0
    ensures Magnitude(Word(b)) == Word(if b < 0 then -b else b)
  {
    if b == -8 {} else if b == -7 {} else if b == -6 {} else if b == -5 {} else if b == -4 {}
    else if b == -3 {} else if b == -2 {} else if b == -1 {} else if b == 0 {} else if b == 1 {}
    else if b == 2 {} else if b == 3 {} else if b == 4 {} else if b == 5 {} else if b == 6 {}
    else if b == 7 {} else {}
  }

  lemma SmallWord(x: int)
    requires 0 <= x <= 8
    ensures Word(x) < 0x8000_0000
    ensures Word(x) == [0, 1, 2, 3, 4, 5, 6, 7, 8][x]
  {
    if x == 0 {} else if x == 1 {} else if x == 2 {} else if x == 3 {} else if x == 4 {}
    else if x == 5 {} else if x == 6 {} else if x == 7 {} else {}
  }

  lemma EqualWord(x: int, y: int)
    requires 0 <= x <= 8 && 0 <= y <= 8
    ensures Equal(Word(x), Word(y)) == if x == y then 1 else 0
  {
    SmallWord(x);
    SmallWord(y);
    hide Word;
  }

  /** k times the base point. */
  function OfBase(k: int): Point {
    Point(0, k)
  }

  /** The table `base`: entry j of row pos is (j+1)*256^pos*B. */
  function BaseTable(pos: nat, j: nat): Point
    requires j < 8
  {
    OfBase((j + 1) * Weight(256, pos))
  }

  /** Takes u if the flag is 1 and keeps t if it is 0. */
  function CMove(t: Point, u: Point, flag: bv32): Point {
    if flag == 1 then u else t
  }

  /** Picks b*256^pos*B out of the table without branching on b. */
  method SelectPoint(pos: nat, b: int) returns (t: Point)
    requires -8 <= b <= 8
    ensures t == OfBase(b * Weight(256, pos))
  {
    var bNegative := Negative(Word(b));
    var bAbs := Magnitude(Word(b));
    ghost var m := if b < 0 then -b else b;
    SignedWord(b);
    hide Word, Magnitude, Negative, Equal, Weight;
    t := OfBase(0);
    for i := 0 to 8
      invariant t == OfBase(if 1 <= m <= i then m * Weight(256, pos) else 0)
    {
      EqualWord(m, i + 1);
      t := CMove(t, BaseTable(pos, i), Equal(bAbs, Word(i + 1)));
    }
    var minusT := Neg(t);
    t := CMove(t, minusT, bNegative);
  }

  /** Turns nibbles into signed digits from -8 to 8, in place, keeping the number they stand for. */
  method Centre(e: array<int>)
    requires e.Length > 0
    requires forall i | 0 <= i < e.Length :: 0 <= e[i] < 16
    requires e[e.Length - 1] < 8
    modifies e
    ensures Val(16, e[..]) == old(Val(16, e[..]))
    ensures forall i | 0 <= i < e.Length :: -8 <= e[i] <= 8
  {
    hide Val, Weight;
    var carry := 0;
    var last := e.Length - 1;
    ghost var v := Val(16, e[..]);
    assert Weight(16, 0) == 1 by { FirstWeight(); }
    for i := 0 to last
      invariant 0 <= carry <= 1
      invariant forall k | 0 <= k < i :: -8 <= e[k] < 8
      invariant forall k | i <= k < e.Length :: e[k] == old(e[k])
      invariant Val(16, e[..]) + carry * Weight(16, i) == v
    {
      ghost var was, c := e[..], carry;
      e[i] := e[i] + carry;
      assert Int8(e[i] + 8);
      carry := (e[i] + 8) / 16;
      e[i] := e[i] - carry * 16;
      assert e[..] == was[i := was[i] + (c - carry * 16)];
      ValChange(16, was, i, c - carry * 16);
      CentreStep(v, Val(16, was), c, carry, i);
    }
    ghost var was := e[..];
    e[last] := e[last] + carry;
    assert e[..] == was[last := was[last] + carry];
    ValChange(16, was, last, carry);
  }

  lemma FirstWeight()
    ensures Weight(16, 0) == 1
  {
  }

  lemma CentreStep(v: int, x: int, c: int, carry: int, i: nat)
    requires x + c * Weight(16, i) == v
    ensures x + (c - carry * 16) * Weight(16, i) + carry * Weight(16, i + 1) == v
  {
    assert Weight(16, i + 1) == 16 * Weight(16, i);
    var w := Weight(16, i);
    assert (c - carry * 16) * w + carry * (16 * w) == c * w;
  }

  /** Every other digit, from `from` on. */
  function Alternate(e: seq<int>, from: nat): (s: seq<int>)
    requires from < 2 && |e| % 2 == 0
    ensures |s| == |e| / 2 && forall k | 0 <= k < |s| :: s[k] == e[2 * k + from]
  {
    seq(|e| / 2, k requires 0 <= k < |e| / 2 => e[2 * k + from])
  }

  lemma {:induction false} AlternateValue(e: seq<int>)
    requires |e| % 2 == 0
    ensures Val(16, e) == Val(256, Alternate(e, 0)) + 16 * Val(256, Alternate(e, 1))
  {
    if e != [] {
      var rest := e[2..];
      AlternateValue(rest);
      assert e[1..][1..] == rest;
      assert Val(16, e[1..]) == e[1] + 16 * Val(16, rest);
      assert Alternate(e, 0)[1..] == Alternate(rest, 0);
      assert Alternate(e, 1)[1..] == Alternate(rest, 1);
    }
  }

  /** One of the two passes: adds every other digit's table entry. */
  method AddAlternate(h0: Point, e: seq<int>, from: nat) returns (h: Point)
    requires from < 2 && |e| % 2 == 0 && forall i | 0 <= i < |e| :: -8 <= e[i] <= 8
    ensures h == Add(h0, OfBase(Val(256, Alternate(e, from))))
  {
    hide Val, Weight;
    ghost var s := Alternate(e, from);
    h := h0;
    var i := from;
    assert s[..0] == [];
    EmptyValue();
    while i < |e|
      invariant from <= i <= |e| + 1 && i % 2 == from
      invariant h == Add(h0, OfBase(Val(256, s[..i / 2])))
    {
      var t := SelectPoint(i / 2, e[i]);
      h := Add(h, t);
      NextDigit(s, i / 2);
      i := i + 2;
    }
    assert s[..i / 2] == s;
  }

  lemma EmptyValue()
    ensures Val(256, []) == 0
  {
  }

  lemma NextDigit(s: seq<int>, k: nat)
    requires k < |s|
    ensures Val(256, s[..k + 1]) == Val(256, s[..k]) + s[k] * Weight(256, k)
  {
    assert s[..k + 1][k..] == [s[k]];
    assert s[..k + 1][..k] == s[..k];
    assert Val(256, [s[k]]) == s[k] + 256 * Val(256, []);
    hide Val, Weight;
    ValSplits(256, s[..k + 1], k);
  }

  /** a*B, for every scalar with its top bit clear. */
  method GeScalarMultBase(a: seq<Byte>) returns (h: Point)
    requires |a| == 32 && a[31] <= 127
    ensures h == OfBase(Val(256, a))
  {
    hide Val, Weight, Nibbles;
    var e := SplitBytes(a);
    NibblesValue(a);
    NibblesAreDigits(a);
    assert forall i | 0 <= i < e.Length :: e[i] == e[..][i];
    Centre(e);
    AlternateValue(e[..]);
    h := OfBase(0);
    h := AddAlternate(h, e[..], 1);
    h := Double(Double(Double(Double(h))));
    h := AddAlternate(h, e[..], 0);
  }

  lemma NibblesAreDigits(a: seq<Byte>)
    requires |a| == 32 && a[31] <= 127
    ensures forall i | 0 <= i < 64 :: 0 <= Nibbles(a)[i] < 16
    ensures Nibbles(a)[63] < 8
  {
    var e := Nibbles(a);
    forall i | 0 <= i < 64
      ensures 0 <= e[i] < 16
    {
      assert e[2 * (i / 2)] == a[i / 2] % 16 && e[2 * (i / 2) + 1] == a[i / 2] / 16;
    }
    assert e[2 * 31 + 1] == a[31] / 16;
  }
}
