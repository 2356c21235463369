/**
 The field GF(2^255-19) in five 51-bit limbs held in 64-bit words, as in
 crypto/ed25519/internal/edwards25519/fe_amd64.go.  Words wrap around at 2^64.
 */
module FieldWords {

  import opened Radix
  import opened Bits

  const P: int := 0x7FFF_FFFF_FFFF_FFFF_FFFF_FFFF_FFFF_FFFF_FFFF_FFFF_FFFF_FFFF_FFFF_FFFF_FFFF_FFED

  type Word = x: int | 0 <= x < 0x1_0000_0000_0000_0000

  datatype Fe = Fe(t0: Word, t1: Word, t2: Word, t3: Word, t4: Word)

  /** t0 + t1*2^51 + t2*2^102 + t3*2^153 + t4*2^204. */
  function Value(f: Fe): int {
    f.t0 + 0x8_0000_0000_0000 * (f.t1 + 0x8_0000_0000_0000 * (f.t2 + 0x8_0000_0000_0000
      * (f.t3 + 0x8_0000_0000_0000 * f.t4)))
  }

  predicate Short(f: Fe) {
    && f.t0 < 0x8_0000_0000_0000 && f.t1 < 0x8_0000_0000_0000 && f.t2 < 0x8_0000_0000_0000
    && f.t3 < 0x8_0000_0000_0000 && f.t4 < 0x8_0000_0000_0000
  }

  function Add64(a: Word, b: Word): Word {
    (a + b) % 0x1_0000_0000_0000_0000
  }

  lemma Pow51()
    ensures Pow2(51) == 0x8_0000_0000_0000
  {
    assert Pow2(8) == 0x100 && Pow2(3) == 8;
    hide Pow2;
    Pow2Adds(8, 8);
    Pow2Adds(16, 16);
    Pow2Adds(32, 16);
    Pow2Adds(48, 3);
  }

  /** `x & maskLow51Bits`. */
  function Low(x: Word): (r: Word)
    ensures r == x % 0x8_0000_0000_0000
  {
    Pow51();
    MaskIsRemainder(x, 51);
    And(x, 0x7_FFFF_FFFF_FFFF)
  }

  /** `x >> 51`. */
  function High(x: Word): (r: Word)
    ensures r == x / 0x8_0000_0000_0000
  {
    Pow51();
    Shr(x, 51)
  }

  /** 1 if the sum of two words wraps around. */
  function Wraps(a: Word, b: Word): (l: int)
    ensures a + b == Add64(a, b) + 0x1_0000_0000_0000_0000 * l
    ensures 0 <= l <= 1
  {
    if a + b < 0x1_0000_0000_0000_0000 then 0 else 1
  }

  /** The top four limbs with the carry of the limb below added, before they are masked. */
  function Carried(v: Fe): (Word, Word, Word, Word) {
    var t1 := Add64(v.t1, High(v.t0));
    var t2 := Add64(v.t2, High(t1));
    var t3 := Add64(v.t3, High(t2));
    var t4 := Add64(v.t4, High(t3));
    (t1, t2, t3, t4)
  }

  /** No limb overflows its word when it takes the carry of the limb below. */
  predicate ChainFits(v: Fe) {
    var (t1, t2, t3, _) := Carried(v);
    && v.t1 + High(v.t0) < 0x1_0000_0000_0000_0000 && v.t2 + High(t1) < 0x1_0000_0000_0000_0000
    && v.t3 + High(t2) < 0x1_0000_0000_0000_0000 && v.t4 + High(t3) < 0x1_0000_0000_0000_0000
  }

  /** What is lost by the words that do overflow. */
  function Lost(v: Fe): int {
    var (t1, t2, t3, _) := Carried(v);
    0x8_0000_0000_0000_0000_0000_0000_0000 * (Wraps(v.t1, High(v.t0)) + 0x8_0000_0000_0000
      * (Wraps(v.t2, High(t1)) + 0x8_0000_0000_0000
      * (Wraps(v.t3, High(t2)) + 0x8_0000_0000_0000 * Wraps(v.t4, High(t3)))))
  }

  lemma Masked(x: Word)
    ensures x == Low(x) + 0x8_0000_0000_0000 * High(x)
  {
  }

  /** The limbs after a carry pass: masked, with 19 times the top carry added to the first. */
  function Pass(v: Fe): Fe {
    var (x1, x2, x3, x4) := Carried(v);
    Fe(Add64(Low(v.t0), High(x4) * 19), Low(x1), Low(x2), Low(x3), Low(x4))
  }

  /** One carry pass: every limb but the first ends below 2^51, the top carry comes back times 19. */
  method CarryPass(v: Fe) returns (t: Fe, ghost q: int)
    ensures t == Pass(v)
    ensures Value(t) == Value(v) - Lost(v) - q * P
    ensures t.t0 < 0x8_0000_0000_0000 + 19 * 0x2000
    ensures t.t1 < 0x8_0000_0000_0000 && t.t2 < 0x8_0000_0000_0000
    ensures t.t3 < 0x8_0000_0000_0000 && t.t4 < 0x8_0000_0000_0000
  {
    hide Low, High, Lost;
    var t0, t1, t2, t3, t4 := v.t0, v.t1, v.t2, v.t3, v.t4;
    Masked(t0);
    t1 := Add64(t1, High(t0));
    t0 := Low(t0);
    Masked(t1);
    t2 := Add64(t2, High(t1));
    t1 := Low(t1);
    Masked(t2);
    t3 := Add64(t3, High(t2));
    t2 := Low(t2);
    Masked(t3);
    t4 := Add64(t4, High(t3));
    t3 := Low(t3);
    Masked(t4);
    q := High(t4);
    assert t0 + q * 19 < 0x1_0000_0000_0000_0000;
    t0 := Add64(t0, High(t4) * 19);
    t4 := Low(t4);
    t := Fe(t0, t1, t2, t3, t4);
    PassSum(v, Low(v.t0), t1, t2, t3, t4, q);
  }

  lemma PassSum(v: Fe, t0: Word, t1: Word, t2: Word, t3: Word, t4: Word, q: Word)
    requires var (x1, x2, x3, x4) := Carried(v);
             t0 == Low(v.t0) && t1 == Low(x1) && t2 == Low(x2) && t3 == Low(x3) && t4 == Low(x4) && q == High(x4)
    ensures t0 + 19 * q + 0x8_0000_0000_0000 * (t1 + 0x8_0000_0000_0000 * (t2 + 0x8_0000_0000_0000
            * (t3 + 0x8_0000_0000_0000 * t4))) == Value(v) - Lost(v) - q * P
  {
    var (x1, x2, x3, x4) := Carried(v);
    var l1, l2, l3, l4 := Wraps(v.t1, High(v.t0)), Wraps(v.t2, High(x1)), Wraps(v.t3, High(x2)), Wraps(v.t4, High(x3));
    Masked(v.t0);
    Masked(x1);
    Masked(x2);
    Masked(x3);
    Masked(x4);
    hide Low, High, Wraps;
  }

  /** The carry out of the top limb if 19 were added: 1 if the number is at least p, else 0. */
  method TopCarry(t: Fe) returns (c: Word)
    requires t.t0 < 0x8_0000_0000_0000 + 19 * 0x2000
    requires t.t1 < 0x8_0000_0000_0000 && t.t2 < 0x8_0000_0000_0000
    requires t.t3 < 0x8_0000_0000_0000 && t.t4 < 0x8_0000_0000_0000
    ensures c == if Value(t) >= P then 1 else 0
  {
    hide High;
    c := High(t.t0 + 19);
    c := High(t.t1 + c);
    c := High(t.t2 + c);
    c := High(t.t3 + c);
    c := High(t.t4 + c);
  }

  /** The last carry chain; the top limb's carry is dropped. */
  method Drop(t: Fe) returns (r: Fe)
    requires t.t0 < 0x8_0000_0000_0000 + 19 * 0x2000 + 19
    requires t.t1 < 0x8_0000_0000_0000 && t.t2 < 0x8_0000_0000_0000
    requires t.t3 < 0x8_0000_0000_0000 && t.t4 < 0x8_0000_0000_0000
    ensures Short(r)
    ensures Value(r) == Value(t) || Value(r) == Value(t) - (P + 19)
  {
    hide Low, High, Value;
    var t0, t1, t2, t3, t4 := t.t0, t.t1, t.t2, t.t3, t.t4;
    t1 := t1 + High(t0);
    t0 := Low(t0);
    t2 := t2 + High(t1);
    t1 := Low(t1);
    t3 := t3 + High(t2);
    t2 := Low(t2);
    t4 := t4 + High(t3);
    t3 := Low(t3);
    ghost var top := High(t4);
    assert top <= 1;
    t4 := Low(t4);
    r := Fe(t0, t1, t2, t3, t4);
    DropSum(t, r, top);
  }

  lemma DropSum(t: Fe, r: Fe, top: Word)
    requires t.t1 < 0x8_0000_0000_0000 && t.t2 < 0x8_0000_0000_0000
    requires t.t3 < 0x8_0000_0000_0000 && t.t4 < 0x8_0000_0000_0000
    requires var x1: Word := t.t1 + High(t.t0);
             var x2: Word := t.t2 + High(x1);
             var x3: Word := t.t3 + High(x2);
             var x4: Word := t.t4 + High(x3);
             r == Fe(Low(t.t0), Low(x1), Low(x2), Low(x3), Low(x4)) && top == High(x4)
    ensures Value(r) == Value(t) - top * (P + 19)
  {
    var x1: Word := t.t1 + High(t.t0);
    var x2: Word := t.t2 + High(x1);
    var x3: Word := t.t3 + High(x2);
    var x4: Word := t.t4 + High(x3);
    Masked(t.t0);
    Masked(x1);
    Masked(x2);
    Masked(x3);
    Masked(x4);
    hide Low, High;
  }

  lemma ShortRange(f: Fe)
    requires Short(f)
    ensures 0 <= Value(f) < P + 19
  {
  }

  /** The one representative in [0, p) of what the words hold. */
  method FeReduce(v: Fe) returns (t: Fe)
    ensures Short(t) && 0 <= Value(t) < P
    ensures Value(t) == (Value(v) - Lost(v)) % P
    ensures Value(t) == Value(v) % P <==> ChainFits(v)
  {
    ghost var q;
    hide Value, Lost, ChainFits;
    t, q := CarryPass(v);
    var c := TopCarry(t);
    PassRange(t);
    ghost var u := Value(t);
    AddLow(t, 19 * c);
    t := t.(t0 := t.t0 + 19 * c);
    t := Drop(t);
    ShortRange(t);
    Representative(Value(v) - Lost(v), Value(t), q + c);
    LostIsSeen(v);
    ResidueShift(Value(v), Lost(v));
  }

  lemma PassRange(t: Fe)
    requires t.t0 < 0x8_0000_0000_0000 + 19 * 0x2000
    requires t.t1 < 0x8_0000_0000_0000 && t.t2 < 0x8_0000_0000_0000
    requires t.t3 < 0x8_0000_0000_0000 && t.t4 < 0x8_0000_0000_0000
    ensures 0 <= Value(t) < P + 19 + 19 * 0x2000
  {
  }

  lemma AddLow(t: Fe, d: int)
    requires 0 <= d && t.t0 + d < 0x1_0000_0000_0000_0000
    ensures Value(t.(t0 := t.t0 + d)) == Value(t) + d
  {
  }

  lemma Representative(x: int, r: int, q: int)
    requires 0 <= r < P && r == x - q * P
    ensures x % P == r
  {
    DivUnique(x, P, q, r);
  }

  /** An overflow is never invisible modulo p. */
  lemma LostIsSeen(v: Fe)
    ensures ChainFits(v) <==> Lost(v) == 0
    ensures Lost(v) % P == 0 ==> Lost(v) == 0
  {
    var (t1, t2, t3, _) := Carried(v);
    var l1, l2, l3, l4 := Wraps(v.t1, High(v.t0)), Wraps(v.t2, High(t1)), Wraps(v.t3, High(t2)), Wraps(v.t4, High(t3));
    hide High, Carried;
    LostResidue(l1, l2, l3, l4);
  }

  lemma LostResidue(l1: int, l2: int, l3: int, l4: int)
    requires 0 <= l1 <= 1 && 0 <= l2 <= 1 && 0 <= l3 <= 1 && 0 <= l4 <= 1
    ensures var lost := 0x8_0000_0000_0000_0000_0000_0000_0000 * (l1 + 0x8_0000_0000_0000
                        * (l2 + 0x8_0000_0000_0000 * (l3 + 0x8_0000_0000_0000 * l4)));
            lost % P == 0 ==> lost == 0
  {
    var r := 0x8_0000_0000_0000_0000_0000_0000_0000 * (l1 + 0x8_0000_0000_0000
             * (l2 + 0x8_0000_0000_0000 * l3)) + 19 * 0x2000 * l4;
    Representative(r + 0x2000 * l4 * P, r, 0x2000 * l4);
  }

  lemma ResidueShift(x: int, lost: int)
    requires lost % P == 0 ==> lost == 0
    ensures (x - lost) % P == x % P <==> lost == 0
  {
    if (x - lost) % P == x % P {
      var d := x / P - (x - lost) / P;
      assert lost == d * P;
      DivUnique(lost, P, d, 0);
    }
  }

  function Sub64(a: Word, b: Word): Word {
    (a - b) % 0x1_0000_0000_0000_0000
  }

  /** `(x + c) - t` on words. */
  function SubLimb(x: Word, c: Word, t: Word): (r: Word)
    ensures t <= c ==> r == x + c - t - 0x1_0000_0000_0000_0000 * Over(x, c, t)
  {
    Sub64(Add64(x, c), t)
  }

  /** 1 if `(x + c) - t` does not fit a word. */
  function Over(x: Word, c: Word, t: Word): (o: int)
    ensures 0 <= o <= 1
  {
    if x + c - t < 0x1_0000_0000_0000_0000 then 0 else 1
  }

  /** Every limb of `a` has room for a limb of 2p. */
  predicate HasRoom(a: Fe) {
    && a.t0 <= 0xFFEF_FFFF_FFFF_FFFF && a.t1 <= 0xFFEF_FFFF_FFFF_FFFF && a.t2 <= 0xFFEF_FFFF_FFFF_FFFF
    && a.t3 <= 0xFFEF_FFFF_FFFF_FFFF && a.t4 <= 0xFFEF_FFFF_FFFF_FFFF
  }

  /** Five digits in base 2^51, times 2^64. */
  function Row(d0: int, d1: int, d2: int, d3: int, d4: int): int {
    0x1_0000_0000_0000_0000 * (d0 + 0x8_0000_0000_0000 * (d1 + 0x8_0000_0000_0000
      * (d2 + 0x8_0000_0000_0000 * (d3 + 0x8_0000_0000_0000 * d4))))
  }

  /** What the limbs of `a` lose when 2p does not fit on top of them. */
  function Dropped(a: Fe, t: Fe): int {
    Row(Over(a.t0, 0xF_FFFF_FFFF_FFDA, t.t0), Over(a.t1, 0xF_FFFF_FFFF_FFFE, t.t1),
        Over(a.t2, 0xF_FFFF_FFFF_FFFE, t.t2), Over(a.t3, 0xF_FFFF_FFFF_FFFE, t.t3),
        Over(a.t4, 0xF_FFFF_FFFF_FFFE, t.t4))
  }

  /**
   The limbs of `a` overflow exactly where the carries of `b` do: what is lost on one side
   is lost on the other.
   */
  predicate SubExact(a: Fe, b: Fe) {
    var (x1, x2, x3, _) := Carried(b);
    var t := Pass(b);
    && Over(a.t0, 0xF_FFFF_FFFF_FFDA, t.t0) == 0
    && Over(a.t1, 0xF_FFFF_FFFF_FFFE, t.t1) == Wraps(b.t1, High(b.t0))
    && Over(a.t2, 0xF_FFFF_FFFF_FFFE, t.t2) == Wraps(b.t2, High(x1))
    && Over(a.t3, 0xF_FFFF_FFFF_FFFE, t.t3) == Wraps(b.t3, High(x2))
    && Over(a.t4, 0xF_FFFF_FFFF_FFFE, t.t4) == Wraps(b.t4, High(x3))
  }

  /** a - b: 2p is added first, so that no limb goes below zero. */
  method FeSub(a: Fe, b: Fe) returns (out: Fe)
    ensures Value(out) == Value(a) + 2 * P - Value(Pass(b)) - Dropped(a, Pass(b))
    ensures Value(out) % P == (Value(a) - Value(b)) % P <==> SubExact(a, b)
    ensures HasRoom(a) ==> (SubExact(a, b) <==> ChainFits(b))
  {
    var t: Fe;
    ghost var q;
    hide Value, Lost, ChainFits, Pass, SubExact;
    t, q := CarryPass(b);
    out := Fe(SubLimb(a.t0, 0xF_FFFF_FFFF_FFDA, t.t0),
              SubLimb(a.t1, 0xF_FFFF_FFFF_FFFE, t.t1),
              SubLimb(a.t2, 0xF_FFFF_FFFF_FFFE, t.t2),
              SubLimb(a.t3, 0xF_FFFF_FFFF_FFFE, t.t3),
              SubLimb(a.t4, 0xF_FFFF_FFFF_FFFE, t.t4));
    SubSum(a, t, out);
    hide Dropped, SubLimb;
    ModAdds(Value(a) - Value(b) + Lost(b) - Dropped(a, t), 2 + q, P);
    SubLost(a, b);
    ResidueShift(Value(a) - Value(b), Dropped(a, t) - Lost(b));
    if HasRoom(a) {
      SubWithRoom(a, b);
    }
  }

  /** What the two sides lose cancels modulo p only if it cancels limb by limb. */
  lemma SubLost(a: Fe, b: Fe)
    ensures var d := Dropped(a, Pass(b)) - Lost(b);
            (d == 0 <==> SubExact(a, b)) && (d % P == 0 ==> d == 0)
  {
    hide Lost, Over, Wraps, High, Carried, Pass, Row;
    var (x1, x2, x3, _) := Carried(b);
    var t := Pass(b);
    var o0, o1 := Over(a.t0, 0xF_FFFF_FFFF_FFDA, t.t0), Over(a.t1, 0xF_FFFF_FFFF_FFFE, t.t1);
    var o2, o3 := Over(a.t2, 0xF_FFFF_FFFF_FFFE, t.t2), Over(a.t3, 0xF_FFFF_FFFF_FFFE, t.t3);
    var o4 := Over(a.t4, 0xF_FFFF_FFFF_FFFE, t.t4);
    var w1, w2, w3, w4 := Wraps(b.t1, High(b.t0)), Wraps(b.t2, High(x1)), Wraps(b.t3, High(x2)), Wraps(b.t4, High(x3));
    LostIsRow(b);
    RowDifference(o0, o1, o2, o3, o4, w1, w2, w3, w4);
    RowZero(o0, o1 - w1, o2 - w2, o3 - w3, o4 - w4);
    RowResidue(o0, o1 - w1, o2 - w2, o3 - w3, o4 - w4);
  }

  lemma LostIsRow(b: Fe)
    ensures var (x1, x2, x3, _) := Carried(b);
            Lost(b) == Row(0, Wraps(b.t1, High(b.t0)), Wraps(b.t2, High(x1)), Wraps(b.t3, High(x2)), Wraps(b.t4, High(x3)))
  {
    hide Wraps, High, Carried;
  }

  lemma RowDifference(o0: int, o1: int, o2: int, o3: int, o4: int, w1: int, w2: int, w3: int, w4: int)
    ensures Row(o0, o1, o2, o3, o4) - Row(0, w1, w2, w3, w4) == Row(o0, o1 - w1, o2 - w2, o3 - w3, o4 - w4)
  {
  }

  lemma RowZero(d0: int, d1: int, d2: int, d3: int, d4: int)
    requires -1 <= d0 <= 1 && -1 <= d1 <= 1 && -1 <= d2 <= 1 && -1 <= d3 <= 1 && -1 <= d4 <= 1
    ensures Row(d0, d1, d2, d3, d4) == 0 <==> d0 == d1 == d2 == d3 == d4 == 0
  {
  }

  lemma RowResidue(d0: int, d1: int, d2: int, d3: int, d4: int)
    requires -1 <= d0 <= 1 && -1 <= d1 <= 1 && -1 <= d2 <= 1 && -1 <= d3 <= 1 && -1 <= d4 <= 1
    ensures Row(d0, d1, d2, d3, d4) % P == 0 ==> Row(d0, d1, d2, d3, d4) == 0
  {
    var r, k := Row(d0, d1, d2, d3, 0) + 19 * 0x2000 * d4, 0x2000 * d4;
    assert Row(d0, d1, d2, d3, d4) == r + k * P && -P < r < P;
    assert r == 0 ==> d4 == 0;
    hide Row;
    if r >= 0 {
      Representative(r + k * P, r, k);
    } else {
      Representative(r + k * P, r + P, k - 1);
    }
  }

  lemma SubWithRoom(a: Fe, b: Fe)
    requires HasRoom(a)
    ensures SubExact(a, b) <==> ChainFits(b)
  {
    hide High, Low;
  }

  /** The exact condition excludes something: a full word in `a` is not taken care of. */
  lemma SubNeedsRoom()
    ensures var a, b := Fe(0xFFFF_FFFF_FFFF_FFFF, 0, 0, 0, 0), Fe(0, 0, 0, 0, 0);
            !SubExact(a, b) && ChainFits(b)
  {
    assert Low(0) == 0 && High(0) == 0;
    hide High, Low;
  }

  lemma SubSum(a: Fe, t: Fe, out: Fe)
    requires t.t0 < 0x8_0000_0000_0000 + 19 * 0x2000
    requires t.t1 < 0x8_0000_0000_0000 && t.t2 < 0x8_0000_0000_0000
    requires t.t3 < 0x8_0000_0000_0000 && t.t4 < 0x8_0000_0000_0000
    requires out == Fe(SubLimb(a.t0, 0xF_FFFF_FFFF_FFDA, t.t0),
                       SubLimb(a.t1, 0xF_FFFF_FFFF_FFFE, t.t1),
                       SubLimb(a.t2, 0xF_FFFF_FFFF_FFFE, t.t2),
                       SubLimb(a.t3, 0xF_FFFF_FFFF_FFFE, t.t3),
                       SubLimb(a.t4, 0xF_FFFF_FFFF_FFFE, t.t4))
    ensures Value(out) == Value(a) + 2 * P - Value(t) - Dropped(a, t)
    ensures HasRoom(a) ==> Dropped(a, t) == 0
  {
    hide SubLimb;
  }

  // ----- Conditional move -----

  /** `(1<<64 - 1) * b` on words. */
  function Negate(b: nat): nat {
    0xFFFF_FFFF_FFFF_FFFF * b % 0x1_0000_0000_0000_0000
  }

  /** `f ^ (negate & (f ^ g))`. */
  function MoveWord(f: Word, g: Word, negate: nat): nat {
    Xor(f, And(negate, Xor(f, g)))
  }

  lemma MoveWordIs(f: Word, g: Word, b: nat)
    requires b <= 1
    ensures MoveWord(f, g, Negate(b)) == if b == 1 then g else f
  {
    hide And, Xor, Pow2, Negate;
    Pow64();
    XorRange(f, g, 64);
    XorCancels(f, g);
    if b == 1 {
      AllOnes();
      MaskIsRemainder(Xor(f, g), 64);
    } else {
      NoOnes(Xor(f, g));
    }
  }

  lemma AllOnes()
    ensures Negate(1) == 0x1_0000_0000_0000_0000 - 1
  {
  }

  lemma NoOnes(x: nat)
    ensures Negate(0) == 0 && And(0, x) == 0
  {
  }

  lemma Pow64()
    ensures Pow2(64) == 0x1_0000_0000_0000_0000
  {
    hide Pow2;
    SmallPowers();
    Pow2Adds(8, 8);
    Pow2Adds(16, 16);
    Pow2Adds(32, 32);
  }

  /** Replaces `f` by `g` if b is 1, without branching. */
  method FeCMove(f: Fe, g: Fe, b: nat) returns (r: Fe)
    requires b <= 1
    ensures r == if b == 1 then g else f
  {
    hide MoveWord, Negate;
    MoveWordIs(f.t0, g.t0, b);
    MoveWordIs(f.t1, g.t1, b);
    MoveWordIs(f.t2, g.t2, b);
    MoveWordIs(f.t3, g.t3, b);
    MoveWordIs(f.t4, g.t4, b);
    var negate := Negate(b);
    r := Fe(MoveWord(f.t0, g.t0, negate), MoveWord(f.t1, g.t1, negate), MoveWord(f.t2, g.t2, negate),
            MoveWord(f.t3, g.t3, negate), MoveWord(f.t4, g.t4, negate));
  }

  // ----- Bytes -----

  /** `acc | b[0] << shift | b[1] << (shift+8) | ...`. */
  function Gather(acc: nat, shift: nat, b: seq<Byte>): nat
    decreases |b|
  {
    if b == [] then acc else Gather(Or(acc, Shl(b[0], shift)), shift + 8, b[1..])
  }

  lemma {:induction false} GatherIsSum(acc: nat, shift: nat, b: seq<Byte>)
    requires acc < Pow2(shift)
    ensures Gather(acc, shift, b) == acc + Pow2(shift) * Val(256, b)
    decreases |b|
  {
    if b == [] {
      assert Pow2(shift) * Val(256, b) == 0;
    } else {
      var p := Pow2(shift);
      assert Pow2(8) == 256;
      Pow2Adds(8, shift);
      JoinIsSum(acc, b[0], shift);
      hide Or, Pow2;
      GatherRoom(acc, b[0], p);
      GatherIsSum(acc + b[0] * p, shift + 8, b[1..]);
      Distribute(p, b[0], 256, Val(256, b[1..]));
    }
  }

  lemma GatherRoom(acc: int, x: Byte, p: int)
    requires 0 <= acc < p
    ensures 0 <= acc + x * p < 256 * p
  {
    MulMonotone(p, 0, x);
    MulMonotone(p, x, 255);
  }

  /** One byte in the middle: what is below it, itself, and what is above. */
  lemma SplitAt(b: seq<Byte>, n: nat)
    requires n < |b|
    ensures Val(256, b) == Val(256, b[..n]) + Weight(256, n) * (b[n] + 256 * Val(256, b[n + 1..]))
  {
    hide *;
    ValHead(b, n);
    ValSplits(256, b, n);
  }

  lemma ValHead(b: seq<Byte>, n: nat)
    requires n < |b|
    ensures Val(256, b[n..]) == b[n] + 256 * Val(256, b[n + 1..])
  {
    assert b[n..][1..] == b[n + 1..];
  }

  lemma ByteWeights()
    ensures Weight(256, 5) == 0x100_0000_0000 && Weight(256, 6) == 0x1_0000_0000_0000
  {
  }

  /** The 32 bytes cut where a limb ends inside a byte. */
  lemma Pieces(x: seq<Byte>)
    requires |x| == 32
    ensures Val(256, x) == Val(256, x[..6]) + 0x1_0000_0000_0000 * (x[6] + 256 * (
              Val(256, x[7..12]) + 0x100_0000_0000 * (x[12] + 256 * (
              Val(256, x[13..19]) + 0x1_0000_0000_0000 * (x[19] + 256 * (
              Val(256, x[20..25]) + 0x100_0000_0000 * (x[25] + 256 * (
              Val(256, x[26..31]) + 0x100_0000_0000 * (x[31] as int)))))))))
  {
    hide *;
    ByteWeights();
    NextPiece(x, 0, 6);
    NextPiece(x, 7, 5);
    NextPiece(x, 13, 6);
    NextPiece(x, 20, 5);
    NextPiece(x, 26, 5);
    assert x[0..] == x && x[0..6] == x[..6] && x[32..] == [];
    NoBytes();
  }

  lemma NextPiece(x: seq<Byte>, from: nat, n: nat)
    requires from + n < |x|
    ensures Val(256, x[from..]) == Val(256, x[from..from + n]) + Weight(256, n) * (x[from + n] + 256 * Val(256, x[from + n + 1..]))
  {
    hide *;
    SplitAt(x[from..], n);
    assert x[from..][..n] == x[from..from + n] && x[from..][n + 1..] == x[from + n + 1..];
  }

  lemma NoBytes()
    ensures Val(256, []) == 0
  {
  }

  /** A limb that starts inside one byte and ends inside another. */
  function Limb(first: nat, shift: nat, middle: seq<Byte>, last: Byte): nat {
    Gather(first, shift, middle + [last])
  }

  lemma LimbIsSum(first: nat, shift: nat, middle: seq<Byte>, last: Byte)
    requires first < Pow2(shift)
    ensures Limb(first, shift, middle, last)
         == first + Pow2(shift) * (Val(256, middle) + Weight(256, |middle|) * last)
  {
    var b := middle + [last];
    assert b[..|middle|] == middle;
    assert b[|middle| + 1..] == [];
    assert Val(256, []) == 0;
    hide Val, Weight, Pow2, Gather;
    GatherIsSum(first, shift, b);
    SplitAt(b, |middle|);
  }

  lemma SmallPowers()
    ensures Pow2(1) == 2 && Pow2(2) == 4 && Pow2(3) == 8 && Pow2(4) == 16 && Pow2(5) == 32
    ensures Pow2(6) == 64 && Pow2(7) == 128 && Pow2(8) == 256
  {
  }

  /** `x & (2^k - 1)` on a byte. */
  function LowBits(x: Byte, k: nat): (r: Byte)
    ensures r == x % Pow2(k)
  {
    MaskIsRemainder(x, k);
    LowBitsSmall(x, Pow2(k));
    And(x, Pow2(k) - 1)
  }

  lemma LowBitsSmall(x: int, p: int)
    requires x >= 0 && p > 0
    ensures 0 <= x % p <= x
  {
    DivNonNegative(x, p);
    MulMonotone(p, 0, x / p);
    assert x == p * (x / p) + x % p;
  }

  function LimbsFromBytes(x: seq<Byte>): (nat, nat, nat, nat, nat)
    requires |x| == 32
  {
    (Limb(x[0], 8, x[1..6], LowBits(x[6], 3)),
     Limb(Shr(x[6], 3), 5, x[7..12], LowBits(x[12], 6)),
     Limb(Shr(x[12], 6), 2, x[13..19], LowBits(x[19], 1)),
     Limb(Shr(x[19], 1), 7, x[20..25], LowBits(x[25], 4)),
     Limb(Shr(x[25], 4), 4, x[26..31], LowBits(x[31], 7)))
  }

  lemma MiddleRange(m: seq<Byte>)
    ensures 0 <= Val(256, m) < Weight(256, |m|)
  {
    DigitsRange(256, m);
  }

  lemma LimbSums(x: seq<Byte>)
    requires |x| == 32
    ensures var (v0, v1, v2, v3, v4) := LimbsFromBytes(x);
            && v0 == Val(256, x[..6]) + 0x1_0000_0000_0000 * (x[6] as int % 8)
            && v1 == x[6] as int / 8 + 32 * (Val(256, x[7..12]) + 0x100_0000_0000 * (x[12] as int % 64))
            && v2 == x[12] as int / 64 + 4 * (Val(256, x[13..19]) + 0x1_0000_0000_0000 * (x[19] as int % 2))
            && v3 == x[19] as int / 2 + 128 * (Val(256, x[20..25]) + 0x100_0000_0000 * (x[25] as int % 16))
            && v4 == x[25] as int / 16 + 16 * (Val(256, x[26..31]) + 0x100_0000_0000 * (x[31] as int % 128))
  {
    hide Val, Weight, Pow2, Limb, LowBits, Shr;
    FirstLimb(x);
    SecondLimb(x[6], x[7..12], x[12]);
    ThirdLimb(x[12], x[13..19], x[19]);
    FourthLimb(x[19], x[20..25], x[25]);
    FifthLimb(x[25], x[26..31], x[31]);
  }

  lemma FirstLimb(x: seq<Byte>)
    requires |x| == 32
    ensures Limb(x[0], 8, x[1..6], LowBits(x[6], 3)) == Val(256, x[..6]) + 0x1_0000_0000_0000 * (x[6] as int % 8)
  {
    hide *;
    SmallPowers();
    ByteWeights();
    ValHead(x[..6], 0);
    assert x[..6][0..] == x[..6] && x[..6][1..] == x[1..6];
    var low := LowBits(x[6], 3);
    LimbIsSum(x[0], 8, x[1..6], low);
    var rest: int := low;
    assert rest == x[6] as int % 8;
  }

  lemma SecondLimb(a: Byte, middle: seq<Byte>, b: Byte)
    requires |middle| == 5
    ensures Limb(Shr(a, 3), 5, middle, LowBits(b, 6)) == a / 8 + 32 * (Val(256, middle) + 0x100_0000_0000 * (b as int % 64))
  {
    SmallPowers();
    ByteWeights();
    hide Val, Weight, Pow2, Limb, LowBits, Shr;
    LimbBetween(a, 3, 5, middle, b, 6);
  }

  lemma ThirdLimb(a: Byte, middle: seq<Byte>, b: Byte)
    requires |middle| == 6
    ensures Limb(Shr(a, 6), 2, middle, LowBits(b, 1)) == a / 64 + 4 * (Val(256, middle) + 0x1_0000_0000_0000 * (b as int % 2))
  {
    SmallPowers();
    ByteWeights();
    hide Val, Weight, Pow2, Limb, LowBits, Shr;
    LimbBetween(a, 6, 2, middle, b, 1);
  }

  lemma FourthLimb(a: Byte, middle: seq<Byte>, b: Byte)
    requires |middle| == 5
    ensures Limb(Shr(a, 1), 7, middle, LowBits(b, 4)) == a / 2 + 128 * (Val(256, middle) + 0x100_0000_0000 * (b as int % 16))
  {
    SmallPowers();
    ByteWeights();
    hide Val, Weight, Pow2, Limb, LowBits, Shr;
    LimbBetween(a, 1, 7, middle, b, 4);
  }

  lemma FifthLimb(a: Byte, middle: seq<Byte>, b: Byte)
    requires |middle| == 5
    ensures Limb(Shr(a, 4), 4, middle, LowBits(b, 7)) == a / 16 + 16 * (Val(256, middle) + 0x100_0000_0000 * (b as int % 128))
  {
    SmallPowers();
    ByteWeights();
    hide Val, Weight, Pow2, Limb, LowBits, Shr;
    LimbBetween(a, 4, 4, middle, b, 7);
  }

  /** A limb that begins with the high bits of one byte and ends with the low bits of another. */
  lemma LimbBetween(a: Byte, k: nat, shift: nat, middle: seq<Byte>, b: Byte, j: nat)
    requires k + shift == 8
    ensures Limb(Shr(a, k), shift, middle, LowBits(b, j))
         == Shr(a, k) + Pow2(shift) * (Val(256, middle) + Weight(256, |middle|) * LowBits(b, j))
  {
    HighBits(a, k, shift);
    hide *;
    LimbIsSum(Shr(a, k), shift, middle, LowBits(b, j));
  }

  lemma HighBits(a: Byte, k: nat, shift: nat)
    requires k + shift == 8
    ensures Shr(a, k) < Pow2(shift)
  {
    SmallPowers();
    hide Pow2, Shr;
    Pow2Adds(k, shift);
    DivLess(a, Pow2(k), Pow2(shift));
  }

  lemma LimbsShort(x: seq<Byte>)
    requires |x| == 32
    ensures var (v0, v1, v2, v3, v4) := LimbsFromBytes(x);
            && v0 < 0x8_0000_0000_0000 && v1 < 0x8_0000_0000_0000 && v2 < 0x8_0000_0000_0000
            && v3 < 0x8_0000_0000_0000 && v4 < 0x8_0000_0000_0000
  {
    ByteWeights();
    hide Val, Weight, LimbsFromBytes;
    LimbSums(x);
    MiddleRange(x[..6]);
    MiddleRange(x[7..12]);
    MiddleRange(x[13..19]);
    MiddleRange(x[20..25]);
    MiddleRange(x[26..31]);
  }

  /** Reads 255 bits; the top bit of the last byte is ignored. */
  function FeFromBytes(x: seq<Byte>): (v: Fe)
    requires |x| == 32
    ensures Short(v)
  {
    LimbsShort(x);
    var (v0, v1, v2, v3, v4) := LimbsFromBytes(x);
    Fe(v0, v1, v2, v3, v4)
  }

  lemma FromBytesValue(x: seq<Byte>)
    requires |x| == 32
    ensures Value(FeFromBytes(x)) == Val(256, x) - (P + 19) * (x[31] / 128)
    ensures Value(FeFromBytes(x)) == Val(256, x) % (P + 19)
  {
    LimbSums(x);
    Pieces(x);
    hide Val, LimbsFromBytes;
    ShortRange(FeFromBytes(x));
    DivUnique(Val(256, x), P + 19, x[31] / 128, Value(FeFromBytes(x)));
  }

  /** `byte(lo) ^ byte((x << k) & (256 - 2^k))`: the top bits of a byte come from the next limb. */
  function JoinByte(lo: nat, x: nat, k: nat): nat
    requires k <= 8
  {
    Pow2Monotone(k, 8);
    Xor(lo, And(Shl(x, k), Pow2(8) - Pow2(k)))
  }

  lemma ByteMask(k: nat)
    requires k <= 8
    ensures Shl(Pow2(8 - k) - 1, k) == Pow2(8) - Pow2(k)
  {
    hide Pow2;
    Pow2Adds(8 - k, k);
  }

  lemma JoinByteIsSum(lo: nat, x: nat, k: nat)
    requires k <= 8 && lo < Pow2(k)
    ensures JoinByte(lo, x, k) == lo + (x % Pow2(8 - k)) * Pow2(k)
  {
    hide *;
    JoinMasked(lo, x, k);
    MaskIsRemainder(x, 8 - k);
  }

  lemma JoinMasked(lo: nat, x: nat, k: nat)
    requires k <= 8 && lo < Pow2(k)
    ensures JoinByte(lo, x, k) == lo + And(x, Pow2(8 - k) - 1) * Pow2(k)
  {
    hide And, Xor, Shl, Pow2;
    ByteMask(k);
    AndShifts(x, Pow2(8 - k) - 1, k);
    JoinIsSum(lo, And(x, Pow2(8 - k) - 1), k);
  }

  /** `n` bytes of x, starting at bit `shift`. */
  function ByteRun(x: nat, shift: nat, n: nat): (b: seq<Byte>)
    ensures |b| == n
    ensures forall j | 0 <= j < n :: b[j] == Shr(x, shift + 8 * j) % 256
  {
    seq(n, j requires 0 <= j < n => Shr(x, shift + 8 * j) % 256)
  }

  lemma ByteRunValue(x: nat, shift: nat, n: nat)
    ensures Val(256, ByteRun(x, shift, n)) == x / Pow2(shift) % Weight(256, n)
  {
    var b := ByteRun(x, shift, n);
    var y := x / Pow2(shift);
    assert Pow2(8) == 256;
    hide Val, Weight, Pow2, Shr;
    forall j | 0 <= j < n
      ensures b[j] == y / Weight(256, j) % 256
    {
      WeightIsPow2(256, 8, j);
      Pow2Adds(shift, 8 * j);
      DivDiv(x, Pow2(shift), Pow2(8 * j));
    }
    ReadOff(256, b, y);
    DigitsRange(256, b);
    DivUnique(y, Weight(256, n), y / Weight(256, n), Val(256, b));
  }

  function BytesOfLimbs(t: Fe): (r: seq<int>)
    ensures |r| == 32
  {
    ByteRun(t.t0, 0, 6) + [JoinByte(Shr(t.t0, 48), t.t1, 3)]
    + ByteRun(t.t1, 5, 5) + [JoinByte(Shr(t.t1, 45), t.t2, 6)]
    + ByteRun(t.t2, 2, 6) + [JoinByte(Shr(t.t2, 50), t.t3, 1)]
    + ByteRun(t.t3, 7, 5) + [JoinByte(Shr(t.t3, 47), t.t4, 4)]
    + ByteRun(t.t4, 4, 5) + [Shr(t.t4, 44)]
  }

  lemma BigPowers()
    ensures Pow2(44) == 0x1000_0000_0000 && Pow2(45) == 0x2000_0000_0000 && Pow2(47) == 0x8000_0000_0000
    ensures Pow2(48) == 0x1_0000_0000_0000 && Pow2(50) == 0x4_0000_0000_0000 && Pow2(0) == 1
  {
    Pow51();
    assert Pow2(51) == 2 * Pow2(50) && Pow2(50) == 4 * Pow2(48) && Pow2(48) == 2 * Pow2(47);
    assert Pow2(47) == 4 * Pow2(45) && Pow2(45) == 2 * Pow2(44);
  }

  /** The five bytes that two limbs share. */
  lemma SharedBytes(t: Fe)
    requires Short(t)
    ensures var r := BytesOfLimbs(t);
            && r[6] == t.t0 / 0x1_0000_0000_0000 + 8 * (t.t1 % 32)
            && r[12] == t.t1 / 0x2000_0000_0000 + 64 * (t.t2 % 4)
            && r[19] == t.t2 / 0x4_0000_0000_0000 + 2 * (t.t3 % 128)
            && r[25] == t.t3 / 0x8000_0000_0000 + 16 * (t.t4 % 16)
            && r[31] == t.t4 / 0x1000_0000_0000
  {
    SmallPowers();
    BigPowers();
    hide Pow2, JoinByte, Shr, ByteRun;
    JoinByteIsSum(Shr(t.t0, 48), t.t1, 3);
    JoinByteIsSum(Shr(t.t1, 45), t.t2, 6);
    JoinByteIsSum(Shr(t.t2, 50), t.t3, 1);
    JoinByteIsSum(Shr(t.t3, 47), t.t4, 4);
  }

  lemma RunBytes(t: Fe)
    ensures var r := BytesOfLimbs(t);
            && r[..6] == ByteRun(t.t0, 0, 6) && r[7..12] == ByteRun(t.t1, 5, 5)
            && r[13..19] == ByteRun(t.t2, 2, 6) && r[20..25] == ByteRun(t.t3, 7, 5)
            && r[26..31] == ByteRun(t.t4, 4, 5)
  {
    hide JoinByte, ByteRun, Shr;
  }

  lemma RunValues(t: Fe)
    ensures var r := BytesOfLimbs(t);
            && Val(256, r[..6]) == t.t0 % 0x1_0000_0000_0000
            && Val(256, r[7..12]) == t.t1 / 32 % 0x100_0000_0000
            && Val(256, r[13..19]) == t.t2 / 4 % 0x1_0000_0000_0000
            && Val(256, r[20..25]) == t.t3 / 128 % 0x100_0000_0000
            && Val(256, r[26..31]) == t.t4 / 16 % 0x100_0000_0000
  {
    SmallPowers();
    ByteWeights();
    assert Pow2(0) == 1;
    hide Val, Weight, Pow2, ByteRun, BytesOfLimbs;
    RunBytes(t);
    ByteRunValue(t.t0, 0, 6);
    ByteRunValue(t.t1, 5, 5);
    ByteRunValue(t.t2, 2, 6);
    ByteRunValue(t.t3, 7, 5);
    ByteRunValue(t.t4, 4, 5);
  }

  lemma AreBytes(t: Fe)
    requires Short(t)
    ensures forall j | 0 <= j < 32 :: 0 <= BytesOfLimbs(t)[j] < 256
  {
    SharedBytes(t);
    hide JoinByte;
  }

  /** 32 little-endian bytes of a reduced element. */
  function ToBytes(t: Fe): (r: seq<Byte>)
    requires Short(t)
    ensures |r| == 32
  {
    AreBytes(t);
    BytesOfLimbs(t)
  }

  lemma ToBytesValue(t: Fe)
    requires Short(t)
    ensures Val(256, ToBytes(t)) == Value(t)
  {
    SharedBytes(t);
    RunValues(t);
    var r := ToBytes(t);
    Pieces(r);
    hide Val, BytesOfLimbs;
    ThreeParts(t.t1, 32, 0x100_0000_0000);
    ThreeParts(t.t2, 4, 0x1_0000_0000_0000);
    ThreeParts(t.t3, 128, 0x100_0000_0000);
    ThreeParts(t.t4, 16, 0x100_0000_0000);
    BytesSum(t, r[6], r[12], r[19], r[25], r[31]);
  }

  lemma ThreeParts(x: int, p: int, q: int)
    requires p > 0 && q > 0
    ensures p * q > 0 && x == x % p + p * (x / p % q) + (p * q) * (x / (p * q))
  {
    DivDiv(x, p, q);
    var y := x / p;
    Distribute(p, y % q, q, y / q);
  }

  lemma BytesSum(t: Fe, r6: int, r12: int, r19: int, r25: int, r31: int)
    requires r6 == t.t0 / 0x1_0000_0000_0000 + 8 * (t.t1 % 32)
    requires r12 == t.t1 / 0x2000_0000_0000 + 64 * (t.t2 % 4)
    requires r19 == t.t2 / 0x4_0000_0000_0000 + 2 * (t.t3 % 128)
    requires r25 == t.t3 / 0x8000_0000_0000 + 16 * (t.t4 % 16)
    requires r31 == t.t4 / 0x1000_0000_0000
    requires t.t1 == t.t1 % 32 + 32 * (t.t1 / 32 % 0x100_0000_0000) + 0x2000_0000_0000 * (t.t1 / 0x2000_0000_0000)
    requires t.t2 == t.t2 % 4 + 4 * (t.t2 / 4 % 0x1_0000_0000_0000) + 0x4_0000_0000_0000 * (t.t2 / 0x4_0000_0000_0000)
    requires t.t3 == t.t3 % 128 + 128 * (t.t3 / 128 % 0x100_0000_0000) + 0x8000_0000_0000 * (t.t3 / 0x8000_0000_0000)
    requires t.t4 == t.t4 % 16 + 16 * (t.t4 / 16 % 0x100_0000_0000) + 0x1000_0000_0000 * (t.t4 / 0x1000_0000_0000)
    ensures Value(t) == t.t0 % 0x1_0000_0000_0000 + 0x1_0000_0000_0000 * (r6 + 256 * (
              t.t1 / 32 % 0x100_0000_0000 + 0x100_0000_0000 * (r12 + 256 * (
              t.t2 / 4 % 0x1_0000_0000_0000 + 0x1_0000_0000_0000 * (r19 + 256 * (
              t.t3 / 128 % 0x100_0000_0000 + 0x100_0000_0000 * (r25 + 256 * (
              t.t4 / 16 % 0x100_0000_0000 + 0x100_0000_0000 * r31))))))))
  {
  }

  lemma ShortUnique(f: Fe, g: Fe)
    requires Short(f) && Short(g) && Value(f) == Value(g)
    ensures f == g
  {
    var k := 0x8_0000_0000_0000;
    Peel(f.t0, g.t0, f.t1 + k * (f.t2 + k * (f.t3 + k * f.t4)), g.t1 + k * (g.t2 + k * (g.t3 + k * g.t4)));
    Peel(f.t1, g.t1, f.t2 + k * (f.t3 + k * f.t4), g.t2 + k * (g.t3 + k * g.t4));
    Peel(f.t2, g.t2, f.t3 + k * f.t4, g.t3 + k * g.t4);
    Peel(f.t3, g.t3, f.t4, g.t4);
  }

  lemma Peel(x: int, y: int, a: int, b: int)
    requires 0 <= x < 0x8_0000_0000_0000 && 0 <= y < 0x8_0000_0000_0000
    requires x + 0x8_0000_0000_0000 * a == y + 0x8_0000_0000_0000 * b
    ensures x == y && a == b
  {
  }

  /** Reading what was written gives back the very limbs. */
  lemma BytesRoundTrip(t: Fe)
    requires Short(t)
    ensures FeFromBytes(ToBytes(t)) == t
  {
    hide Value, FeFromBytes;
    ToBytesValue(t);
    FromBytesValue(ToBytes(t));
    ShortRange(t);
    DivUnique(Value(t), P + 19, 0, Value(t));
    ShortUnique(FeFromBytes(ToBytes(t)), t);
  }

  /**
   The bytes are the canonical little-endian form of the element, and reading them
   back gives an element congruent to it.
   */
  method FeToBytes(v: Fe) returns (r: seq<Byte>)
    ensures |r| == 32 && Val(256, r) == (Value(v) - Lost(v)) % P
    ensures Val(256, r) == Value(v) % P <==> ChainFits(v)
    ensures Value(FeFromBytes(r)) == Val(256, r)
  {
    hide Value, Lost, ChainFits, FeFromBytes;
    var t := FeReduce(v);
    ToBytesValue(t);
    BytesRoundTrip(t);
    r := ToBytes(t);
  }
}
