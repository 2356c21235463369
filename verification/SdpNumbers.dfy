/**
 Numbers, times and intervals as SDP fields write them (protocols/sdp/fields.go) and as
 the decoder reads them back (protocols/sdp/decoder.go).
 */
module SdpNumbers {

  import opened Radix

  datatype Result<T> = Ok(value: T) | Err | Panic

  // ----- Integers -----

  predicate Int64(n: int) {
    -0x8000_0000_0000_0000 <= n < 0x8000_0000_0000_0000
  }

  function Digit(d: nat): char
    requires d < 10
  {
    ('0' as int + d) as char
  }

  predicate IsDigit(c: char) {
    '0' <= c <= '9'
  }

  /** The decimal form of n. */
  function Decimal(n: nat): (s: string)
    ensures |s| > 0 && forall i | 0 <= i < |s| :: IsDigit(s[i])
  {
    if n < 10 then [Digit(n)] else Decimal(n / 10) + [Digit(n % 10)]
  }

  function Int(n: int): (s: string)
    ensures |s| > 0 && forall i | 0 <= i < |s| :: IsDigit(s[i]) || s[i] == '-'
  {
    if n >= 0 then Decimal(n) else "-" + Decimal(-n)
  }

  /** `appendUint`: digits are put into a buffer of 20 bytes from its end. */
  method AppendUint(dst: string, n: int) returns (r: string)
    requires 0 <= n && Int64(n)
    ensures r == dst + Decimal(n)
  {
    var buf := new char[20];
    var i, m := 20, n;
    DecimalFits(n);
    while m >= 10
      invariant 0 <= m && 0 <= i <= 20 && |Decimal(m)| <= i
      invariant Decimal(n) == Decimal(m) + buf[i..]
    {
      i := i - 1;
      var q := m / 10;
      buf[i] := ('0' as int + (m - q * 10)) as char;
      assert buf[i..] == [Digit(m % 10)] + buf[i + 1..];
      m := q;
    }
    i := i - 1;
    buf[i] := ('0' as int + m) as char;
    assert buf[i..] == [Digit(m)] + buf[i + 1..];
    r := dst + buf[i..];
  }

  lemma DecimalFits(n: nat)
    requires Int64(n)
    ensures |Decimal(n)| <= 19
  {
    DecimalLength(n, 19);
    assert Weight(10, 19) == 10_000_000_000_000_000_000 by {
      assert Weight(10, 6) == 1_000_000;
      assert Weight(10, 12) == 1_000_000_000_000;
      assert Weight(10, 18) == 1_000_000_000_000_000_000;
    }
  }

  lemma {:induction false} DecimalLength(n: nat, k: nat)
    requires k > 0
    ensures n < Weight(10, k) ==> |Decimal(n)| <= k
    decreases k
  {
    assert Weight(10, 1) == 10;
    if k > 1 && n >= 10 {
      DecimalLength(n / 10, k - 1);
    }
  }

  predicate AllDigits(s: string) {
    forall i | 0 <= i < |s| :: IsDigit(s[i])
  }

  function Number(s: string): (n: nat)
    requires AllDigits(s)
  {
    if s == [] then 0 else 10 * Number(s[..|s| - 1]) + (s[|s| - 1] as int - '0' as int)
  }

  lemma {:induction false} NumberOfDecimal(n: nat)
    ensures Number(Decimal(n)) == n
  {
    if n >= 10 {
      NumberOfDecimal(n / 10);
      assert Decimal(n)[..|Decimal(n)| - 1] == Decimal(n / 10);
    }
  }

  /** `strconv.ParseUint(s, 10, bits)`, for numbers below `limit`, which is 2^bits. */
  function ParseUint(s: string, limit: nat): Result<nat> {
    if s == [] || !AllDigits(s) || Number(s) >= limit then Err else Ok(Number(s))
  }

  /** `strconv.ParseInt(s, 10, bits)`, for numbers in [-half, half), where half is 2^(bits-1). */
  function ParseInt(s: string, half: nat): Result<int> {
    if s == [] then Err
    else
      var negative, rest := s[0] == '-', if s[0] == '-' || s[0] == '+' then s[1..] else s;
      match ParseUint(rest, 2 * half)
      case Ok(n) => if negative && n <= half then Ok(0 - n) else if !negative && n < half then Ok(n) else Err
      case _ => Err
  }

  /** `strconv.Atoi`. */
  function Atoi(s: string): Result<int> {
    ParseInt(s, 0x8000_0000_0000_0000)
  }

  lemma IntRoundTrip(n: int, half: nat)
    requires 0 - half <= n < half
    ensures ParseInt(Int(n), half) == Ok(n)
  {
    NumberOfDecimal(if n >= 0 then n else -n);
    assert n >= 0 || Int(n)[1..] == Decimal(-n);
  }

  lemma UintRoundTrip(n: nat, limit: nat)
    requires n < limit
    ensures ParseUint(Decimal(n), limit) == Ok(n)
  {
    NumberOfDecimal(n);
  }

  /** A sign may be written out, and numbers beyond the width are refused. */
  lemma IntLimits(n: int, half: nat)
    ensures 0 <= n < half ==> ParseInt("+" + Decimal(n), half) == Ok(n)
    ensures !(0 - half <= n < half) ==> ParseInt(Int(n), half) == Err
  {
    NumberOfDecimal(if n >= 0 then n else -n);
    if n >= 0 {
      assert ("+" + Decimal(n))[1..] == Decimal(n);
    } else {
      assert Int(n)[1..] == Decimal(-n);
    }
  }

  /** `decodeByte`: a 16-bit number, of which the low eight bits are kept. */
  function DecodeByte(s: string): Result<nat> {
    match ParseInt(s, 0x8000)
    case Ok(n) => Ok(n % 256)
    case _ => Err
  }

  lemma ByteRoundTrip(n: nat)
    requires n < 256
    ensures DecodeByte(Decimal(n)) == Ok(n)
  {
    hide ParseInt, Decimal;
    IntRoundTrip(n, 0x8000);
  }

  /** Of a 16-bit number of either sign the low eight bits are kept; larger numbers are refused. */
  lemma ByteRead(n: int)
    ensures DecodeByte(Int(n)) == if -32768 <= n <= 32767 then Ok(n % 256) else Err
  {
    hide ParseInt, Int;
    if -32768 <= n <= 32767 {
      IntRoundTrip(n, 0x8000);
    } else {
      IntLimits(n, 0x8000);
    }
  }

  // ----- Times -----

  /** A point in time, in seconds since 1970; `ZERO` is the zero value of time.Time. */
  type Time = int

  const ZERO: Time := -62135596800
  const NTP_DELTA := 2208988800

  /** `TimeToNTP`, in 64-bit arithmetic. */
  function TimeToNTP(t: Time): (v: nat)
    ensures v < 0x1_0000_0000_0000_0000
  {
    if t == ZERO then 0 else (t + NTP_DELTA) % 0x1_0000_0000_0000_0000
  }

  function Signed(v: int): int {
    var w := v % 0x1_0000_0000_0000_0000;
    if w < 0x8000_0000_0000_0000 then w else w - 0x1_0000_0000_0000_0000
  }

  function NTPToTime(v: nat): Time {
    if v == 0 then ZERO else Signed(v - NTP_DELTA)
  }

  /** Only the start of the NTP era cannot be told from the zero time. */
  lemma TimeRoundTrip(t: Time)
    requires Int64(t)
    ensures NTPToTime(TimeToNTP(t)) == t <==> t != -NTP_DELTA
  {
  }

  /** NTP counts seconds from 1900: 70 years, of which 17 have a leap day; 719162 days are from year 1 to 1970. */
  lemma NTPCounts(t: Time)
    ensures t != -719162 * 86400 && 0 <= t + (70 * 365 + 17) * 86400 < 0x1_0000_0000_0000_0000 ==>
              TimeToNTP(t) == t + (70 * 365 + 17) * 86400
    ensures TimeToNTP(-719162 * 86400) == 0 && NTPToTime(0) == -719162 * 86400
    ensures 0 < t < 0x8000_0000_0000_0000 ==> NTPToTime(t) == t - (70 * 365 + 17) * 86400
  {
  }

  // ----- Intervals -----

  /** A duration in nanoseconds. */
  const SECOND := 1_000_000_000
  const MINUTE := 60 * SECOND
  const HOUR := 60 * MINUTE
  const DAY := 24 * HOUR

  /** `d / unit` for a unit that need not divide d, rounded towards zero. */
  function Quotient(d: int, unit: nat): int
    requires unit > 0
  {
    if d >= 0 then d / unit else -(-d / unit)
  }

  /** `appendIntervalCompact`. */
  function Interval(d: int): (s: string)
    ensures |s| > 0
  {
    if d == 0 then "0"
    else if d % DAY == 0 then Int(Quotient(d, DAY)) + "d"
    else if d % HOUR == 0 then Int(Quotient(d, HOUR)) + "h"
    else if d % MINUTE == 0 then Int(Quotient(d, MINUTE)) + "m"
    else Int(Quotient(d, SECOND))
  }

  function UnitOf(c: char): nat {
    if c == 'd' then DAY else if c == 'h' then HOUR else if c == 'm' then MINUTE else SECOND
  }

  /** `decodeInterval`; the empty interval makes it read before its first byte. */
  function DecodeInterval(b: string): Result<int> {
    if b == "0" then Ok(0)
    else if b == [] then Panic
    else
      var last := b[|b| - 1];
      if last in "dhms" then
        if |b| < 2 then Err else Multiplied(Atoi(b[..|b| - 1]), UnitOf(last))
      else Multiplied(Atoi(b), SECOND)
  }

  function Multiplied(n: Result<int>, unit: nat): Result<int> {
    match n
    case Ok(v) => Ok(Signed(v * unit))
    case _ => Err
  }

  lemma QuotientExact(d: int, unit: nat)
    requires unit > 0 && d % unit == 0
    ensures Quotient(d, unit) * unit == d
  {
    if d < 0 {
      assert -d == unit * (-(d / unit));
      DivUnique(-d, unit, -(d / unit), 0);
    }
  }

  lemma QuotientSmall(d: int, unit: nat)
    requires unit > 0 && Int64(d)
    ensures Int64(Quotient(d, unit)) && Int64(Quotient(d, unit) * unit)
    ensures Quotient(d, unit) * unit == d ==> d % unit == 0
  {
    var m := if d >= 0 then d else -d;
    var q := m / unit;
    assert 0 <= q by {
      DivNonNegative(m, unit);
    }
    MulMonotone(q, 1, unit);
    assert Quotient(d, unit) * unit == (if d >= 0 then q * unit else -(q * unit));
    if q * unit == m && d < 0 {
      DivUnique(d, unit, -q, 0);
    }
  }

  lemma SignedSmall(n: int)
    requires Int64(n)
    ensures Signed(n) == n
  {
  }

  lemma UnitRoundTrip(d: int, unit: nat, suffix: string)
    requires Int64(d) && unit > 0
    requires (suffix == "" && unit == SECOND) || (suffix != "" && suffix[0] in "dhm" && suffix == [suffix[0]] && unit == UnitOf(suffix[0]))
    ensures var text := Int(Quotient(d, unit)) + suffix;
            text != "0" || suffix == ""
    ensures Int(Quotient(d, unit)) != "0" || suffix != "" ==>
              DecodeInterval(Int(Quotient(d, unit)) + suffix) == Ok(Quotient(d, unit) * unit)
  {
    var n := Quotient(d, unit);
    QuotientSmall(d, unit);
    IntRoundTrip(n, 0x8000_0000_0000_0000);
    SignedSmall(n * unit);
    var digits := Int(n);
    var text := digits + suffix;
    if suffix != "" {
      assert text[|text| - 1] == suffix[0];
      assert text[..|text| - 1] == digits;
    } else {
      assert text == digits;
      assert IsDigit(digits[|digits| - 1]);
    }
    hide Quotient, Int, Atoi;
  }

  /**
   What every unit means, in nanoseconds, for all numbers; products beyond 64 bits wrap
   around. A number without a unit is in seconds.
   */
  lemma UnitsRead(n: int, unit: char)
    requires Int64(n) && unit in "dhms"
    ensures var r := DecodeInterval(Int(n) + [unit]);
            var size := if unit == 'd' then 86_400_000_000_000 else if unit == 'h' then 3_600_000_000_000
                        else if unit == 'm' then 60_000_000_000 else 1_000_000_000;
            r.Ok? && Int64(r.value) && (r.value - n * size) % 0x1_0000_0000_0000_0000 == 0
    ensures var r := DecodeInterval(Int(n));
            r.Ok? && Int64(r.value) && (r.value - n * 1_000_000_000) % 0x1_0000_0000_0000_0000 == 0
  {
    var text := Int(n) + [unit];
    IntRoundTrip(n, 0x8000_0000_0000_0000);
    IntEnds(n);
    assert text[|text| - 1] == unit && text[..|text| - 1] == Int(n);
    hide Int, ParseInt;
    SignedIs(n * UnitOf(unit));
    SignedIs(n * SECOND);
  }

  lemma SignedIs(v: int)
    ensures Int64(Signed(v)) && (Signed(v) - v) % 0x1_0000_0000_0000_0000 == 0
  {
    var w := 0x1_0000_0000_0000_0000;
    if v % w < 0x8000_0000_0000_0000 {
      DivUnique(Signed(v) - v, w, -(v / w), 0);
    } else {
      DivUnique(Signed(v) - v, w, -(v / w) - 1, 0);
    }
  }

  /** The largest unit that divides an interval is printed. */
  lemma IntervalText(d: int)
    ensures Interval(0) == "0"
    ensures d != 0 ==> Interval(d * 86_400_000_000_000) == Int(d) + "d"
    ensures d % 24 != 0 ==> Interval(d * 3_600_000_000_000) == Int(d) + "h"
    ensures d % 60 != 0 ==> Interval(d * 60_000_000_000) == Int(d) + "m"
    ensures d % 60 != 0 ==> Interval(d * 1_000_000_000) == Int(d)
  {
    hide Int;
    QuotientOf(d, DAY);
    QuotientOf(d, HOUR);
    QuotientOf(d, MINUTE);
    QuotientOf(d, SECOND);
    NotDivisible(d);
  }

  lemma QuotientOf(d: int, unit: nat)
    requires unit > 0
    ensures Quotient(d * unit, unit) == d && (d * unit) % unit == 0
  {
    DivUnique(d * unit, unit, d, 0);
    if d < 0 {
      DivUnique(-(d * unit), unit, -d, 0);
    }
  }

  lemma NotDivisible(d: int)
    ensures d % 24 != 0 ==> (d * HOUR) % DAY != 0
    ensures d % 60 != 0 ==> (d * MINUTE) % DAY != 0 && (d * MINUTE) % HOUR != 0
    ensures d % 60 != 0 ==> (d * SECOND) % DAY != 0 && (d * SECOND) % HOUR != 0 && (d * SECOND) % MINUTE != 0
  {
    hide *;
    UnitsAre();
    Divides(d, HOUR, 24, DAY);
    Divides(d, MINUTE, 1440, DAY);
    Divides(d, MINUTE, 60, HOUR);
    Divides(d, SECOND, 86400, DAY);
    Divides(d, SECOND, 3600, HOUR);
    Divides(d, SECOND, 60, MINUTE);
    Sixties(d, 24, 1440);
    Sixties(d, 60, 3600);
    Sixties(d, 1440, 86400);
  }

  lemma UnitsAre()
    ensures DAY == HOUR * 24 == MINUTE * 1440 == SECOND * 86400 && HOUR == MINUTE * 60 == SECOND * 3600
    ensures MINUTE == SECOND * 60 && SECOND > 0
  {
  }

  lemma Sixties(d: int, k: int, big: int)
    requires k > 0 && big == 60 * k
    ensures d % big == 0 ==> d % 60 == 0
  {
    if d % big == 0 {
      var q := d / big;
      MulAssoc(60, k, q);
      DivUnique(d, 60, k * q, 0);
    }
  }

  lemma Divides(d: int, unit: int, k: int, big: int)
    requires unit > 0 && k > 0 && big == unit * k
    ensures big > 0 && ((d * unit) % big == 0 ==> d % k == 0)
  {
    MulMonotone(unit, 1, k);
    if (d * unit) % big == 0 {
      var q := (d * unit) / big;
      MulAssoc(unit, k, q);
      Cancels(unit, d, k * q);
      DivUnique(d, k, q, 0);
    }
  }

  lemma Cancels(unit: int, a: int, b: int)
    requires unit > 0 && a * unit == unit * b
    ensures a == b
  {
    DivUnique(a * unit, unit, a, 0);
    DivUnique(a * unit, unit, b, 0);
  }

  /**
   An interval that is not a whole number of seconds is not read back, to whichever of the
   two nearest numbers of seconds its floating-point form is rounded.
   */
  lemma IntervalCutOff(d: int, q: int)
    requires Int64(d) && d % SECOND != 0 && d / SECOND <= q <= d / SECOND + 1
    ensures DecodeInterval(Int(q)) != Ok(d)
  {
    IntRoundTrip(q, 0x8000_0000_0000_0000);
    IntEnds(q);
    hide Int, ParseInt;
  }

  lemma IntEnds(q: int)
    ensures Int(q)[|Int(q)| - 1] !in "dhms" && (Int(q) == "0" ==> q == 0)
  {
    IntZero(q);
  }

  /** An interval is read back exactly when it is a whole number of seconds. */
  lemma IntervalRoundTrip(d: int)
    requires Int64(d)
    ensures DecodeInterval(Interval(d)) == Ok(d) <==> d % SECOND == 0
  {
    hide DecodeInterval, Int;
    var unit := if d % DAY == 0 then DAY else if d % HOUR == 0 then HOUR else if d % MINUTE == 0 then MINUTE else SECOND;
    var suffix := if d % DAY == 0 then "d" else if d % HOUR == 0 then "h" else if d % MINUTE == 0 then "m" else "";
    ZeroInterval();
    if d != 0 {
      IntZero(Quotient(d, SECOND));
      UnitRoundTrip(d, unit, suffix);
      QuotientSmall(d, unit);
      assert Int(Quotient(d, SECOND)) + "" == Int(Quotient(d, SECOND));
      if d % unit == 0 {
        QuotientExact(d, unit);
        UnitsInSeconds(d, unit);
      }
      hide Quotient;
    }
  }

  lemma IntZero(n: int)
    ensures Int(n) == "0" ==> n == 0
  {
    if n >= 0 {
      NumberOfDecimal(n);
      assert Number("0") == 0;
    }
  }

  lemma ZeroInterval()
    ensures DecodeInterval("0") == Ok(0)
  {
  }

  lemma UnitsInSeconds(d: int, unit: nat)
    requires unit in {DAY, HOUR, MINUTE, SECOND} && d % unit == 0
    ensures d % SECOND == 0
  {
  }
}
