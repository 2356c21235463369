/**
 Message frames on a byte stream, as in network/stream.go and network/compress.go: a
 ten-byte header (network ID, compression info, body length) and the body, written in
 pieces by the sender and read in pieces by the receiver.
 */
module Framing {

  import opened Radix
  import opened Bits

  type Bytes = seq<Byte>

  const BZIP2 := 1
  const GZIP := 2
  const ZLIB := 3
  const LZW := 4

  /** The compression libraries. */
  datatype Codec = Codec(
    gzip: Bytes -> Bytes, gunzip: Bytes -> Bytes,
    zlib: Bytes -> Bytes, unzlib: Bytes -> Bytes,
    lzw: Bytes -> Bytes, unlzw: Bytes -> Bytes)

  ghost predicate Inverse(c: Codec) {
    && (forall b: Bytes :: c.gunzip(c.gzip(b)) == b)
    && (forall b: Bytes :: c.unzlib(c.zlib(b)) == b)
    && (forall b: Bytes :: c.unlzw(c.lzw(b)) == b)
  }

  /** There are such libraries: these put a byte in front of their input. */
  lemma InverseExists()
    ensures exists c: Codec :: Inverse(c) && forall b: Bytes :: c.gzip(b) != b
  {
    var store: Bytes -> Bytes := b => [0] + b;
    var restore: Bytes -> Bytes := b => if b == [] then b else b[1..];
    forall b: Bytes ensures restore(store(b)) == b && |store(b)| == |b| + 1 {
    }
    assert Inverse(Codec(store, restore, store, restore, store, restore));
  }

  /** The part of a node's configuration that frames depend on. */
  datatype Settings = Settings(networkID: nat, compressEnable: bool, conditionSize: int, compressAlgo: nat)

  /** `GetNetworkID` is a uint32, `AlgoType` a uint16. */
  predicate InRange(s: Settings) {
    s.networkID < 0x1_0000_0000 && s.compressAlgo < 0x1_0000
  }

  datatype Outcome<T> = Ok(value: T) | Failed | Panicked

  function Compress(c: Codec, algo: nat, message: Bytes): Outcome<Bytes> {
    if algo == BZIP2 then Ok(message)
    else if algo == GZIP then Ok(c.gzip(message))
    else if algo == ZLIB then Ok(c.zlib(message))
    else if algo == LZW then Ok(c.lzw(message))
    else if algo == 0 then Ok(message)
    else Failed
  }

  function Uncompress(c: Codec, message: Bytes, algo: nat): Bytes {
    if algo == GZIP then c.gunzip(message)
    else if algo == ZLIB then c.unzlib(message)
    else if algo == LZW then c.unlzw(message)
    else message
  }

  predicate Compresses(s: Settings, size: nat) {
    s.compressEnable && size >= s.conditionSize
  }

  function GenCompressInfo(s: Settings, size: nat): Outcome<nat> {
    if s.compressAlgo > 0xFF then Panicked
    else Ok(Or(s.compressAlgo, Shl(if Compresses(s, size) then 1 else 0, 8)))
  }

  function GetCompressInfo(info: nat): (nat, bool) {
    (And(info, 0xFF), Shr(info, 8) == 1)
  }

  lemma InfoFields(algo: nat, e: nat)
    requires algo <= 0xFF && e <= 1
    ensures var info := Or(algo, Shl(e, 8)); info < 0x1_0000 && And(info, 0xFF) == algo && Shr(info, 8) == e
  {
    assert Pow2(8) == 256 by {
      assert Pow2(4) == 16;
    }
    hide Or, And, Pow2, Shl, Shr;
    JoinIsSum(algo, e, 8);
    var info := algo + e * 256;
    assert Or(algo, Shl(e, 8)) == info;
    MaskIsRemainder(info, 8);
    DivUnique(info, Pow2(8), e, algo);
  }

  lemma InfoRoundTrip(s: Settings, size: nat)
    requires s.compressAlgo <= 0xFF
    ensures var info := GenCompressInfo(s, size).value;
            info < 0x1_0000 && GetCompressInfo(info) == (s.compressAlgo, Compresses(s, size))
  {
    hide Or, And, Shl, Shr, Pow2;
    InfoFields(s.compressAlgo, if Compresses(s, size) then 1 else 0);
  }

  // ----- Big-endian words -----

  function Put16(v: nat): (b: Bytes)
    ensures |b| == 2
  {
    [v / 256 % 256, v % 256]
  }

  function Put32(v: nat): (b: Bytes)
    ensures |b| == 4
  {
    [v / 0x100_0000 % 256, v / 0x1_0000 % 256, v / 256 % 256, v % 256]
  }

  function Get16(b: Bytes): nat
    requires |b| == 2
  {
    256 * (b[0] as int) + b[1]
  }

  function Get32(b: Bytes): nat
    requires |b| == 4
  {
    0x100_0000 * (b[0] as int) + 0x1_0000 * (b[1] as int) + 256 * (b[2] as int) + b[3]
  }

  lemma WordsRoundTrip(v: nat)
    ensures v < 0x1_0000 ==> Get16(Put16(v)) == v
    ensures v < 0x1_0000_0000 ==> Get32(Put32(v)) == v
  {
    var a, b := v / 256, v / 0x1_0000;
    assert b == a / 256 && v / 0x100_0000 == b / 256;
  }

  // ----- Frames -----

  function Wire(s: Settings, c: Codec, body: Bytes): Outcome<Bytes> {
    if Compresses(s, |body|) then Compress(c, s.compressAlgo, body) else Ok(body)
  }

  /** What `sendMessage` writes for a marshalled message; the length field is 32 bits wide. */
  function Frame(s: Settings, c: Codec, body: Bytes): (r: Outcome<Bytes>)
    ensures r.Ok? ==> Wire(s, c, body).Ok? && |body| > 0
  {
    if |body| == 0 then Failed
    else match Wire(s, c, body)
      case Ok(wire) =>
        (match GenCompressInfo(s, |body|)
         case Ok(info) => Ok(Put32(s.networkID) + Put16(info) + Put32(|wire| % 0x1_0000_0000) + wire)
         case Failed => Failed
         case Panicked => Panicked)
      case Failed => Failed
      case Panicked => Panicked
  }

  /**
   The bytes of a frame, for all settings and bodies: compression starts at the threshold,
   algorithms 2, 3 and 4 are gzip, zlib and lzw, 0 and 1 leave the body as it is, and from
   5 on compression fails; the numbers are big-endian.
   */
  lemma FrameBytes(s: Settings, c: Codec, body: Bytes)
    requires InRange(s)
    ensures var big, algo := s.compressEnable && |body| >= s.conditionSize, s.compressAlgo;
            var wire := if !big || algo <= 1 then body
                        else if algo == 2 then c.gzip(body) else if algo == 3 then c.zlib(body) else c.lzw(body);
            var id, n := s.networkID, |wire| % 0x1_0000_0000;
            Frame(s, c, body) ==
              if body == [] || (big && algo >= 5) then Failed
              else if algo >= 256 then Panicked
              else Ok([id / 0x100_0000, id / 0x1_0000 % 256, id / 0x100 % 256, id % 256,
                       if big then 1 else 0, algo,
                       n / 0x100_0000, n / 0x1_0000 % 256, n / 0x100 % 256, n % 256] + wire)
  {
    var big := s.compressEnable && |body| >= s.conditionSize;
    if s.compressAlgo < 256 {
      InfoIs(s, |body|);
      WireIs(s, c, body);
      hide GenCompressInfo, Wire, Compresses, Or, Shl;
      if Wire(s, c, body).Ok? && body != [] {
        var wire := Wire(s, c, body).value;
        HeaderBytes(s.networkID, s.compressAlgo, if big then 1 else 0, |wire| % 0x1_0000_0000, wire);
      }
    } else {
      WireIs(s, c, body);
      hide Wire, Or, Shl;
    }
  }

  lemma InfoIs(s: Settings, size: nat)
    requires s.compressAlgo < 256
    ensures GenCompressInfo(s, size)
         == Ok(s.compressAlgo + 256 * if s.compressEnable && size >= s.conditionSize then 1 else 0)
  {
    var e := if s.compressEnable && size >= s.conditionSize then 1 else 0;
    PowEight();
    hide Or, Shl, Pow2;
    JoinIsSum(s.compressAlgo, e, 8);
  }

  lemma PowEight()
    ensures Pow2(8) == 256
  {
    assert Pow2(4) == 16;
  }

  lemma WireIs(s: Settings, c: Codec, body: Bytes)
    ensures Wire(s, c, body) ==
              if !(s.compressEnable && |body| >= s.conditionSize) || s.compressAlgo <= 1 then Ok(body)
              else if s.compressAlgo == 2 then Ok(c.gzip(body))
              else if s.compressAlgo == 3 then Ok(c.zlib(body))
              else if s.compressAlgo == 4 then Ok(c.lzw(body))
              else Failed
  {
  }

  lemma HeaderBytes(id: nat, algo: nat, e: nat, n: nat, wire: Bytes)
    requires id < 0x1_0000_0000 && algo < 256 && e <= 1 && n < 0x1_0000_0000
    ensures Put32(id) + Put16(algo + 256 * e) + Put32(n) + wire
         == [id / 0x100_0000, id / 0x1_0000 % 256, id / 0x100 % 256, id % 256, e, algo,
             n / 0x100_0000, n / 0x1_0000 % 256, n / 0x100 % 256, n % 256] + wire
  {
    assert id / 0x100_0000 < 256 && n / 0x100_0000 < 256;
    assert Put16(algo + 256 * e) == [e, algo];
  }

  datatype Received = Body(body: Bytes) | WrongNetwork | Empty | Closed

  /**
   Whether a field of `size` bytes cannot be read: there are too few bytes, or the read
   that completes it brings the last of them together with the error (`edge`).
   */
  predicate Short(data: Bytes, size: nat, edge: bool) {
    |data| < size || (edge && |data| == size)
  }

  /** What `receiveMessage` makes of the bytes to come, and the bytes it leaves. */
  function Parse(networkID: nat, c: Codec, data: Bytes, edge: bool): (Received, Bytes) {
    if Short(data, 4, edge) then (Closed, [])
    else if Get32(data[..4]) != networkID then (WrongNetwork, data[4..])
    else if Short(data, 10, edge) then (Closed, [])
    else
      var (algo, enable) := GetCompressInfo(Get16(data[4..6]));
      var size := Get32(data[6..10]);
      if size == 0 then (Empty, data[10..])
      else if Short(data, 10 + size, edge) then (Closed, [])
      else
        var wire := data[10..10 + size];
        (Body(if enable then Uncompress(c, wire, algo) else wire), data[10 + size..])
  }

  /** The receiver on any bytes, in numbers: a body is uncompressed as byte 5 says if byte 4 is 1. */
  lemma ParseBytes(networkID: nat, c: Codec, data: Bytes, edge: bool)
    requires |data| >= 10
    ensures var id := 0x100_0000 * (data[0] as int) + 0x1_0000 * (data[1] as int) + 256 * (data[2] as int) + data[3];
            var size := 0x100_0000 * (data[6] as int) + 0x1_0000 * (data[7] as int) + 256 * (data[8] as int) + data[9];
            var rest := data[10..];
            Parse(networkID, c, data, edge) ==
              if id != networkID then (WrongNetwork, data[4..])
              else if edge && rest == [] then (Closed, [])
              else if size == 0 then (Empty, rest)
              else if |rest| < size || (edge && |rest| == size) then (Closed, [])
              else
                var wire := rest[..size];
                (Body(if data[4] != 1 then wire
                      else if data[5] == 2 then c.gunzip(wire)
                      else if data[5] == 3 then c.unzlib(wire)
                      else if data[5] == 4 then c.unlzw(wire)
                      else wire), rest[size..])
  {
    ParsePayload(networkID, c, data, edge);
    InfoBytes(data[4], data[5]);
    hide Parse, GetCompressInfo;
    assert data[..4] == [data[0], data[1], data[2], data[3]];
    assert data[4..6] == [data[4], data[5]];
    assert data[6..10] == [data[6], data[7], data[8], data[9]];
  }

  lemma InfoBytes(high: Byte, low: Byte)
    ensures GetCompressInfo(256 * (high as int) + low) == (low, high == 1)
  {
    PowEight();
    hide And, Pow2;
    MaskIsRemainder(256 * (high as int) + low, 8);
  }

  lemma FrameHeader(s: Settings, c: Codec, body: Bytes, rest: Bytes)
    requires InRange(s) && Frame(s, c, body).Ok?
    ensures var data, wire := Frame(s, c, body).value + rest, Wire(s, c, body).value;
      && |data| == 10 + |wire| + |rest|
      && Get32(data[..4]) == s.networkID
      && GetCompressInfo(Get16(data[4..6])) == (s.compressAlgo, Compresses(s, |body|))
      && Get32(data[6..10]) == |wire| % 0x1_0000_0000
      && data[10..] == wire + rest
  {
    hide *;
    FrameParts(s, c, body);
    var wire, info := Wire(s, c, body).value, GenCompressInfo(s, |body|).value;
    var a, b, n := Put32(s.networkID), Put16(info), Put32(|wire| % 0x1_0000_0000);
    InfoRoundTrip(s, |body|);
    WordsRoundTrip(s.networkID);
    WordsRoundTrip(info);
    WordsRoundTrip(|wire| % 0x1_0000_0000);
    FieldsOf(a, b, n, wire, rest);
  }

  lemma FrameParts(s: Settings, c: Codec, body: Bytes)
    requires InRange(s) && Frame(s, c, body).Ok?
    ensures s.networkID < 0x1_0000_0000 && s.compressAlgo <= 0xFF && GenCompressInfo(s, |body|).Ok?
    ensures var wire, info := Wire(s, c, body).value, GenCompressInfo(s, |body|).value;
            Frame(s, c, body).value == Put32(s.networkID) + Put16(info) + Put32(|wire| % 0x1_0000_0000) + wire
  {
    hide Put32, Put16, Wire, Or, Shl;
  }

  lemma FieldsOf(a: Bytes, b: Bytes, n: Bytes, wire: Bytes, rest: Bytes)
    requires |a| == 4 && |b| == 2 && |n| == 4
    ensures var data := a + b + n + wire + rest;
            data[..4] == a && data[4..6] == b && data[6..10] == n && data[10..] == wire + rest
  {
  }

  /** The receiver undoes compression as the header tells it, whatever its own settings are. */
  lemma WireRoundTrip(s: Settings, c: Codec, body: Bytes)
    requires Inverse(c) && Wire(s, c, body).Ok?
    ensures var wire := Wire(s, c, body).value;
            (if Compresses(s, |body|) then Uncompress(c, wire, s.compressAlgo) else wire) == body
  {
  }

  /**
   A frame is read back as the body it was made from, with the bytes after it left
   alone, exactly when the network IDs agree, the body on the wire is not empty, its
   length fits the 32-bit field, and its last byte does not arrive with the error.
   */
  lemma FrameRoundTrip(s: Settings, c: Codec, body: Bytes, networkID: nat, rest: Bytes, edge: bool)
    requires InRange(s) && Inverse(c) && Frame(s, c, body).Ok?
    ensures Parse(networkID, c, Frame(s, c, body).value + rest, edge) == (Body(body), rest)
       <==> networkID == s.networkID && 0 < |Wire(s, c, body).value| < 0x1_0000_0000 && !(edge && rest == [])
  {
    hide *;
    var data, wire := Frame(s, c, body).value + rest, Wire(s, c, body).value;
    FrameHeader(s, c, body, rest);
    WireRoundTrip(s, c, body);
    ParsePayload(networkID, c, data, edge);
    var size, r := |wire| % 0x1_0000_0000, Parse(networkID, c, data, edge);
    if networkID != s.networkID {
      assert !r.0.Body?;
    } else if size == 0 {
      assert !r.0.Body?;
    } else if |wire| < 0x1_0000_0000 {
      assert size == |wire|;
      assert (wire + rest)[..size] == wire;
      assert (wire + rest)[size..] == rest;
    } else {
      assert r.1 == (wire + rest)[size..];
      assert |r.1| > |rest|;
    }
  }

  /** `Parse` in terms of the header fields and the bytes after the header. */
  lemma ParsePayload(networkID: nat, c: Codec, data: Bytes, edge: bool)
    requires |data| >= 10
    ensures var info, size, payload := GetCompressInfo(Get16(data[4..6])), Get32(data[6..10]), data[10..];
            Parse(networkID, c, data, edge) ==
              if Get32(data[..4]) != networkID then (WrongNetwork, data[4..])
              else if edge && payload == [] then (Closed, [])
              else if size == 0 then (Empty, payload)
              else if |payload| < size || (edge && |payload| == size) then (Closed, [])
              else (Body(if info.1 then Uncompress(c, payload[..size], info.0) else payload[..size]), payload[size..])
  {
    hide Get32, Get16, GetCompressInfo, Uncompress;
    var size := Get32(data[6..10]);
    if size <= |data[10..]| {
      assert data[10 + size..] == data[10..][size..];
      assert data[10..10 + size] == data[10..][..size];
    }
  }

  /** A frame that is cut off, at any byte, or whose last byte arrives with the error, is not a message. */
  lemma CutFrame(s: Settings, c: Codec, body: Bytes, n: nat, edge: bool)
    requires InRange(s) && Frame(s, c, body).Ok? && 0 < |Wire(s, c, body).value| < 0x1_0000_0000
    requires n < |Frame(s, c, body).value| || (edge && n == |Frame(s, c, body).value|)
    ensures Parse(s.networkID, c, Frame(s, c, body).value[..n], edge) == (Closed, [])
  {
    hide *;
    var frame, wire := Frame(s, c, body).value, Wire(s, c, body).value;
    FrameHeader(s, c, body, []);
    assert frame + [] == frame;
    var data := frame[..n];
    if n < 10 {
      ParseShort(s.networkID, c, data, edge, frame);
    } else {
      assert data[..4] == frame[..4] && data[4..6] == frame[4..6] && data[6..10] == frame[6..10];
      ParsePayload(s.networkID, c, data, edge);
      assert |data[10..]| == n - 10;
    }
  }

  lemma ParseShort(networkID: nat, c: Codec, data: Bytes, edge: bool, frame: Bytes)
    requires |data| < 10 <= |frame| && data == frame[..|data|] && Get32(frame[..4]) == networkID
    ensures Parse(networkID, c, data, edge) == (Closed, [])
  {
    hide Get32, Get16, GetCompressInfo, Uncompress;
    if |data| >= 4 {
      assert data[..4] == frame[..4];
    }
  }

  // ----- Streams of frames -----

  /** A message and the settings of its sender at that time. */
  datatype Message = Message(settings: Settings, body: Bytes)

  predicate Sendable(m: Message, c: Codec, networkID: nat) {
    && InRange(m.settings) && m.settings.networkID == networkID
    && Frame(m.settings, c, m.body).Ok?
    && 0 < |Wire(m.settings, c, m.body).value| < 0x1_0000_0000
  }

  predicate AllSendable(ms: seq<Message>, c: Codec, networkID: nat) {
    forall m | m in ms :: Sendable(m, c, networkID)
  }

  function FrameOf(m: Message, c: Codec, networkID: nat): (f: Bytes)
    requires Sendable(m, c, networkID)
    ensures |f| > 0
  {
    Frame(m.settings, c, m.body).value
  }

  function Frames(ms: seq<Message>, c: Codec, networkID: nat): Bytes
    requires AllSendable(ms, c, networkID)
  {
    if ms == [] then []
    else FrameOf(ms[0], c, networkID) + Frames(ms[1..], c, networkID)
  }

  /** `count` messages read one after the other. */
  function ParseMany(networkID: nat, c: Codec, data: Bytes, edge: bool, count: nat): (seq<Received>, Bytes)
    decreases count
  {
    if count == 0 then ([], data)
    else
      var (r, rest) := Parse(networkID, c, data, edge);
      var (rs, end) := ParseMany(networkID, c, rest, edge, count - 1);
      ([r] + rs, end)
  }

  function Bodies(ms: seq<Message>): seq<Received> {
    if ms == [] then [] else [Body(ms[0].body)] + Bodies(ms[1..])
  }

  function Misses(count: nat): seq<Received> {
    if count == 0 then [] else [Closed] + Misses(count - 1)
  }

  /**
   How many of the frames are complete when `n` bytes come through; with `edge` the last
   of these bytes comes with an error, and the frame it completes does not count.
   */
  function Whole(ms: seq<Message>, c: Codec, networkID: nat, n: nat, edge: bool): (k: nat)
    requires AllSendable(ms, c, networkID)
    ensures k <= |ms|
  {
    if ms == [] then 0
    else
      var size := |FrameOf(ms[0], c, networkID)|;
      if n < size || (edge && n == size) then 0
      else 1 + Whole(ms[1..], c, networkID, n - size, edge)
  }

  /** With every byte through, every frame counts, but the last one if its last byte comes with the error. */
  lemma {:induction false} WholeOfAll(ms: seq<Message>, c: Codec, networkID: nat, edge: bool)
    requires AllSendable(ms, c, networkID)
    ensures Whole(ms, c, networkID, |Frames(ms, c, networkID)|, edge) == if edge && ms != [] then |ms| - 1 else |ms|
  {
    if ms != [] {
      hide FrameOf, Sendable;
      assert ms[0] in ms;
      WholeOfAll(ms[1..], c, networkID, edge);
      assert ms[1..] != [] ==> |Frames(ms[1..], c, networkID)| > 0;
    }
  }

  /** Any number of frames, from senders with any compression settings, is read back in order. */
  lemma {:induction false} StreamRoundTrip(ms: seq<Message>, c: Codec, networkID: nat, rest: Bytes, edge: bool)
    requires Inverse(c) && AllSendable(ms, c, networkID) && !(edge && rest == [])
    ensures ParseMany(networkID, c, Frames(ms, c, networkID) + rest, edge, |ms|) == (Bodies(ms), rest)
  {
    hide Parse, FrameOf, Sendable, Inverse;
    if ms == [] {
      assert [] + rest == rest;
    } else {
      assert ms[0] in ms;
      var frame, tail := FrameOf(ms[0], c, networkID), Frames(ms[1..], c, networkID);
      StreamRoundTrip(ms[1..], c, networkID, rest, edge);
      NextFrame(ms[0], c, networkID, tail + rest, edge);
      assert frame + tail + rest == frame + (tail + rest);
    }
  }

  lemma NextFrame(m: Message, c: Codec, networkID: nat, rest: Bytes, edge: bool)
    requires Inverse(c) && Sendable(m, c, networkID) && !(edge && rest == [])
    ensures Parse(networkID, c, FrameOf(m, c, networkID) + rest, edge) == (Body(m.body), rest)
  {
    hide Frame, Wire, Parse, Inverse;
    FrameRoundTrip(m.settings, c, m.body, networkID, rest, edge);
  }

  /**
   A stream that is cut after any number of bytes gives exactly the messages whose frames
   came through whole; after them every read fails.
   */
  lemma {:induction false} CutStream(ms: seq<Message>, c: Codec, networkID: nat, n: nat, edge: bool)
    requires Inverse(c) && AllSendable(ms, c, networkID) && n <= |Frames(ms, c, networkID)|
    ensures var k := Whole(ms, c, networkID, n, edge);
            ParseMany(networkID, c, Frames(ms, c, networkID)[..n], edge, |ms|) == (Bodies(ms[..k]) + Misses(|ms| - k), [])
  {
    hide Parse, FrameOf, Sendable, Inverse, Bodies, Misses;
    var k, data := Whole(ms, c, networkID, n, edge), Frames(ms, c, networkID)[..n];
    if ms == [] {
      NoBodies();
    } else {
      assert ms[0] in ms;
      var m, tail := ms[0], Frames(ms[1..], c, networkID);
      var frame := FrameOf(m, c, networkID);
      if k == 0 {
        CutFirst(m, c, networkID, n, edge);
        assert data == frame[..n];
        ParseNothing(networkID, c, edge, |ms| - 1);
        NoBodies();
        assert ms[..0] == [];
        MissesStep(|ms|);
        assert [] + Misses(|ms|) == Misses(|ms|);
      } else {
        var rest := tail[..n - |frame|];
        assert data == frame + rest;
        CutStream(ms[1..], c, networkID, n - |frame|, edge);
        NextFrame(m, c, networkID, rest, edge);
        BodiesStep(ms, k);
      }
    }
  }

  lemma NoBodies()
    ensures Bodies([]) == [] && Misses(0) == []
  {
  }

  lemma MissesStep(count: nat)
    requires count > 0
    ensures Misses(count) == [Closed] + Misses(count - 1)
  {
  }

  lemma BodiesStep(ms: seq<Message>, k: nat)
    requires 0 < k <= |ms|
    ensures forall end :: [Body(ms[0].body)] + (Bodies(ms[1..][..k - 1]) + end) == Bodies(ms[..k]) + end
  {
    assert ms[..k][1..] == ms[1..][..k - 1];
  }

  lemma CutFirst(m: Message, c: Codec, networkID: nat, n: nat, edge: bool)
    requires Sendable(m, c, networkID)
    requires var size := |FrameOf(m, c, networkID)|; n < size || (edge && n == size)
    ensures n <= |FrameOf(m, c, networkID)|
    ensures Parse(networkID, c, FrameOf(m, c, networkID)[..n], edge) == (Closed, [])
  {
    hide Frame, Wire, Parse;
    CutFrame(m.settings, c, m.body, n, edge);
  }

  lemma {:induction false} ParseNothing(networkID: nat, c: Codec, edge: bool, count: nat)
    ensures ParseMany(networkID, c, [], edge, count) == (Misses(count), [])
  {
    if count > 0 {
      ParseNothing(networkID, c, edge, count - 1);
    }
  }

  // ----- Reading -----

  function Flatten(chunks: seq<Bytes>): Bytes {
    if chunks == [] then [] else chunks[0] + Flatten(chunks[1..])
  }

  /** The last byte of the chunks is delivered together with the error that ends them. */
  predicate EdgeOf(chunks: seq<Bytes>, early: bool) {
    early && chunks != [] && chunks[|chunks| - 1] != []
  }

  lemma NoEdge(chunks: seq<Bytes>)
    ensures !EdgeOf(chunks, false)
  {
  }

  /**
   A connection that delivers its bytes in chunks of any size and then fails. As the
   contract of a reader allows, the error may come with the last chunk (`early`) or after it.
   */
  class Conn {
    var chunks: seq<Bytes>
    const early: bool

    ghost function Data(): Bytes
      reads this
    {
      Flatten(chunks)
    }

    ghost predicate Edge()
      reads this
    {
      EdgeOf(chunks, early)
    }

    constructor (chunks: seq<Bytes>, early: bool)
      ensures this.chunks == chunks && this.early == early
    {
      this.chunks, this.early := chunks, early;
    }

    /** Fills `buf` from position `from` on with what is there, at most one chunk. */
    method Read(buf: array<Byte>, from: nat) returns (n: nat, err: bool)
      requires from < buf.Length
      modifies this, buf
      ensures from + n <= buf.Length && n <= |old(Data())| && Data() == old(Data())[n..]
      ensures buf[..from + n] == old(buf[..from]) + old(Data())[..n]
      ensures err ==> Data() == [] && (n > 0 ==> old(Edge()))
      ensures !err ==> n > 0 || |chunks| < old(|chunks|)
      ensures !err ==> Edge() == old(Edge())
    {
      if chunks == [] {
        return 0, true;
      }
      var chunk, room := chunks[0], buf.Length - from;
      n := if |chunk| <= room then |chunk| else room;
      chunks := if n == |chunk| then chunks[1..] else [chunk[n..]] + chunks[1..];
      forall i | 0 <= i < n {
        buf[from + i] := chunk[i];
      }
      err := chunks == [] && early;
      assert Data() == old(Data())[n..];
      assert buf[..from + n] == old(buf[..from]) + chunk[..n];
    }
  }

  lemma {:induction false} FlattenEnds(chunks: seq<Bytes>)
    requires chunks != [] && chunks[|chunks| - 1] != []
    ensures Flatten(chunks) != []
  {
    if |chunks| > 1 {
      FlattenEnds(chunks[1..]);
    }
  }

  /**
   The read loop of `receiveMessage`, which tests the error after the loop: it succeeds
   exactly when enough bytes come and the one that completes the field comes without an error.
   */
  method ReadFull(conn: Conn, size: nat) returns (buf: array<Byte>, ok: bool)
    requires size > 0
    modifies conn
    ensures fresh(buf) && buf.Length == size
    ensures ok == !Short(old(conn.Data()), size, old(conn.Edge()))
    ensures if ok then buf[..] == old(conn.Data())[..size] && conn.Data() == old(conn.Data())[size..]
            else conn.Data() == []
    ensures ok ==> conn.Edge() == old(conn.Edge())
  {
    buf := new Byte[size];
    var total, err := 0, false;
    ghost var data, edge := conn.Data(), conn.Edge();
    while total < size && !err
      invariant total <= size && total <= |data|
      invariant buf[..total] == data[..total] && conn.Data() == data[total..]
      invariant !err ==> conn.Edge() == edge
      invariant err ==> conn.Data() == [] && (total == size ==> edge)
      decreases !err, size - total, |conn.chunks|
    {
      var n;
      n, err := conn.Read(buf, total);
      assert data[total..][..n] == data[total..total + n];
      assert data[total..][n..] == data[total + n..];
      total := total + n;
    }
    ok := !err;
    if ok && edge {
      FlattenEnds(conn.chunks);
    }
  }

  /** `receiveMessage`, up to the unmarshalling of the body. */
  method ReceiveMessage(conn: Conn, networkID: nat, c: Codec) returns (r: Received)
    modifies conn
    ensures (r, conn.Data()) == Parse(networkID, c, old(conn.Data()), old(conn.Edge()))
    ensures conn.Data() == [] || conn.Edge() == old(conn.Edge())
  {
    hide Get32, Get16, GetCompressInfo, Uncompress, Flatten;
    ghost var data := conn.Data();
    var buffer, ok := ReadFull(conn, 4);
    if !ok {
      return Closed;
    }
    if Get32(buffer[..]) != networkID {
      return WrongNetwork;
    }
    buffer, ok := ReadFull(conn, 2);
    if !ok {
      return Closed;
    }
    assert buffer[..] == data[4..6] && conn.Data() == data[6..];
    var (algo, enable) := GetCompressInfo(Get16(buffer[..]));
    buffer, ok := ReadFull(conn, 4);
    if !ok {
      return Closed;
    }
    assert buffer[..] == data[6..10] && conn.Data() == data[10..];
    var size := Get32(buffer[..]);
    if size == 0 {
      return Empty;
    }
    buffer, ok := ReadFull(conn, size);
    if !ok {
      return Closed;
    }
    assert buffer[..] == data[10..10 + size] && conn.Data() == data[10 + size..];
    return Body(if enable then Uncompress(c, buffer[..], algo) else buffer[..]);
  }

  /** The accept loop, for a given number of messages. */
  method ReceiveMany(conn: Conn, networkID: nat, c: Codec, count: nat) returns (rs: seq<Received>)
    modifies conn
    ensures (rs, conn.Data()) == ParseMany(networkID, c, old(conn.Data()), old(conn.Edge()), count)
  {
    hide Parse, Flatten, ParseMany;
    rs := [];
    var i := 0;
    ghost var data, edge := conn.Data(), conn.Edge();
    ghost var all := ParseMany(networkID, c, data, edge, count);
    assert [] + all.0 == all.0;
    while i < count
      invariant i <= count
      invariant conn.Data() == [] || conn.Edge() == edge
      invariant var p := ParseMany(networkID, c, conn.Data(), edge, count - i); all == (rs + p.0, p.1)
    {
      ghost var before := rs;
      ParseManyStep(networkID, c, conn.Data(), edge, count - i);
      EdgeOfNothing(networkID, c);
      var r := ReceiveMessage(conn, networkID, c);
      rs := rs + [r];
      ghost var p := ParseMany(networkID, c, conn.Data(), edge, count - i - 1);
      assert before + ([r] + p.0) == rs + p.0;
      i := i + 1;
    }
    ParseManyStep(networkID, c, conn.Data(), edge, 0);
    assert rs + [] == rs;
  }

  lemma ParseManyStep(networkID: nat, c: Codec, data: Bytes, edge: bool, count: nat)
    ensures count == 0 ==> ParseMany(networkID, c, data, edge, count) == ([], data)
    ensures count > 0 ==>
              var (r, rest) := Parse(networkID, c, data, edge);
              var p := ParseMany(networkID, c, rest, edge, count - 1);
              ParseMany(networkID, c, data, edge, count) == ([r] + p.0, p.1)
  {
    hide Parse;
  }

  lemma EdgeOfNothing(networkID: nat, c: Codec)
    ensures Parse(networkID, c, [], false) == Parse(networkID, c, [], true) == (Closed, [])
  {
  }

  /** However the bytes of the frames arrive, the receiver gets the messages back. */
  method ReceiveSent(conn: Conn, networkID: nat, c: Codec, ms: seq<Message>, ghost rest: Bytes)
    returns (rs: seq<Received>)
    requires Inverse(c) && AllSendable(ms, c, networkID)
    requires conn.Data() == Frames(ms, c, networkID) + rest
    modifies conn
    ensures !(old(conn.Edge()) && rest == []) ==> rs == Bodies(ms) && conn.Data() == rest
    ensures old(conn.Edge()) && rest == [] && ms != [] ==> rs == Bodies(ms[..|ms| - 1]) + [Closed] && conn.Data() == []
  {
    hide Parse, Flatten, Frames, Bodies;
    ghost var edge := conn.Edge();
    if !(edge && rest == []) {
      StreamRoundTrip(ms, c, networkID, rest, edge);
    } else {
      ghost var data := Frames(ms, c, networkID);
      assert data + rest == data == data[..|data|];
      WholeOfAll(ms, c, networkID, edge);
      CutStream(ms, c, networkID, |data|, edge);
      assert Misses(1) == [Closed];
    }
    rs := ReceiveMany(conn, networkID, c, |ms|);
  }

  /** A whole frame in one chunk, delivered with the error, is refused. */
  method RefusesCompleteFrame(networkID: nat, c: Codec, m: Message) returns (r: Received)
    requires Sendable(m, c, networkID)
    ensures r == Closed
  {
    hide Parse, Sendable, FrameOf;
    var frame := FrameOf(m, c, networkID);
    var conn := new Conn([frame], true);
    assert Flatten([frame][1..]) == [] && frame + [] == frame == frame[..|frame|];
    CutFirst(m, c, networkID, |frame|, true);
    r := ReceiveMessage(conn, networkID, c);
  }

  // ----- Writing -----

  /**
   Whether a connection with room for `room` bytes takes `n` bytes without an error. The
   error comes with the byte that fills it (`edge`) or with the write after that.
   */
  predicate Fits(n: nat, room: nat, edge: bool) {
    n == 0 || n < room || (n == room && !edge)
  }

  /** A buffered writer, which keeps failing once its connection has failed. */
  class Writer {
    var written: Bytes
    var room: nat
    const edge: bool
    var buffered: Bytes
    const size: nat
    var failed: bool

    ghost predicate Valid()
      reads this
    {
      |buffered| <= size && size > 0
    }

    constructor (size: nat, room: nat, edge: bool)
      requires size > 0
      ensures Valid() && written == buffered == [] && !failed && this.room == room && this.edge == edge
    {
      written, buffered, failed := [], [], false;
      this.size, this.room, this.edge := size, room, edge;
    }

    /** A write to the connection itself. */
    method Take(b: Bytes) returns (n: nat, err: bool)
      modifies this`written, this`room
      ensures n == if |b| <= old(room) then |b| else old(room)
      ensures written == old(written) + b[..n] && room == old(room) - n
      ensures err == !Fits(|b|, old(room), edge)
    {
      n := if |b| <= room then |b| else room;
      err := !Fits(|b|, room, edge);
      written, room := written + b[..n], room - n;
    }

    /** `Flush` of the buffered writer. */
    method Flush() returns (err: bool)
      requires Valid()
      modifies this
      ensures Valid() && err == failed == (old(failed) || !Fits(old(|buffered|), old(room), edge))
      ensures old(failed) ==> unchanged(this)
      ensures !err ==> buffered == [] && written == old(written + buffered) && room == old(room) - old(|buffered|)
      ensures err && !old(failed) ==> written == old(written) + old(buffered)[..old(room)]
    {
      if failed || buffered == [] {
        assert written == written + [];
        return failed;
      }
      var n, e := Take(buffered);
      assert buffered[..|buffered|] == buffered;
      buffered, failed := buffered[n..], e;
      return e;
    }

    /** A turn of the loop in `Write` with an empty buffer: the bytes go to the connection. */
    method Direct(p: Bytes, ghost out: Bytes, ghost stream: Bytes, ghost end: nat, ghost room0: nat) returns (n: nat)
      requires Valid() && !failed && buffered == [] && p != []
      requires At(this, out, stream, end, room0) && p == stream[end..]
      modifies this
      ensures Valid() && n <= |p|
      ensures !failed ==> At(this, out, stream, end + n, room0) && |p| - n + |buffered| < |p|
      ensures failed ==> Stuck(this, out, stream, room0)
    {
      ghost var done: nat :| Done(this, out, stream, end, room0, done);
      ghost var k := if |p| <= room then |p| else room;
      Advance(out, stream, end, |stream|, k);
      hide At;
      n, failed := Take(p);
      if !failed {
        DoneIsAt(this, out, stream, |stream|, room0);
      }
    }

    /** A turn of the loop in `Write` that fills the buffer and flushes it. */
    method Fill(p: Bytes, ghost out: Bytes, ghost stream: Bytes, ghost end: nat, ghost room0: nat) returns (n: nat)
      requires Valid() && !failed && buffered != [] && |p| > size - |buffered|
      requires At(this, out, stream, end, room0) && p == stream[end..]
      modifies this
      ensures Valid() && n <= |p|
      ensures !failed ==> At(this, out, stream, end + n, room0) && |p| - n + |buffered| < |p| + old(|buffered|)
      ensures failed ==> Stuck(this, out, stream, room0)
    {
      ghost var done: nat :| Done(this, out, stream, end, room0, done);
      n := size - |buffered|;
      Joined(stream, done, end, n);
      buffered := buffered + p[..n];
      Advance(out, stream, done, end + n, if |buffered| <= room then |buffered| else room);
      hide At;
      var e := Flush();
      if !failed {
        DoneIsAt(this, out, stream, end + n, room0);
      }
    }

    /** What is left fits the buffer. */
    method FillUp(p: Bytes, ghost out: Bytes, ghost stream: Bytes, ghost end: nat, ghost room0: nat)
      requires Valid() && !failed && |p| <= size - |buffered|
      requires At(this, out, stream, end, room0) && p == stream[end..]
      modifies this`buffered
      ensures Valid() && At(this, out, stream, |stream|, room0)
    {
      ghost var done: nat :| Done(this, out, stream, end, room0, done);
      Joined(stream, done, end, |p|);
      assert p[..|p|] == p;
      buffered := buffered + p;
      assert Done(this, out, stream, |stream|, room0, done);
    }

    /** `Write` of the buffered writer. */
    method Write(b: Bytes) returns (nn: nat, err: bool)
      requires Valid()
      modifies this
      ensures Valid() && err == failed
      ensures old(failed) ==> unchanged(this)
      ensures !err ==> nn == |b| && At(this, old(written), old(buffered) + b, |old(buffered) + b|, old(room))
      ensures err && !old(failed) ==> Stuck(this, old(written), old(buffered) + b, old(room))
    {
      hide Stuck, At, Done;
      nn := 0;
      var p := b;
      ghost var start, stream, out := |buffered|, buffered + b, written;
      Nothing(this, b);
      while |p| > size - |buffered| && !failed
        invariant Valid() && nn <= |b| && p == b[nn..]
        invariant old(failed) ==> unchanged(this)
        invariant !failed ==> At(this, out, stream, start + nn, old(room))
        invariant failed && !old(failed) ==> Stuck(this, out, stream, old(room))
        decreases !failed, |p| + |buffered|
      {
        Tail(old(buffered), b, nn);
        var n;
        if buffered == [] {
          n := Direct(p, out, stream, start + nn, old(room));
        } else {
          n := Fill(p, out, stream, start + nn, old(room));
        }
        nn := nn + n;
        p := p[n..];
      }
      if failed {
        return nn, true;
      }
      Tail(old(buffered), b, nn);
      FillUp(p, out, stream, start + nn, old(room));
      return nn + |p|, false;
    }
  }

  /**
   `sendMessage`, from the marshalled message on. It succeeds exactly when the connection
   has room for what is still buffered and the frame; otherwise all that it has room for
   is on the connection, and an error is reported.
   */
  method SendMessage(w: Writer, s: Settings, c: Codec, body: Bytes) returns (r: Outcome<nat>)
    requires InRange(s) && w.Valid()
    modifies w
    ensures w.Valid()
    ensures !Frame(s, c, body).Ok? ==>
              !r.Ok? && r.Failed? == Frame(s, c, body).Failed? && unchanged(w)
    ensures Frame(s, c, body).Ok? && old(w.failed) ==> r == Failed && unchanged(w)
    ensures Frame(s, c, body).Ok? && !old(w.failed) ==>
              var frame := Frame(s, c, body).value;
              var stream := old(w.buffered) + frame;
              if Fits(|stream|, old(w.room), w.edge)
              then r == Ok(|frame|) && !w.failed && w.buffered == [] && w.written == old(w.written) + stream
                   && w.room == old(w.room) - |stream|
              else r == Failed && Stuck(w, old(w.written), stream, old(w.room))
  {
    hide Put32, Put16, Compress, GenCompressInfo;
    if |body| == 0 {
      return Failed;
    }
    var bytes := body;
    if Compresses(s, |body|) {
      match Compress(c, s.compressAlgo, body) {
        case Ok(compressed) => bytes := compressed;
        case Failed => return Failed;
        case Panicked => return Panicked;
      }
    }
    var info;
    match GenCompressInfo(s, |body|) {
      case Ok(i) => info := i;
      case Failed => return Failed;
      case Panicked => return Panicked;
    }
    var buffer := Put32(s.networkID) + Put16(info) + Put32(|bytes| % 0x1_0000_0000) + bytes;
    var sent := SendBuffer(w, buffer);
    return if sent then Ok(|buffer|) else Failed;
  }

  /** The write loop of `sendMessage` and its last `Flush`. */
  method SendBuffer(w: Writer, buffer: Bytes) returns (ok: bool)
    requires w.Valid() && buffer != []
    modifies w
    ensures w.Valid()
    ensures old(w.failed) ==> !ok && unchanged(w)
    ensures !old(w.failed) ==>
              var stream := old(w.buffered) + buffer;
              ok == Fits(|stream|, old(w.room), w.edge)
              && if ok
                 then !w.failed && w.buffered == [] && w.written == old(w.written) + stream
                      && w.room == old(w.room) - |stream|
                 else Stuck(w, old(w.written), stream, old(w.room))
  {
    var total := 0;
    ghost var stream := w.buffered + buffer;
    while total < |buffer|
      invariant w.Valid() && (total == 0 || total == |buffer|)
      invariant total == 0 ==> unchanged(w)
      invariant total > 0 ==> !old(w.failed) && !w.failed && At(w, old(w.written), stream, |stream|, old(w.room))
      decreases |buffer| - total
    {
      var n, err := w.Write(buffer[total..]);
      assert buffer[0..] == buffer;
      if err {
        return false;
      }
      total := total + n;
      if |w.buffered| == w.size {
        err := FlushAll(w, old(w.written), stream, old(w.room));
        if err {
          return false;
        }
      }
    }
    var err := FlushAll(w, old(w.written), stream, old(w.room));
    return !err;
  }

  method FlushAll(w: Writer, ghost out: Bytes, ghost stream: Bytes, ghost room: nat) returns (err: bool)
    requires w.Valid() && !w.failed && At(w, out, stream, |stream|, room)
    modifies w
    ensures w.Valid() && err == w.failed == !Fits(|stream|, room, w.edge)
    ensures !err ==> w.buffered == [] && w.written == out + stream && w.room == room - |stream|
    ensures !err ==> At(w, out, stream, |stream|, room)
    ensures err ==> Stuck(w, out, stream, room)
  {
    ghost var done: nat :| Done(w, out, stream, |stream|, room, done);
    Advance(out, stream, done, |stream|, if |w.buffered| <= w.room then |w.buffered| else w.room);
    assert stream[..|stream|] == stream;
    hide At;
    err := w.Flush();
    if !err {
      DoneIsAt(w, out, stream, |stream|, room);
    }
  }

  /** Sends the messages in order, up to the first that is not sent. */
  method SendMany(w: Writer, ms: seq<Message>, networkID: nat, c: Codec) returns (sent: nat)
    requires w.Valid() && w.written == w.buffered == [] && !w.failed && AllSendable(ms, c, networkID)
    modifies w
    ensures sent == Whole(ms, c, networkID, old(w.room), w.edge)
    ensures var stream := Frames(ms, c, networkID);
            w.written == if |stream| <= old(w.room) then stream else stream[..old(w.room)]
  {
    hide Frame, Stuck;
    sent := 0;
    ghost var stream := Frames(ms, c, networkID);
    while sent < |ms|
      invariant sent <= |ms| && w.Valid() && w.buffered == [] && !w.failed
      invariant AllSendable(ms[sent..], c, networkID)
      invariant w.written + Frames(ms[sent..], c, networkID) == stream
      invariant w.room + |w.written| == old(w.room)
      invariant Whole(ms, c, networkID, old(w.room), w.edge)
             == sent + Whole(ms[sent..], c, networkID, w.room, w.edge)
    {
      var m := ms[sent];
      assert m in ms && ms[sent..][0] == m && ms[sent..][1..] == ms[sent + 1..];
      ghost var frame, rest, out := FrameOf(m, c, networkID), Frames(ms[sent + 1..], c, networkID), w.written;
      assert out + (frame + rest) == (out + frame) + rest;
      assert [] + frame == frame;
      var r := SendMessage(w, m.settings, c, m.body);
      if !r.Ok? {
        StuckPrefix(w, out, frame, rest, old(w.room));
        return;
      }
      sent := sent + 1;
    }
  }

  lemma StuckPrefix(w: Writer, out: Bytes, frame: Bytes, rest: Bytes, room: nat)
    requires |out| <= room && Stuck(w, out, frame, room - |out|)
    ensures room <= |out + frame + rest| && w.written == (out + frame + rest)[..room]
  {
  }

  /**
   Messages through a connection, from the sender to the receiver, however the bytes are
   buffered, cut short and delivered. The receiver gets in order exactly the messages whose
   frames came through whole. When neither end reports an error with a byte it handled,
   these are exactly the messages the sender saw sent.
   */
  method Transfer(w: Writer, ms: seq<Message>, networkID: nat, c: Codec, chop: Bytes -> seq<Bytes>, early: bool)
    returns (sent: nat, rs: seq<Received>)
    requires w.Valid() && w.written == w.buffered == [] && !w.failed
    requires Inverse(c) && AllSendable(ms, c, networkID)
    requires forall b :: Flatten(chop(b)) == b
    modifies w
    ensures sent == Whole(ms, c, networkID, old(w.room), w.edge)
    ensures var stream := Frames(ms, c, networkID);
            var n := if |stream| <= old(w.room) then |stream| else old(w.room);
            var k := Whole(ms, c, networkID, n, EdgeOf(chop(w.written), early));
            rs == Bodies(ms[..k]) + Misses(|ms| - k)
    ensures !early && !w.edge ==> rs == Bodies(ms[..sent]) + Misses(|ms| - sent)
  {
    hide Frames, Whole, Bodies, Misses, Flatten, ParseMany, Parse, Inverse, AllSendable;
    sent := SendMany(w, ms, networkID, c);
    var conn := new Conn(chop(w.written), early);
    ghost var stream := Frames(ms, c, networkID);
    ghost var n := if |stream| <= old(w.room) then |stream| else old(w.room);
    assert w.written == stream[..n];
    ghost var edge := conn.Edge();
    CutStream(ms, c, networkID, n, edge);
    SameWhole(ms, c, networkID, old(w.room));
    assert !early ==> !edge by {
      NoEdge(conn.chunks);
    }
    rs := ReceiveMany(conn, networkID, c, |ms|);
  }

  /** Room beyond the end of the stream makes no difference. */
  lemma {:induction false} SameWhole(ms: seq<Message>, c: Codec, networkID: nat, room: nat)
    requires AllSendable(ms, c, networkID)
    ensures room > |Frames(ms, c, networkID)| ==>
              Whole(ms, c, networkID, room, false) == Whole(ms, c, networkID, |Frames(ms, c, networkID)|, false)
  {
    if ms != [] && room > |Frames(ms, c, networkID)| {
      hide FrameOf, Sendable;
      assert ms[0] in ms;
      SameWhole(ms[1..], c, networkID, room - |FrameOf(ms[0], c, networkID)|);
    }
  }

  lemma Advance(out: Bytes, stream: Bytes, done: nat, end: nat, n: nat)
    requires done + n <= end <= |stream|
    ensures out + stream[..done] + stream[done..end][..n] == out + stream[..done + n]
    ensures n == end - done ==> stream[done..end][..n] == stream[done..end]
  {
  }

  lemma Joined(stream: Bytes, done: nat, end: nat, n: nat)
    requires done <= end && end + n <= |stream|
    ensures stream[done..end] + stream[end..][..n] == stream[done..end + n]
  {
  }

  lemma Tail(buffered: Bytes, b: Bytes, n: nat)
    requires n <= |b|
    ensures (buffered + b)[|buffered| + n..] == b[n..]
  {
  }

  lemma Nothing(w: Writer, b: Bytes)
    ensures At(w, w.written, w.buffered + b, |w.buffered|, w.room)
  {
    assert Done(w, w.written, w.buffered + b, |w.buffered|, w.room, 0);
  }

  lemma DoneIsAt(w: Writer, out: Bytes, stream: Bytes, end: nat, room: nat)
    requires end <= |stream| && end <= room && Fits(end, room, w.edge) && w.room == room - end
    requires w.written == out + stream[..end] && w.buffered == []
    ensures At(w, out, stream, end, room)
  {
    assert Done(w, out, stream, end, room, end);
  }

  /** Of the first `end` bytes of `stream`, `done` have gone to the connection after `out`; the rest is buffered. */
  ghost predicate Done(w: Writer, out: Bytes, stream: Bytes, end: nat, room: nat, done: nat)
    reads w
  {
    done <= end <= |stream| && done <= room && Fits(done, room, w.edge) && w.room == room - done
    && w.written == out + stream[..done] && w.buffered == stream[done..end]
  }

  ghost predicate At(w: Writer, out: Bytes, stream: Bytes, end: nat, room: nat)
    reads w
  {
    exists done: nat :: Done(w, out, stream, end, room, done)
  }

  /** The connection has failed on `stream`, after all the bytes it had room for. */
  ghost predicate Stuck(w: Writer, out: Bytes, stream: Bytes, room: nat)
    reads w
  {
    w.failed && !Fits(|stream|, room, w.edge) && w.written == out + stream[..room]
  }

}
