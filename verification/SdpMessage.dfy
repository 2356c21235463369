/**
 SDP messages: the printer of protocols/sdp/encoder.go and the section-wise decoder of
 protocols/sdp/decoder.go, on sequences of lines.
 */
module SdpMessage {

  import opened SdpNumbers
  import opened SdpText
  import opened SdpFields

  datatype Encryption = Encryption(method_: string, key: string)

  datatype Attribute = Attribute(key: string, value: string)

  datatype Media = Media(
    title: string, description: MediaDescription, connection: ConnectionData,
    attributes: seq<Attribute>, encryption: Encryption, bandwidths: map<string, int>)

  datatype Message = Message(
    version: int, origin: Origin, name: string, info: string, email: string, phone: string, uri: string,
    connection: ConnectionData, attributes: seq<Attribute>, medias: seq<Media>, encryption: Encryption,
    bandwidths: map<string, int>, timing: seq<Timing>, zones: seq<TimeZone>)

  const NO_ENCRYPTION := Encryption("", "")

  const BLANK_MEDIA := Media("", MediaDescription("", 0, 0, "", []), BLANK_CONNECTION, [], NO_ENCRYPTION, map[])

  const BLANK_MESSAGE :=
    Message(0, Origin("", 0, 0, "", "", ""), "", "", "", "", "", BLANK_CONNECTION, [], [], NO_ENCRYPTION, map[], [], [])

  // ----- Printing -----

  function OptionalLine(t: char, v: string): Session {
    if v == "" then [] else [Line(t, v)]
  }

  function ConnectionLines(net: Net, c: ConnectionData): Session {
    if c == BLANK_CONNECTION then [] else [Line('c', ConnectionText(net, c))]
  }

  /** A map is enumerated in an order that may be different every time. */
  predicate Enumerates(order: seq<string>, b: map<string, int>) {
    && (forall i, j | 0 <= i < j < |order| :: order[i] != order[j])
    && (forall k | k in order :: k in b)
    && forall k | k in b :: k in order
  }

  function BandwidthLines(order: seq<string>, b: map<string, int>): Session
    requires forall k | k in order :: k in b
  {
    if order == [] then [] else [Line('b', BandwidthText(order[0], b[order[0]]))] + BandwidthLines(order[1..], b)
  }

  function RepeatLines(t: Timing): Session {
    if t.offsets == [] then [] else [Line('r', RepeatText(t.repeat, t.active, t.offsets))]
  }

  function TimingLines(ts: seq<Timing>): Session {
    if ts == [] then []
    else [Line('t', TimingText(ts[0].start, ts[0].end))] + RepeatLines(ts[0]) + TimingLines(ts[1..])
  }

  lemma TimingUnfolds(ts: seq<Timing>)
    requires ts != []
    ensures TimingLines(ts) == [Line('t', TimingText(ts[0].start, ts[0].end))] + RepeatLines(ts[0]) + TimingLines(ts[1..])
    ensures TimingLines(ts) != [] && TimingLines(ts)[0].t == 't'
  {
    hide TimingText, RepeatLines;
  }

  lemma NoTimings()
    ensures TimingLines([]) == []
  {
  }

  function ZoneLines(zs: seq<TimeZone>): Session {
    if zs == [] then [] else [Line('z', ZonesText(zs))]
  }

  function EncryptionLines(e: Encryption): Session {
    if e == NO_ENCRYPTION then [] else [Line('k', KV(e.method_, e.key))]
  }

  /** `appendAttributes`. */
  function AttributeLines(attrs: seq<Attribute>): Session {
    if attrs == [] then [] else [Line('a', KV(attrs[0].key, attrs[0].value))] + AttributeLines(attrs[1..])
  }

  function MediaLines(net: Net, d: Media, order: seq<string>): Session
    requires Enumerates(order, d.bandwidths)
  {
    [Line('m', MediaText(d.description))] + OptionalLine('i', d.title) + ConnectionLines(net, d.connection)
    + BandwidthLines(order, d.bandwidths) + EncryptionLines(d.encryption) + AttributeLines(d.attributes)
  }

  function MediasLines(net: Net, ds: seq<Media>, orders: seq<seq<string>>): Session
    requires |orders| == |ds| && forall i | 0 <= i < |ds| :: Enumerates(orders[i], ds[i].bandwidths)
  {
    if ds == [] then []
    else
      assert Enumerates(orders[0], ds[0].bandwidths);
      MediaLines(net, ds[0], orders[0]) + MediasLines(net, ds[1..], orders[1..])
  }

  predicate Ordered(m: Message, order: seq<string>, orders: seq<seq<string>>) {
    Enumerates(order, m.bandwidths) && |orders| == |m.medias|
    && forall i | 0 <= i < |orders| :: Enumerates(orders[i], m.medias[i].bandwidths)
  }

  /** `Message.Append`. */
  function Append(net: Net, m: Message, order: seq<string>, orders: seq<seq<string>>): Session
    requires Ordered(m, order, orders)
  {
    [Line('v', Int(m.version)), Line('o', OriginText(m.origin)), Line('s', m.name)]
    + OptionalLine('i', m.info) + OptionalLine('u', m.uri) + OptionalLine('e', m.email) + OptionalLine('p', m.phone)
    + ConnectionLines(net, m.connection) + BandwidthLines(order, m.bandwidths)
    + TimingLines(m.timing) + ZoneLines(m.zones) + EncryptionLines(m.encryption) + AttributeLines(m.attributes)
    + MediasLines(net, m.medias, orders)
  }

  // ----- Ordering tables -----

  datatype Section = InSession | InTime | InMedia

  const AFTER_TIME := 10

  /** `getOrdering`. */
  function Ordering(s: Section): string {
    match s
    case InSession => "vosiuepcbzka"
    case InTime => "tr"
    case InMedia => "micbka"
  }

  predicate IsKnown(t: char) {
    t in "vosiuepcbtrzkam"
  }

  function Rank(s: Section, pos: nat): nat {
    match s
    case InSession => if pos < AFTER_TIME then 4 else 2
    case InTime => 3
    case InMedia => if pos == 0 then 0 else 1
  }

  /** `isExpected` returns no error. */
  predicate IsExpected(t: char, s: Section, pos: nat)
    decreases Rank(s, pos)
  {
    || (pos < |Ordering(s)| && t in Ordering(s)[pos..])
    || match s
       case InSession => (pos < AFTER_TIME && IsExpected(t, InTime, 0)) || IsExpected(t, InMedia, 0)
       case InTime => IsExpected(t, InSession, AFTER_TIME)
       case InMedia => pos != 0 && IsExpected(t, InMedia, 0)
  }

  /** Which types are expected where, without the detours: media lines always, time lines until there was one. */
  lemma ExpectedWhere(t: char, s: Section, pos: nat)
    ensures IsExpected(t, s, pos) <==>
              || t in "micbka"
              || (s == InSession && pos < 10 && (t == 't' || t == 'r'))
              || (s == InSession && pos < 12 && t in "vosiuepcbzka"[pos..])
              || (s == InTime && ((pos == 0 && t == 't') || (pos <= 1 && t == 'r')))
  {
    MediaExpects(t, pos);
    MediaExpects(t, 0);
    SessionExpects(t, AFTER_TIME);
    if s == InSession {
      SessionExpects(t, pos);
    }
    TimeTail(pos, t);
  }

  lemma MediaExpects(t: char, pos: nat)
    ensures IsExpected(t, InMedia, pos) <==> t in "micbka"
  {
    assert "micbka"[0..] == "micbka";
    assert pos < 6 && t in "micbka"[pos..] ==> t in "micbka";
  }

  lemma TimeTail(pos: nat, t: char)
    ensures pos < 2 ==> (t in "tr"[pos..] <==> (pos == 0 && t == 't') || t == 'r')
  {
    assert "tr"[0..] == "tr" && "tr"[1..] == "r";
  }

  lemma SessionExpects(t: char, pos: nat)
    ensures IsExpected(t, InSession, pos) <==>
              || (pos < 12 && t in "vosiuepcbzka"[pos..])
              || (pos < 10 && IsExpected(t, InTime, 0)) || t in "micbka"
  {
    MediaExpects(t, 0);
  }

  /** Types that are expected anywhere are known. */
  lemma {:induction false} ExpectedIsKnown(t: char, s: Section, pos: nat)
    requires IsExpected(t, s, pos)
    ensures IsKnown(t)
    decreases Rank(s, pos)
  {
    if pos < |Ordering(s)| && t in Ordering(s)[pos..] {
      assert t in Ordering(s);
    } else if s == InSession && pos < AFTER_TIME && IsExpected(t, InTime, 0) {
      ExpectedIsKnown(t, InTime, 0);
    } else if s == InTime {
      ExpectedIsKnown(t, InSession, AFTER_TIME);
    } else {
      ExpectedIsKnown(t, InMedia, 0);
    }
  }

  /** Bandwidth and attribute lines may come any number of times. */
  function Advanced(t: char, pos: nat): nat {
    if t == 'b' || t == 'a' then pos else pos + 1
  }

  // ----- Decoding -----

  /** `decodeField` on the message and the current media. */
  function DecodeField(net: Net, s: Section, l: Line, m: Message, d: Media): Result<(Message, Media)> {
    match l.t
    case 'v' =>
      (match Atoi(l.value)
       case Ok(n) => Ok((m.(version := n), d))
       case _ => Err)
    case 'o' =>
      (match DecodeOrigin(l.value)
       case Ok(o) => Ok((m.(origin := o), d))
       case _ => Err)
    case 's' => Ok((m.(name := l.value), d))
    case 'i' => Ok(if s == InMedia then (m, d.(title := l.value)) else (m.(info := l.value), d))
    case 'u' => Ok((m.(uri := l.value), d))
    case 'e' => Ok((m.(email := l.value), d))
    case 'p' => Ok((m.(phone := l.value), d))
    case 'c' =>
      (match DecodeConnection(net, s == InMedia, l.value, m.connection, d.connection)
       case Ok((x, y)) => Ok((m.(connection := x), d.(connection := y)))
       case _ => Err)
    case 'b' =>
      (match DecodeBandwidth(l.value)
       case Ok((k, n)) =>
         Ok(if s == InMedia then (m, d.(bandwidths := d.bandwidths[k := n])) else (m.(bandwidths := m.bandwidths[k := n]), d))
       case _ => Err)
    case 't' =>
      (match DecodeTiming(l.value)
       case Ok(t) => Ok((m.(timing := m.timing + [t]), d))
       case _ => Err)
    case 'r' =>
      if m.timing == [] then Err
      else
        (match DecodeRepeat(l.value)
         case Ok(_) => Ok((m, d))
         case Err => Err
         case Panic => Panic)
    case 'z' =>
      (match DecodeZones(l.value)
       case Ok(zs) => Ok((m.(zones := m.zones + zs), d))
       case Err => Err
       case Panic => Panic)
    case 'k' =>
      (match DecodeKV(l.value)
       case Ok((k, v)) =>
         var e := Encryption(k, v);
         Ok(if s == InMedia then (m, d.(encryption := e)) else (m.(encryption := e), d))
       case _ => Err)
    case 'a' =>
      (match DecodeKV(l.value)
       case Ok((k, v)) =>
         var a := Attribute(k, v);
         Ok(if s == InMedia then (m, d.(attributes := d.attributes + [a])) else (m.(attributes := m.attributes + [a]), d))
       case _ => Err)
    case _ =>
      (match DecodeMedia(l.value)
       case Ok(x) => Ok((m, d.(description := x)))
       case _ => Err)
  }

  /** `decodeTiming`, from the given lines on: the message and the lines left. */
  function TimeLoop(net: Net, lines: Session, pos: nat, m: Message): (r: Result<(Message, Session)>)
    ensures r.Ok? ==> |r.value.1| <= |lines|
    ensures r.Ok? && lines != [] && lines[0].t == 't' && pos == 0 ==> |r.value.1| < |lines|
    decreases |lines|
  {
    if lines == [] then Ok((m, []))
    else
      var l := lines[0];
      if !IsExpected(l.t, InTime, pos) then
        if IsKnown(l.t) then Err else TimeLoop(net, lines[1..], pos, m)
      else if l.t == 't' || l.t == 'r' then
        match DecodeField(net, InTime, l, m, BLANK_MEDIA)
        case Ok((m', _)) => TimeLoop(net, lines[1..], Advanced(l.t, pos), m')
        case Err => Err
        case Panic => Panic
      else Ok((m, lines))
  }

  /** `decodeMedia`: the message, the media, and the lines left. */
  function MediaLoop(net: Net, lines: Session, pos: nat, m: Message, d: Media): (r: Result<(Message, Media, Session)>)
    ensures r.Ok? ==> |r.value.2| <= |lines|
    ensures r.Ok? && lines != [] && lines[0].t == 'm' && pos == 0 ==> |r.value.2| < |lines|
    decreases |lines|
  {
    if lines == [] then Ok((m, d, []))
    else
      var l := lines[0];
      if !IsExpected(l.t, InMedia, pos) then
        if IsKnown(l.t) then Err else MediaLoop(net, lines[1..], pos, m, d)
      else if l.t == 'm' && pos != 0 then Ok((m, d, lines))
      else
        match DecodeField(net, InMedia, l, m, d)
        case Ok((m', d')) => MediaLoop(net, lines[1..], Advanced(l.t, pos), m', d')
        case Err => Err
        case Panic => Panic
  }

  /** `decodeSession`. */
  function SessionLoop(net: Net, lines: Session, pos: nat, m: Message): Result<Message>
    decreases |lines|
  {
    if lines == [] then Ok(m)
    else
      var l := lines[0];
      var pos' := Advanced(l.t, pos);
      if !IsExpected(l.t, InSession, pos) then
        if IsKnown(l.t) then Err else SessionLoop(net, lines[1..], pos, m)
      else if l.t == 't' then
        match TimeLoop(net, lines, 0, m)
        case Ok((m', rest)) => SessionLoop(net, rest, pos', m')
        case Err => Err
        case Panic => Panic
      else if l.t == 'm' then
        match MediaLoop(net, lines, 0, m, BLANK_MEDIA)
        case Ok((m', d, rest)) => SessionLoop(net, rest, pos', m'.(medias := m'.medias + [d]))
        case Err => Err
        case Panic => Panic
      else
        match DecodeField(net, InSession, l, m, BLANK_MEDIA)
        case Ok((m', _)) => SessionLoop(net, lines[1..], pos', m')
        case Err => Err
        case Panic => Panic
  }

  lemma SessionUnfolds(net: Net, lines: Session, pos: nat, m: Message)
    ensures lines == [] ==> SessionLoop(net, lines, pos, m) == Ok(m)
    ensures lines != [] ==>
              var l := lines[0];
              var pos', rest, time, media := Advanced(l.t, pos), lines[1..],
                                             TimeLoop(net, lines, 0, m), MediaLoop(net, lines, 0, m, BLANK_MEDIA);
              var field := DecodeField(net, InSession, l, m, BLANK_MEDIA);
              SessionLoop(net, lines, pos, m) ==
                if !IsExpected(l.t, InSession, pos) then if IsKnown(l.t) then Err else SessionLoop(net, rest, pos, m)
                else if l.t == 't' then
                  if time.Ok? then SessionLoop(net, time.value.1, pos', time.value.0)
                  else if time.Err? then Err else Panic
                else if l.t == 'm' then
                  if media.Ok?
                  then SessionLoop(net, media.value.2, pos',
                                   media.value.0.(medias := media.value.0.medias + [media.value.1]))
                  else if media.Err? then Err else Panic
                else if field.Ok? then SessionLoop(net, rest, pos', field.value.0)
                else if field.Err? then Err else Panic
  {
    hide IsExpected, IsKnown, DecodeField, TimeLoop, MediaLoop;
  }

  /** `Decoder.Decode` into an empty message. */
  function Decode(net: Net, lines: Session): Result<Message> {
    match SessionLoop(net, lines, 0, BLANK_MESSAGE)
    case Ok(m) => if m.origin.address == "" || m.name == "" then Err else Ok(m)
    case r => r
  }
}
