/**
 What the decoder makes of a printed message, for every message made of well-formed
 fields, and exactly which messages it gives back.
 */
module SdpRoundTrip {

  import opened SdpNumbers
  import opened SdpText
  import opened SdpFields
  import opened SdpMessage

  // ----- Single lines -----

  lemma ExpectedInSession(t: char, pos: nat, i: nat)
    requires i < 12 && Ordering(InSession)[i] == t && pos <= i
    ensures IsExpected(t, InSession, pos)
  {
    assert Ordering(InSession)[pos..][i - pos] == t;
  }

  lemma ExpectedInMedia(t: char, pos: nat, i: nat)
    requires i < 6 && Ordering(InMedia)[i] == t && pos <= i
    ensures IsExpected(t, InMedia, pos)
  {
    assert Ordering(InMedia)[pos..][i - pos] == t;
  }

  function ThenSession(net: Net, r: Result<(Message, Media)>, rest: Session, pos: nat): Result<Message> {
    match r
    case Ok((m, _)) => SessionLoop(net, rest, pos, m)
    case Err => Err
    case Panic => Panic
  }

  /** A line of the session that is in its place is decoded and the position moves on. */
  lemma SessionField(net: Net, l: Line, rest: Session, pos: nat, m: Message, i: nat)
    requires i < 12 && Ordering(InSession)[i] == l.t && pos <= i
    ensures SessionLoop(net, [l] + rest, pos, m)
         == ThenSession(net, DecodeField(net, InSession, l, m, BLANK_MEDIA), rest, Advanced(l.t, pos))
  {
    ExpectedInSession(l.t, pos, i);
    assert l.t != 't' && l.t != 'm';
    assert ([l] + rest)[1..] == rest;
    hide IsExpected, DecodeField, TimeLoop, MediaLoop, Ordering, IsKnown;
  }

  function ThenMedia(net: Net, r: Result<(Message, Media)>, rest: Session, pos: nat): Result<(Message, Media, Session)> {
    match r
    case Ok((m, d)) => MediaLoop(net, rest, pos, m, d)
    case Err => Err
    case Panic => Panic
  }

  lemma MediaField(net: Net, l: Line, rest: Session, pos: nat, m: Message, d: Media, i: nat)
    requires i < 6 && Ordering(InMedia)[i] == l.t && pos <= i
    ensures MediaLoop(net, [l] + rest, pos, m, d)
         == ThenMedia(net, DecodeField(net, InMedia, l, m, d), rest, Advanced(l.t, pos))
  {
    ExpectedInMedia(l.t, pos, i);
    assert l.t == 'm' ==> pos == 0;
    assert ([l] + rest)[1..] == rest;
    hide IsExpected, DecodeField, Ordering, IsKnown;
  }

  // ----- Single fields -----

  predicate GoodKey(k: string) {
    ':' !in k
  }

  predicate GoodKeys(attrs: seq<Attribute>) {
    forall a | a in attrs :: GoodKey(a.key)
  }

  lemma GoodKeysStep(attrs: seq<Attribute>)
    requires GoodKeys(attrs) && attrs != []
    ensures GoodKey(attrs[0].key) && GoodKeys(attrs[1..])
  {
  }

  lemma AttributeReads(net: Net, s: Section, a: Attribute, m: Message, d: Media)
    requires GoodKey(a.key)
    ensures DecodeField(net, s, Line('a', KV(a.key, a.value)), m, d)
         == Ok(if s == InMedia then (m, d.(attributes := d.attributes + [a])) else (m.(attributes := m.attributes + [a]), d))
  {
    hide Atoi, DecodeOrigin, DecodeConnection, DecodeBandwidth, DecodeTiming, DecodeRepeat, DecodeZones, DecodeKV,
         DecodeMedia, KV;
    KVRoundTrip(a.key, a.value);
  }

  lemma EncryptionReads(net: Net, s: Section, e: Encryption, m: Message, d: Media)
    requires GoodKey(e.method_)
    ensures DecodeField(net, s, Line('k', KV(e.method_, e.key)), m, d)
         == Ok(if s == InMedia then (m, d.(encryption := e)) else (m.(encryption := e), d))
  {
    hide Atoi, DecodeOrigin, DecodeConnection, DecodeBandwidth, DecodeTiming, DecodeRepeat, DecodeZones, DecodeKV,
         DecodeMedia, KV;
    KVRoundTrip(e.method_, e.key);
  }

  lemma BandwidthReads(net: Net, s: Section, k: string, n: int, m: Message, d: Media)
    requires k in BANDWIDTH_TYPES && Int64(n)
    ensures DecodeField(net, s, Line('b', BandwidthText(k, n)), m, d)
         == Ok(if s == InMedia then (m, d.(bandwidths := d.bandwidths[k := n]))
               else (m.(bandwidths := m.bandwidths[k := n]), d))
  {
    hide Atoi, DecodeOrigin, DecodeConnection, DecodeBandwidth, DecodeTiming, DecodeRepeat, DecodeZones, DecodeKV,
         DecodeMedia, BandwidthText;
    BandwidthRoundTrip(k, n);
  }

  // ----- Fields of the session -----

  function Present(b: bool): nat {
    if b then 1 else 0
  }

  lemma PresentIs()
    ensures Present(true) == 1 && Present(false) == 0
  {
  }

  lemma SessionText(net: Net, t: char, v: string, rest: Session, pos: nat, m: Message)
    requires (t == 'i' && pos <= 3 && m.info == "") || (t == 'u' && pos <= 4 && m.uri == "")
          || (t == 'e' && pos <= 5 && m.email == "") || (t == 'p' && pos <= 6 && m.phone == "")
    ensures SessionLoop(net, OptionalLine(t, v) + rest, pos, m)
         == SessionLoop(net, rest, pos + Present(v != ""),
              if t == 'i' then m.(info := v) else if t == 'u' then m.(uri := v)
              else if t == 'e' then m.(email := v) else m.(phone := v))
  {
    hide SessionLoop;
    if v == "" {
      assert OptionalLine(t, v) + rest == rest;
    } else {
      SessionField(net, Line(t, v), rest, pos, m, if t == 'i' then 3 else if t == 'u' then 4 else if t == 'e' then 5 else 6);
    }
  }

  lemma SessionConnection(net: Net, c: ConnectionData, rest: Session, pos: nat, m: Message)
    requires Faithful(net) && GoodConnection(c) && pos <= 7 && m.connection == BLANK_CONNECTION
    ensures SessionLoop(net, ConnectionLines(net, c) + rest, pos, m)
         == if c == BLANK_CONNECTION then SessionLoop(net, rest, pos, m)
            else if !Readable(c) then Err
            else SessionLoop(net, rest, pos + 1, m.(connection := SeenConnection(false, c)))
  {
    hide SessionLoop, ConnectionText, DecodeConnection;
    if c == BLANK_CONNECTION {
      assert ConnectionLines(net, c) + rest == rest;
    } else {
      ConnectionRead(net, false, c, m.connection, BLANK_MEDIA.connection);
      SessionField(net, Line('c', ConnectionText(net, c)), rest, pos, m, 7);
    }
  }

  /** A map with the given keys updated in turn. */
  function Updated(b: map<string, int>, order: seq<string>, from: map<string, int>): map<string, int>
    requires forall k | k in order :: k in from
    decreases |order|
  {
    if order == [] then b else Updated(b[order[0] := from[order[0]]], order[1..], from)
  }

  predicate GoodBandwidths(b: map<string, int>) {
    forall k | k in b :: k in BANDWIDTH_TYPES && Int64(b[k])
  }

  lemma {:induction false} UpdatedHas(b: map<string, int>, order: seq<string>, from: map<string, int>)
    requires forall k | k in order :: k in from
    ensures forall k :: k in Updated(b, order, from) <==> k in b || k in order
    ensures forall k | k in order :: Updated(b, order, from)[k] == from[k]
    ensures forall k | k in b && k !in order :: Updated(b, order, from)[k] == b[k]
    decreases |order|
  {
    if order != [] {
      UpdatedHas(b[order[0] := from[order[0]]], order[1..], from);
    }
  }

  lemma UpdatedAll(order: seq<string>, b: map<string, int>)
    requires Enumerates(order, b)
    ensures Updated(map[], order, b) == b
  {
    UpdatedHas(map[], order, b);
  }

  lemma {:induction false} SessionBandwidths(net: Net, order: seq<string>, b: map<string, int>, rest: Session, pos: nat, m: Message)
    requires (forall k | k in order :: k in b) && GoodBandwidths(b) && pos <= 8
    ensures SessionLoop(net, BandwidthLines(order, b) + rest, pos, m)
         == SessionLoop(net, rest, pos, m.(bandwidths := Updated(m.bandwidths, order, b)))
    decreases |order|
  {
    hide SessionLoop, BandwidthText, DecodeField;
    if order == [] {
      assert BandwidthLines(order, b) + rest == rest;
      assert m.(bandwidths := m.bandwidths) == m;
    } else {
      var k, more := order[0], BandwidthLines(order[1..], b);
      var l := Line('b', BandwidthText(k, b[k]));
      assert BandwidthLines(order, b) + rest == [l] + (more + rest);
      BandwidthReads(net, InSession, k, b[k], m, BLANK_MEDIA);
      SessionField(net, l, more + rest, pos, m, 8);
      SessionBandwidths(net, order[1..], b, rest, pos, m.(bandwidths := m.bandwidths[k := b[k]]));
    }
  }

  lemma SessionZones(net: Net, zs: seq<TimeZone>, rest: Session, pos: nat, m: Message)
    requires (forall z | z in zs :: GoodZone(z)) && pos <= 9 && m.zones == []
    ensures SessionLoop(net, ZoneLines(zs) + rest, pos, m)
         == SessionLoop(net, rest, pos + Present(zs != []), m.(zones := zs))
  {
    hide SessionLoop, DecodeZones, ZonesText;
    if zs == [] {
      assert ZoneLines(zs) + rest == rest;
    } else {
      ZonesRoundTrip(zs);
      SessionField(net, Line('z', ZonesText(zs)), rest, pos, m, 9);
      assert m.zones + zs == zs;
    }
  }

  lemma SessionEncryption(net: Net, e: Encryption, rest: Session, pos: nat, m: Message)
    requires GoodKey(e.method_) && pos <= 10 && m.encryption == NO_ENCRYPTION
    ensures SessionLoop(net, EncryptionLines(e) + rest, pos, m)
         == SessionLoop(net, rest, pos + Present(e != NO_ENCRYPTION), m.(encryption := e))
  {
    hide SessionLoop, DecodeField, KV;
    if e == NO_ENCRYPTION {
      assert EncryptionLines(e) + rest == rest;
    } else {
      EncryptionReads(net, InSession, e, m, BLANK_MEDIA);
      SessionField(net, Line('k', KV(e.method_, e.key)), rest, pos, m, 10);
    }
  }

  lemma AttributesSplit(attrs: seq<Attribute>, rest: Session)
    requires attrs != []
    ensures AttributeLines(attrs) + rest
         == [Line('a', KV(attrs[0].key, attrs[0].value))] + (AttributeLines(attrs[1..]) + rest)
  {
    hide KV;
  }

  lemma {:induction false} SessionAttributes(net: Net, attrs: seq<Attribute>, rest: Session, pos: nat, m: Message)
    requires GoodKeys(attrs) && pos <= 11
    ensures SessionLoop(net, AttributeLines(attrs) + rest, pos, m)
         == SessionLoop(net, rest, pos, m.(attributes := m.attributes + attrs))
    decreases |attrs|
  {
    hide *;
    if attrs == [] {
      NoAttributes(rest, m, BLANK_MEDIA);
    } else {
      AttributePlace(pos);
      var a, more := attrs[0], AttributeLines(attrs[1..]) + rest;
      var m' := m.(attributes := m.attributes + [a]);
      AttributesSplit(attrs, rest);
      GoodKeysStep(attrs);
      AttributeReads(net, InSession, a, m, BLANK_MEDIA);
      SessionField(net, Line('a', KV(a.key, a.value)), more, pos, m, 11);
      ThenSessionOk(net, m', BLANK_MEDIA, more, pos);
      SessionAttributes(net, attrs[1..], rest, pos, m');
      AppendRest(m.attributes, attrs);
    }
  }

  lemma NoAttributes(rest: Session, m: Message, d: Media)
    ensures AttributeLines([]) + rest == rest
    ensures m.(attributes := m.attributes + []) == m && d.(attributes := d.attributes + []) == d
  {
    assert m.attributes + [] == m.attributes && d.attributes + [] == d.attributes;
  }

  lemma AttributePlace(pos: nat)
    ensures Advanced('a', pos) == pos
    ensures |Ordering(InSession)| == 12 && Ordering(InSession)[11] == 'a'
    ensures |Ordering(InMedia)| == 6 && Ordering(InMedia)[5] == 'a'
  {
  }

  lemma AppendRest<T>(x: seq<T>, s: seq<T>)
    requires s != []
    ensures x + [s[0]] + s[1..] == x + s
  {
  }

  lemma ThenSessionOk(net: Net, m: Message, d: Media, rest: Session, pos: nat)
    ensures ThenSession(net, Ok((m, d)), rest, pos) == SessionLoop(net, rest, pos, m)
  {
  }

  lemma ThenMediaOk(net: Net, m: Message, d: Media, rest: Session, pos: nat)
    ensures ThenMedia(net, Ok((m, d)), rest, pos) == MediaLoop(net, rest, pos, m, d)
  {
  }

  // ----- Fields of a media section -----

  lemma MediaTitle(net: Net, v: string, rest: Session, m: Message, d: Media)
    requires d.title == ""
    ensures MediaLoop(net, OptionalLine('i', v) + rest, 1, m, d)
         == MediaLoop(net, rest, 1 + Present(v != ""), m, d.(title := v))
  {
    hide MediaLoop;
    if v == "" {
      assert OptionalLine('i', v) + rest == rest;
    } else {
      MediaField(net, Line('i', v), rest, 1, m, d, 1);
    }
  }

  lemma MediaConnection(net: Net, c: ConnectionData, rest: Session, pos: nat, m: Message, d: Media)
    requires Faithful(net) && GoodConnection(c) && pos <= 2 && d.connection == BLANK_CONNECTION
    ensures MediaLoop(net, ConnectionLines(net, c) + rest, pos, m, d)
         == if c == BLANK_CONNECTION then MediaLoop(net, rest, pos, m, d)
            else if !Readable(c) then Err
            else MediaLoop(net, rest, pos + 1, m.(connection := SeenSession(c, m.connection)),
                           d.(connection := SeenConnection(true, c)))
  {
    hide MediaLoop, ConnectionText, DecodeConnection;
    if c == BLANK_CONNECTION {
      assert ConnectionLines(net, c) + rest == rest;
    } else {
      ConnectionRead(net, true, c, m.connection, d.connection);
      MediaField(net, Line('c', ConnectionText(net, c)), rest, pos, m, d, 2);
    }
  }

  lemma {:induction false} MediaBandwidths(net: Net, order: seq<string>, b: map<string, int>, rest: Session, pos: nat,
                                           m: Message, d: Media)
    requires (forall k | k in order :: k in b) && GoodBandwidths(b) && pos <= 3
    ensures MediaLoop(net, BandwidthLines(order, b) + rest, pos, m, d)
         == MediaLoop(net, rest, pos, m, d.(bandwidths := Updated(d.bandwidths, order, b)))
    decreases |order|
  {
    hide MediaLoop, BandwidthText, DecodeField;
    if order == [] {
      assert BandwidthLines(order, b) + rest == rest;
      assert d.(bandwidths := d.bandwidths) == d;
    } else {
      var k, more := order[0], BandwidthLines(order[1..], b);
      var l := Line('b', BandwidthText(k, b[k]));
      assert BandwidthLines(order, b) + rest == [l] + (more + rest);
      BandwidthReads(net, InMedia, k, b[k], m, d);
      MediaField(net, l, more + rest, pos, m, d, 3);
      MediaBandwidths(net, order[1..], b, rest, pos, m, d.(bandwidths := d.bandwidths[k := b[k]]));
    }
  }

  lemma MediaEncryption(net: Net, e: Encryption, rest: Session, pos: nat, m: Message, d: Media)
    requires GoodKey(e.method_) && pos <= 4 && d.encryption == NO_ENCRYPTION
    ensures MediaLoop(net, EncryptionLines(e) + rest, pos, m, d)
         == MediaLoop(net, rest, pos + Present(e != NO_ENCRYPTION), m, d.(encryption := e))
  {
    hide MediaLoop, DecodeField, KV;
    if e == NO_ENCRYPTION {
      assert EncryptionLines(e) + rest == rest;
    } else {
      EncryptionReads(net, InMedia, e, m, d);
      MediaField(net, Line('k', KV(e.method_, e.key)), rest, pos, m, d, 4);
    }
  }

  lemma {:induction false} MediaAttributes(net: Net, attrs: seq<Attribute>, rest: Session, pos: nat, m: Message, d: Media)
    requires GoodKeys(attrs) && pos <= 5
    ensures MediaLoop(net, AttributeLines(attrs) + rest, pos, m, d)
         == MediaLoop(net, rest, pos, m, d.(attributes := d.attributes + attrs))
    decreases |attrs|
  {
    hide *;
    if attrs == [] {
      NoAttributes(rest, BLANK_MESSAGE, d);
    } else {
      AttributePlace(pos);
      var a, more := attrs[0], AttributeLines(attrs[1..]) + rest;
      var d' := d.(attributes := d.attributes + [a]);
      AttributesSplit(attrs, rest);
      GoodKeysStep(attrs);
      AttributeReads(net, InMedia, a, m, d);
      MediaField(net, Line('a', KV(a.key, a.value)), more, pos, m, d, 5);
      ThenMediaOk(net, m, d', more, pos);
      MediaAttributes(net, attrs[1..], rest, pos, m, d');
      AppendRest(d.attributes, attrs);
    }
  }

  /** A media section ends with the lines or at the next media line. */
  lemma MediaEnds(net: Net, rest: Session, pos: nat, m: Message, d: Media)
    requires pos > 0 && (rest == [] || rest[0].t == 'm')
    ensures MediaLoop(net, rest, pos, m, d) == Ok((m, d, rest))
  {
    ExpectedInMedia('m', 0, 0);
    assert IsExpected('m', InMedia, pos);
    hide IsExpected;
  }

  predicate GoodSection(d: Media) {
    && GoodMedia(d.description) && GoodConnection(d.connection) && GoodBandwidths(d.bandwidths)
    && GoodKey(d.encryption.method_) && GoodKeys(d.attributes)
  }

  predicate Refused(c: ConnectionData) {
    c != BLANK_CONNECTION && !Readable(c)
  }

  function SeenSection(d: Media): Media {
    d.(description := SeenMedia(d.description),
       connection := if d.connection == BLANK_CONNECTION then BLANK_CONNECTION else SeenConnection(true, d.connection))
  }

  function SessionSees(c: ConnectionData, s: ConnectionData): ConnectionData {
    if c == BLANK_CONNECTION then s else SeenSession(c, s)
  }

  lemma SectionHas(d: Media)
    requires GoodSection(d)
    ensures GoodBandwidths(d.bandwidths) && GoodKey(d.encryption.method_) && GoodKeys(d.attributes)
  {
  }

  lemma MediaTail(net: Net, d: Media, order: seq<string>, rest: Session, pos: nat, m: Message, d0: Media)
    requires GoodSection(d) && Enumerates(order, d.bandwidths) && (rest == [] || rest[0].t == 'm') && 0 < pos <= 3
    requires d0.bandwidths == map[] && d0.encryption == NO_ENCRYPTION && d0.attributes == []
    ensures MediaLoop(net, BandwidthLines(order, d.bandwidths)
                           + (EncryptionLines(d.encryption) + (AttributeLines(d.attributes) + rest)), pos, m, d0)
         == Ok((m, d0.(bandwidths := d.bandwidths, encryption := d.encryption, attributes := d.attributes), rest))
  {
    hide *;
    SectionHas(d);
    EnumeratesKeys(order, d.bandwidths);
    UpdatedAll(order, d.bandwidths);
    PresentIs();
    var r5 := AttributeLines(d.attributes) + rest;
    var d3 := d0.(bandwidths := d.bandwidths);
    var d4, p4 := d3.(encryption := d.encryption), pos + Present(d.encryption != NO_ENCRYPTION);
    MediaBandwidths(net, order, d.bandwidths, EncryptionLines(d.encryption) + r5, pos, m, d0);
    MediaEncryption(net, d.encryption, r5, pos, m, d3);
    MediaAttributes(net, d.attributes, rest, p4, m, d4);
    assert [] + d.attributes == d.attributes;
    MediaEnds(net, rest, p4, m, d4.(attributes := d.attributes));
  }

  lemma MediaLinesSplit(net: Net, d: Media, order: seq<string>, rest: Session)
    requires Enumerates(order, d.bandwidths)
    ensures MediaLines(net, d, order) + rest
         == [Line('m', MediaText(d.description))] + (OptionalLine('i', d.title) + (ConnectionLines(net, d.connection)
            + (BandwidthLines(order, d.bandwidths) + (EncryptionLines(d.encryption) + (AttributeLines(d.attributes) + rest)))))
  {
    hide MediaText, OptionalLine, ConnectionLines, BandwidthLines, EncryptionLines, AttributeLines;
  }

  lemma MediaLineReads(net: Net, x: MediaDescription, m: Message, d: Media)
    requires GoodMedia(x)
    ensures DecodeField(net, InMedia, Line('m', MediaText(x)), m, d) == Ok((m, d.(description := SeenMedia(x))))
  {
    hide Atoi, DecodeOrigin, DecodeConnection, DecodeBandwidth, DecodeTiming, DecodeRepeat, DecodeZones, DecodeKV,
         DecodeMedia, MediaText, SeenMedia, GoodMedia;
    MediaRead(x);
  }

  lemma MediaSection(net: Net, d: Media, order: seq<string>, rest: Session, m: Message)
    requires Faithful(net) && GoodSection(d) && Enumerates(order, d.bandwidths) && (rest == [] || rest[0].t == 'm')
    ensures MediaLoop(net, MediaLines(net, d, order) + rest, 0, m, BLANK_MEDIA)
         == if Refused(d.connection) then Err
            else Ok((m.(connection := SessionSees(d.connection, m.connection)), SeenSection(d), rest))
  {
    hide *;
    var d1 := BLANK_MEDIA.(description := SeenMedia(d.description), title := d.title);
    EnumeratesKeys(order, d.bandwidths);
    BlankMedia();
    PresentIs();
    MediaLinesSplit(net, d, order, rest);
    MediaOpens(net, d, ConnectionLines(net, d.connection)
      + (BandwidthLines(order, d.bandwidths) + (EncryptionLines(d.encryption) + (AttributeLines(d.attributes) + rest))), m);
    MediaBody(net, d, order, rest, 1 + Present(d.title != ""), m, d1);
    SectionParts(d, m.connection);
  }

  lemma EnumeratesKeys(order: seq<string>, b: map<string, int>)
    requires Enumerates(order, b)
    ensures forall k | k in order :: k in b
  {
  }

  lemma BlankMedia()
    ensures BLANK_MEDIA.connection == BLANK_CONNECTION && BLANK_MEDIA.bandwidths == map[]
    ensures BLANK_MEDIA.encryption == NO_ENCRYPTION && BLANK_MEDIA.attributes == []
  {
  }

  lemma MediaBody(net: Net, d: Media, order: seq<string>, rest: Session, pos: nat, m: Message, d0: Media)
    requires Faithful(net) && GoodSection(d) && Enumerates(order, d.bandwidths) && (rest == [] || rest[0].t == 'm')
    requires 0 < pos <= 2 && d0.connection == BLANK_CONNECTION
    requires d0.bandwidths == map[] && d0.encryption == NO_ENCRYPTION && d0.attributes == []
    ensures MediaLoop(net, ConnectionLines(net, d.connection) + (BandwidthLines(order, d.bandwidths)
                           + (EncryptionLines(d.encryption) + (AttributeLines(d.attributes) + rest))), pos, m, d0)
         == if Refused(d.connection) then Err
            else Ok((m.(connection := SessionSees(d.connection, m.connection)),
                     d0.(connection := SeenSection(d).connection, bandwidths := d.bandwidths, encryption := d.encryption,
                         attributes := d.attributes), rest))
  {
    hide *;
    EnumeratesKeys(order, d.bandwidths);
    PresentIs();
    SectionParts(d, m.connection);
    var r3 := BandwidthLines(order, d.bandwidths) + (EncryptionLines(d.encryption) + (AttributeLines(d.attributes) + rest));
    MediaConnection(net, d.connection, r3, pos, m, d0);
    if !Refused(d.connection) {
      var m', d2 := m.(connection := SessionSees(d.connection, m.connection)), d0.(connection := SeenSection(d).connection);
      assert d0.(connection := d0.connection) == d0 && m.(connection := m.connection) == m;
      MediaTail(net, d, order, rest, pos + Present(d.connection != BLANK_CONNECTION), m', d2);
    }
  }

  /** The media line and the title. */
  lemma MediaOpens(net: Net, d: Media, rest: Session, m: Message)
    requires GoodSection(d)
    ensures MediaLoop(net, [Line('m', MediaText(d.description))] + (OptionalLine('i', d.title) + rest), 0, m, BLANK_MEDIA)
         == MediaLoop(net, rest, 1 + Present(d.title != ""), m, BLANK_MEDIA.(description := SeenMedia(d.description), title := d.title))
  {
    hide MediaLoop, DecodeField, MediaText, OptionalLine, GoodConnection, GoodMedia, SeenMedia, GoodBandwidths, GoodKeys, Present;
    MediaLineReads(net, d.description, m, BLANK_MEDIA);
    MediaField(net, Line('m', MediaText(d.description)), OptionalLine('i', d.title) + rest, 0, m, BLANK_MEDIA, 0);
    MediaTitle(net, d.title, rest, m, BLANK_MEDIA.(description := SeenMedia(d.description)));
  }

  lemma SectionParts(d: Media, s: ConnectionData)
    requires GoodSection(d)
    ensures GoodConnection(d.connection)
    ensures Refused(d.connection) <==> d.connection != BLANK_CONNECTION && !Readable(d.connection)
    ensures SessionSees(d.connection, s) == if d.connection == BLANK_CONNECTION then s else SeenSession(d.connection, s)
    ensures SeenSection(d).connection
         == if d.connection == BLANK_CONNECTION then BLANK_CONNECTION else SeenConnection(true, d.connection)
    ensures SeenSection(d) == Media(d.title, SeenMedia(d.description), SeenSection(d).connection, d.attributes, d.encryption,
                                    d.bandwidths)
  {
  }

  // ----- Media sections in a row -----

  predicate AnyRefused(ds: seq<Media>) {
    exists d | d in ds :: Refused(d.connection)
  }

  function SeenSections(ds: seq<Media>): seq<Media> {
    if ds == [] then [] else [SeenSection(ds[0])] + SeenSections(ds[1..])
  }

  /** The session's connection data, as lone suffixes of media sections overwrite its TTL. */
  function SessionAfter(ds: seq<Media>, s: ConnectionData): ConnectionData
    decreases |ds|
  {
    if ds == [] then s else SessionAfter(ds[1..], SessionSees(ds[0].connection, s))
  }

  lemma MediaExpected(pos: nat)
    ensures IsExpected('m', InSession, pos)
  {
    ExpectedInMedia('m', 0, 0);
  }

  function ThenMedias(net: Net, r: Result<(Message, Media, Session)>, pos: nat): Result<Message> {
    match r
    case Ok((m, d, rest)) => SessionLoop(net, rest, pos, m.(medias := m.medias + [d]))
    case Err => Err
    case Panic => Panic
  }

  lemma SessionMedia(net: Net, lines: Session, pos: nat, m: Message)
    requires lines != [] && lines[0].t == 'm'
    ensures SessionLoop(net, lines, pos, m) == ThenMedias(net, MediaLoop(net, lines, 0, m, BLANK_MEDIA), pos + 1)
  {
    MediaExpected(pos);
    hide IsExpected, MediaLoop, TimeLoop, DecodeField;
  }

  lemma MediasHead(net: Net, ds: seq<Media>, orders: seq<seq<string>>)
    requires |orders| == |ds| && forall i | 0 <= i < |ds| :: Enumerates(orders[i], ds[i].bandwidths)
    ensures var lines := MediasLines(net, ds, orders);
            (ds == [] <==> lines == []) && (lines == [] || lines[0].t == 'm')
  {
    hide MediaText, OptionalLine, ConnectionLines, BandwidthLines, EncryptionLines, AttributeLines;
  }

  lemma {:induction false} SessionMedias(net: Net, ds: seq<Media>, orders: seq<seq<string>>, pos: nat, m: Message)
    requires Faithful(net) && |orders| == |ds| && (forall d | d in ds :: GoodSection(d))
    requires forall i | 0 <= i < |ds| :: Enumerates(orders[i], ds[i].bandwidths)
    ensures SessionLoop(net, MediasLines(net, ds, orders), pos, m)
         == if AnyRefused(ds) then Err
            else Ok(m.(connection := SessionAfter(ds, m.connection), medias := m.medias + SeenSections(ds)))
    decreases |ds|
  {
    hide *;
    if ds == [] {
      NoMedias(net, orders, pos, m);
    } else {
      var d, rest, lines := ds[0], MediasLines(net, ds[1..], orders[1..]), MediasLines(net, ds, orders);
      MediasSplit(net, ds, orders);
      MediasUnfold(ds, m.connection);
      MediaSection(net, d, orders[0], rest, m);
      SessionMedia(net, lines, pos, m);
      ThenMediasErr(net, pos + 1);
      if !Refused(d.connection) {
        var m' := m.(connection := SessionSees(d.connection, m.connection), medias := m.medias + [SeenSection(d)]);
        ThenMediasOk(net, m.(connection := SessionSees(d.connection, m.connection)), SeenSection(d), rest, pos + 1);
        SessionMedias(net, ds[1..], orders[1..], pos + 1, m');
        assert m.medias + [SeenSection(d)] + SeenSections(ds[1..]) == m.medias + SeenSections(ds);
      }
    }
  }

  lemma NoMedias(net: Net, orders: seq<seq<string>>, pos: nat, m: Message)
    requires orders == []
    ensures SessionLoop(net, MediasLines(net, [], orders), pos, m) == Ok(m) && !AnyRefused([])
    ensures m.(connection := SessionAfter([], m.connection), medias := m.medias + SeenSections([])) == m
  {
  }

  lemma ThenMediasOk(net: Net, m: Message, d: Media, rest: Session, pos: nat)
    ensures ThenMedias(net, Ok((m, d, rest)), pos) == SessionLoop(net, rest, pos, m.(medias := m.medias + [d]))
  {
  }

  lemma ThenMediasErr(net: Net, pos: nat)
    ensures ThenMedias(net, Err, pos) == Err
  {
  }

  lemma MediasUnfold(ds: seq<Media>, s: ConnectionData)
    requires ds != []
    ensures AnyRefused(ds) <==> Refused(ds[0].connection) || AnyRefused(ds[1..])
    ensures SeenSections(ds) == [SeenSection(ds[0])] + SeenSections(ds[1..])
    ensures SessionAfter(ds, s) == SessionAfter(ds[1..], SessionSees(ds[0].connection, s))
  {
    assert ds == [ds[0]] + ds[1..];
  }

  lemma MediasSplit(net: Net, ds: seq<Media>, orders: seq<seq<string>>)
    requires ds != [] && |orders| == |ds| && forall i | 0 <= i < |ds| :: Enumerates(orders[i], ds[i].bandwidths)
    ensures Enumerates(orders[0], ds[0].bandwidths)
    ensures var lines, rest := MediasLines(net, ds, orders), MediasLines(net, ds[1..], orders[1..]);
      && lines == MediaLines(net, ds[0], orders[0]) + rest
      && lines != [] && lines[0].t == 'm' && (rest == [] || rest[0].t == 'm')
  {
    MediasHead(net, ds, orders);
    MediasHead(net, ds[1..], orders[1..]);
    hide MediaLines;
  }

  // ----- Time descriptions -----

  lemma AfterTime(t: char, pos: nat)
    requires 1 <= pos <= 2
    ensures t in "kam" ==> IsExpected(t, InTime, pos)
    ensures t in "tz" ==> !IsExpected(t, InTime, pos)
  {
    assert !IsExpected('t', InMedia, 0) && !IsExpected('z', InMedia, 0);
    assert !IsExpected('t', InSession, 10) && !IsExpected('z', InSession, 10);
    assert IsExpected('m', InSession, 10) by {
      MediaExpected(10);
    }
    assert IsExpected('k', InSession, 10) by {
      ExpectedInSession('k', 10, 10);
    }
    assert IsExpected('a', InSession, 10) by {
      ExpectedInSession('a', 10, 11);
    }
  }

  /** A time description is ended by a key, an attribute or a media line; any other time line is refused. */
  lemma TimeEnds(net: Net, rest: Session, pos: nat, m: Message)
    requires 1 <= pos <= 2 && (rest == [] || rest[0].t in "kamtz")
    ensures TimeLoop(net, rest, pos, m) == if rest != [] && rest[0].t in "tz" then Err else Ok((m, rest))
  {
    if rest != [] {
      AfterTime(rest[0].t, pos);
    }
    hide IsExpected, DecodeField;
  }

  predicate GoodTiming(t: Timing) {
    && GoodTime(t.start) && GoodTime(t.end) && Int64(t.repeat) && Int64(t.active)
    && forall d | d in t.offsets :: Int64(d)
  }

  lemma TimingReads(net: Net, t: Timing, m: Message)
    requires GoodTiming(t)
    ensures DecodeField(net, InTime, Line('t', TimingText(t.start, t.end)), m, BLANK_MEDIA)
         == Ok((m.(timing := m.timing + [Timing(t.start, t.end, 0, 0, [])]), BLANK_MEDIA))
  {
    hide Atoi, DecodeOrigin, DecodeConnection, DecodeBandwidth, DecodeTiming, DecodeRepeat, DecodeZones, DecodeKV,
         DecodeMedia, TimingText, GoodTime;
    TimingRoundTrip(t.start, t.end);
  }

  lemma RepeatReads(net: Net, t: Timing, m: Message)
    requires GoodTiming(t) && t.offsets != [] && m.timing != []
    ensures DecodeField(net, InTime, Line('r', RepeatText(t.repeat, t.active, t.offsets)), m, BLANK_MEDIA) == Ok((m, BLANK_MEDIA))
  {
    hide Atoi, DecodeOrigin, DecodeConnection, DecodeBandwidth, DecodeTiming, DecodeRepeat, DecodeZones, DecodeKV,
         DecodeMedia, RepeatText, GoodTime;
    RepeatRead(t.repeat, t.active, t.offsets);
  }

  lemma TimeStep(net: Net, l: Line, rest: Session, pos: nat, m: Message, m': Message)
    requires (l.t == 't' && pos == 0) || (l.t == 'r' && pos <= 1)
    requires DecodeField(net, InTime, l, m, BLANK_MEDIA) == Ok((m', BLANK_MEDIA))
    ensures TimeLoop(net, [l] + rest, pos, m) == TimeLoop(net, rest, pos + 1, m')
  {
    assert Ordering(InTime)[pos..][(if l.t == 't' then 0 else 1 - pos)] == l.t;
    assert IsExpected(l.t, InTime, pos);
    hide IsExpected, DecodeField;
    assert ([l] + rest)[1..] == rest;
  }

  /** One time description is read, without its repeat times. */
  lemma TimeReads(net: Net, t: Timing, rest: Session, m: Message)
    requires GoodTiming(t) && (rest == [] || rest[0].t in "kamtz")
    ensures TimeLoop(net, [Line('t', TimingText(t.start, t.end))] + (RepeatLines(t) + rest), 0, m)
         == if rest != [] && rest[0].t in "tz" then Err
            else Ok((m.(timing := m.timing + [Timing(t.start, t.end, 0, 0, [])]), rest))
  {
    var m' := m.(timing := m.timing + [Timing(t.start, t.end, 0, 0, [])]);
    TimingReads(net, t, m);
    hide TimeLoop, DecodeField, TimingText, RepeatText, GoodTiming;
    TimeStep(net, Line('t', TimingText(t.start, t.end)), RepeatLines(t) + rest, 0, m, m');
    if t.offsets == [] {
      assert RepeatLines(t) + rest == rest;
      TimeEnds(net, rest, 1, m');
    } else {
      RepeatReads(net, t, m');
      TimeStep(net, RepeatLines(t)[0], rest, 1, m', m');
      TimeEnds(net, rest, 2, m');
    }
  }

  function SeenTimings(ts: seq<Timing>): seq<Timing> {
    if ts == [] then [] else [Timing(ts[0].start, ts[0].end, 0, 0, [])] + SeenTimings(ts[1..])
  }

  function ThenTime(net: Net, r: Result<(Message, Session)>, pos: nat): Result<Message> {
    match r
    case Ok((m, rest)) => SessionLoop(net, rest, pos, m)
    case Err => Err
    case Panic => Panic
  }

  lemma SessionTime(net: Net, lines: Session, pos: nat, m: Message)
    requires lines != [] && lines[0].t == 't' && pos < AFTER_TIME
    ensures SessionLoop(net, lines, pos, m) == ThenTime(net, TimeLoop(net, lines, 0, m), pos + 1)
  {
    assert Ordering(InTime)[0..][0] == 't';
    assert IsExpected('t', InTime, 0);
    assert IsExpected('t', InSession, pos);
    hide IsExpected, TimeLoop, MediaLoop, DecodeField;
  }

  lemma SessionTimings(net: Net, ts: seq<Timing>, rest: Session, pos: nat, m: Message)
    requires (forall t | t in ts :: GoodTiming(t)) && pos <= 8 && m.timing == [] && (rest == [] || rest[0].t in "kamz")
    ensures SessionLoop(net, TimingLines(ts) + rest, pos, m)
         == if ts == [] then SessionLoop(net, rest, pos, m)
            else if |ts| > 1 || (rest != [] && rest[0].t == 'z') then Err
            else SessionLoop(net, rest, pos + 1, m.(timing := SeenTimings(ts)))
  {
    hide TimingText, GoodTiming, SessionLoop, TimeLoop, RepeatLines;
    if ts == [] {
      assert TimingLines(ts) + rest == rest;
    } else {
      var t, more := ts[0], TimingLines(ts[1..]) + rest;
      TimingSplit(ts, rest);
      hide TimingLines;
      TimeReads(net, t, more, m);
      SessionTime(net, TimingLines(ts) + rest, pos, m);
      if |ts| == 1 {
        assert m.timing + [Timing(t.start, t.end, 0, 0, [])] == SeenTimings(ts);
      }
    }
  }

  lemma TimingSplit(ts: seq<Timing>, rest: Session)
    requires ts != []
    ensures var more := TimingLines(ts[1..]) + rest;
      && (|ts| > 1 ==> more != [] && more[0].t == 't')
      && (|ts| == 1 ==> more == rest)
      && TimingLines(ts) + rest == [Line('t', TimingText(ts[0].start, ts[0].end))] + (RepeatLines(ts[0]) + more)
  {
    hide *;
    TimingUnfolds(ts);
    Reassociates([Line('t', TimingText(ts[0].start, ts[0].end))], RepeatLines(ts[0]), TimingLines(ts[1..]), rest);
    if |ts| > 1 {
      TimingUnfolds(ts[1..]);
    } else {
      NoTimings();
      assert ts[1..] == [] && [] + rest == rest;
    }
  }

  lemma Reassociates<T>(a: seq<T>, b: seq<T>, c: seq<T>, d: seq<T>)
    ensures a + b + c + d == a + (b + (c + d))
  {
  }

  // ----- Whole messages -----

  predicate Good(m: Message) {
    && Int64(m.version) && GoodOrigin(m.origin) && m.name != "" && GoodConnection(m.connection)
    && GoodBandwidths(m.bandwidths) && (forall t | t in m.timing :: GoodTiming(t)) && (forall z | z in m.zones :: GoodZone(z))
    && GoodKey(m.encryption.method_) && GoodKeys(m.attributes)
    && forall d | d in m.medias :: GoodSection(d)
  }

  /** The message as it is read back. */
  function Seen(m: Message): Message {
    m.(origin := FilledOrigin(m.origin),
       connection := SessionAfter(m.medias, if m.connection == BLANK_CONNECTION then BLANK_CONNECTION
                                            else SeenConnection(false, m.connection)),
       timing := SeenTimings(m.timing),
       medias := SeenSections(m.medias))
  }

  /** What becomes of a message that is printed and decoded. */
  function Outcome(m: Message): Result<Message> {
    if Refused(m.connection) || AnyRefused(m.medias) || |m.timing| > 1 || (m.timing != [] && m.zones != []) then Err
    else Ok(Seen(m))
  }

  /** The lines from the encryption key on. */
  function LastLines(net: Net, m: Message, orders: seq<seq<string>>): Session
    requires |orders| == |m.medias| && forall i | 0 <= i < |orders| :: Enumerates(orders[i], m.medias[i].bandwidths)
  {
    EncryptionLines(m.encryption) + (AttributeLines(m.attributes) + MediasLines(net, m.medias, orders))
  }

  lemma LastHead(net: Net, m: Message, orders: seq<seq<string>>)
    requires |orders| == |m.medias| && forall i | 0 <= i < |orders| :: Enumerates(orders[i], m.medias[i].bandwidths)
    ensures var lines := LastLines(net, m, orders); lines == [] || lines[0].t in "kam"
  {
    MediasHead(net, m.medias, orders);
    hide MediasLines, KV;
  }

  lemma LastDecodes(net: Net, m: Message, orders: seq<seq<string>>, pos: nat, x: Message)
    requires Faithful(net) && Good(m) && |orders| == |m.medias| && pos <= 10
    requires forall i | 0 <= i < |orders| :: Enumerates(orders[i], m.medias[i].bandwidths)
    requires x.encryption == NO_ENCRYPTION && x.attributes == [] && x.medias == []
    ensures SessionLoop(net, LastLines(net, m, orders), pos, x)
         == if AnyRefused(m.medias) then Err
            else Ok(x.(encryption := m.encryption, attributes := m.attributes,
                       connection := SessionAfter(m.medias, x.connection), medias := SeenSections(m.medias)))
  {
    hide SessionLoop, MediasLines, AttributeLines, EncryptionLines, Faithful, GoodOrigin, GoodConnection, GoodZone, GoodTiming,
         GoodSection, AnyRefused, SessionAfter, SeenSections, GoodBandwidths, Enumerates;
    var medias := MediasLines(net, m.medias, orders);
    var attrs := AttributeLines(m.attributes) + medias;
    var x1 := x.(encryption := m.encryption);
    var x2 := x1.(attributes := m.attributes);
    var p := pos + Present(m.encryption != NO_ENCRYPTION);
    SessionEncryption(net, m.encryption, attrs, pos, x);
    SessionAttributes(net, m.attributes, medias, p, x1);
    assert [] + m.attributes == m.attributes;
    SessionMedias(net, m.medias, orders, p, x2);
    assert [] + SeenSections(m.medias) == SeenSections(m.medias);
  }

  lemma ZonesHead(net: Net, m: Message, orders: seq<seq<string>>)
    requires |orders| == |m.medias| && forall i | 0 <= i < |orders| :: Enumerates(orders[i], m.medias[i].bandwidths)
    ensures var lines := ZoneLines(m.zones) + LastLines(net, m, orders);
      && (lines == [] || lines[0].t in "kamz")
      && (m.zones != [] <==> lines != [] && lines[0].t == 'z')
  {
    LastHead(net, m, orders);
    hide LastLines, ZonesText;
  }

  lemma GoodTimes(m: Message)
    requires Good(m)
    ensures (forall t | t in m.timing :: GoodTiming(t)) && (forall z | z in m.zones :: GoodZone(z))
    ensures m.timing == [] ==> SeenTimings(m.timing) == []
  {
    hide GoodTiming, GoodZone, GoodOrigin, GoodConnection, GoodSection, GoodBandwidths;
  }

  /** The lines from the time descriptions on. */
  lemma TimesDecode(net: Net, m: Message, orders: seq<seq<string>>, pos: nat, x: Message)
    requires Faithful(net) && Good(m) && |orders| == |m.medias| && pos <= 8
    requires forall i | 0 <= i < |orders| :: Enumerates(orders[i], m.medias[i].bandwidths)
    requires x.encryption == NO_ENCRYPTION && x.attributes == [] && x.medias == [] && x.timing == [] && x.zones == []
    ensures SessionLoop(net, TimingLines(m.timing) + (ZoneLines(m.zones) + LastLines(net, m, orders)), pos, x)
         == if AnyRefused(m.medias) || |m.timing| > 1 || (m.timing != [] && m.zones != []) then Err
            else Ok(x.(timing := SeenTimings(m.timing), zones := m.zones, encryption := m.encryption, attributes := m.attributes,
                       connection := SessionAfter(m.medias, x.connection), medias := SeenSections(m.medias)))
  {
    hide *;
    PresentIs();
    GoodTimes(m);
    var last := LastLines(net, m, orders);
    var zones := ZoneLines(m.zones) + last;
    ZonesHead(net, m, orders);
    SessionTimings(net, m.timing, zones, pos, x);
    if |m.timing| <= 1 && (m.timing == [] || m.zones == []) {
      var p, x1 := pos + Present(m.timing != []), x.(timing := SeenTimings(m.timing));
      assert x.(timing := x.timing) == x;
      SessionZones(net, m.zones, last, p, x1);
      var x2 := x1.(zones := m.zones);
      LastDecodes(net, m, orders, p + Present(m.zones != []), x2);
    }
  }

  lemma HeaderReads(net: Net, version: int, o: Origin, name: string)
    requires Int64(version) && GoodOrigin(o)
    ensures forall m, d :: DecodeField(net, InSession, Line('v', Int(version)), m, d) == Ok((m.(version := version), d))
    ensures forall m, d :: DecodeField(net, InSession, Line('o', OriginText(o)), m, d) == Ok((m.(origin := FilledOrigin(o)), d))
    ensures forall m, d :: DecodeField(net, InSession, Line('s', name), m, d) == Ok((m.(name := name), d))
  {
    hide DecodeOrigin, DecodeConnection, DecodeBandwidth, DecodeTiming, DecodeRepeat, DecodeZones, DecodeKV,
         DecodeMedia, OriginText, FilledOrigin, GoodOrigin, Int, ParseInt;
    IntRoundTrip(version, 0x8000_0000_0000_0000);
    OriginRoundTrip(o);
  }

  lemma HeaderDecodes(net: Net, m: Message, rest: Session)
    requires Int64(m.version) && GoodOrigin(m.origin)
    ensures SessionLoop(net, [Line('v', Int(m.version)), Line('o', OriginText(m.origin)), Line('s', m.name)] + rest, 0, BLANK_MESSAGE)
         == SessionLoop(net, rest, 3, BLANK_MESSAGE.(version := m.version, origin := FilledOrigin(m.origin), name := m.name))
  {
    hide SessionLoop, OriginText, FilledOrigin, GoodOrigin, Int, DecodeField;
    var v, o, n := Line('v', Int(m.version)), Line('o', OriginText(m.origin)), Line('s', m.name);
    HeaderReads(net, m.version, m.origin, m.name);
    var m1 := BLANK_MESSAGE.(version := m.version);
    var m2 := m1.(origin := FilledOrigin(m.origin));
    assert [v, o, n] + rest == [v] + ([o] + ([n] + rest));
    SessionField(net, v, [o] + ([n] + rest), 0, BLANK_MESSAGE, 0);
    SessionField(net, o, [n] + rest, 1, m1, 1);
    SessionField(net, n, rest, 2, m2, 2);
  }

  /** The lines from the session information to the bandwidths. */
  lemma TextsDecode(net: Net, m: Message, order: seq<string>, rest: Session, x: Message)
    requires Faithful(net) && Good(m) && Enumerates(order, m.bandwidths)
    requires x.info == x.uri == x.email == x.phone == "" && x.connection == BLANK_CONNECTION && x.bandwidths == map[]
    ensures var r := OptionalLine('i', m.info) + (OptionalLine('u', m.uri) + (OptionalLine('e', m.email)
                   + (OptionalLine('p', m.phone) + (ConnectionLines(net, m.connection)
                   + (BandwidthLines(order, m.bandwidths) + rest)))));
            var c := if m.connection == BLANK_CONNECTION then BLANK_CONNECTION else SeenConnection(false, m.connection);
            var x' := x.(info := m.info, uri := m.uri, email := m.email, phone := m.phone, connection := c,
                         bandwidths := m.bandwidths);
      if Refused(m.connection) then SessionLoop(net, r, 3, x) == Err
      else exists pos | 3 <= pos <= 8 :: SessionLoop(net, r, 3, x) == SessionLoop(net, rest, pos, x')
  {
    hide Enumerates, SessionLoop, OptionalLine, ConnectionLines, BandwidthLines, Faithful, Good, SeenConnection, Updated, GoodConnection,
         GoodBandwidths, Readable;
    GoodHas(m);
    EnumeratesKeys(order, m.bandwidths);
    UpdatedAll(order, m.bandwidths);
    var bands := BandwidthLines(order, m.bandwidths) + rest;
    var conn := ConnectionLines(net, m.connection) + bands;
    var x4, p4 := x.(info := m.info, uri := m.uri, email := m.email, phone := m.phone),
                  3 + Present(m.info != "") + Present(m.uri != "") + Present(m.email != "") + Present(m.phone != "");
    FourTexts(net, m, conn, x);
    SessionConnection(net, m.connection, bands, p4, x4);
    if !Refused(m.connection) {
      var c := if m.connection == BLANK_CONNECTION then BLANK_CONNECTION else SeenConnection(false, m.connection);
      SessionBandwidths(net, order, m.bandwidths, rest, p4 + Present(m.connection != BLANK_CONNECTION), x4.(connection := c));
    }
  }

  lemma GoodHas(m: Message)
    requires Good(m)
    ensures GoodConnection(m.connection) && GoodBandwidths(m.bandwidths)
  {
  }

  lemma FourTexts(net: Net, m: Message, rest: Session, x: Message)
    requires x.info == x.uri == x.email == x.phone == ""
    ensures SessionLoop(net, OptionalLine('i', m.info) + (OptionalLine('u', m.uri) + (OptionalLine('e', m.email)
                             + (OptionalLine('p', m.phone) + rest))), 3, x)
         == SessionLoop(net, rest, 3 + Present(m.info != "") + Present(m.uri != "") + Present(m.email != "") + Present(m.phone != ""),
                        x.(info := m.info, uri := m.uri, email := m.email, phone := m.phone))
  {
    hide SessionLoop, OptionalLine;
    var phone := OptionalLine('p', m.phone) + rest;
    var email := OptionalLine('e', m.email) + phone;
    var x1, p1 := x.(info := m.info), 3 + Present(m.info != "");
    var x2, p2 := x1.(uri := m.uri), p1 + Present(m.uri != "");
    var x3, p3 := x2.(email := m.email), p2 + Present(m.email != "");
    SessionText(net, 'i', m.info, OptionalLine('u', m.uri) + email, 3, x);
    SessionText(net, 'u', m.uri, email, p1, x1);
    SessionText(net, 'e', m.email, phone, p2, x2);
    SessionText(net, 'p', m.phone, rest, p3, x3);
  }

  lemma AppendSplit(net: Net, m: Message, order: seq<string>, orders: seq<seq<string>>)
    requires Ordered(m, order, orders)
    ensures Append(net, m, order, orders)
         == [Line('v', Int(m.version)), Line('o', OriginText(m.origin)), Line('s', m.name)]
            + (OptionalLine('i', m.info) + (OptionalLine('u', m.uri) + (OptionalLine('e', m.email)
               + (OptionalLine('p', m.phone) + (ConnectionLines(net, m.connection)
               + (BandwidthLines(order, m.bandwidths)
               + (TimingLines(m.timing) + (ZoneLines(m.zones) + LastLines(net, m, orders)))))))))
  {
    hide OriginText, Int, OptionalLine, ConnectionLines, BandwidthLines, TimingLines, ZoneLines, EncryptionLines, AttributeLines, MediasLines;
  }

  /** Every message of well-formed fields, printed and decoded, becomes its outcome. */
  lemma DecodeAppend(net: Net, m: Message, order: seq<string>, orders: seq<seq<string>>)
    requires Faithful(net) && Good(m) && Ordered(m, order, orders)
    ensures Decode(net, Append(net, m, order, orders)) == Outcome(m)
  {
    assert FilledOrigin(m.origin).address != "";
    hide SessionLoop, Append, OptionalLine, ConnectionLines, BandwidthLines, TimingLines, ZoneLines, LastLines, Faithful,
         GoodOrigin, FilledOrigin, GoodConnection, GoodTiming, GoodZone, GoodSection, SeenConnection, OriginText, Int,
         SessionAfter, SeenSections, SeenTimings, AnyRefused, Enumerates, GoodBandwidths;
    AppendSplit(net, m, order, orders);
    var rest := TimingLines(m.timing) + (ZoneLines(m.zones) + LastLines(net, m, orders));
    var texts := OptionalLine('i', m.info) + (OptionalLine('u', m.uri) + (OptionalLine('e', m.email)
               + (OptionalLine('p', m.phone) + (ConnectionLines(net, m.connection)
               + (BandwidthLines(order, m.bandwidths) + rest)))));
    var x := BLANK_MESSAGE.(version := m.version, origin := FilledOrigin(m.origin), name := m.name);
    HeaderDecodes(net, m, texts);
    TextsDecode(net, m, order, rest, x);
    if !Refused(m.connection) {
      var c := if m.connection == BLANK_CONNECTION then BLANK_CONNECTION else SeenConnection(false, m.connection);
      var x' := x.(info := m.info, uri := m.uri, email := m.email, phone := m.phone, connection := c, bandwidths := m.bandwidths);
      var pos :| 3 <= pos <= 8 && SessionLoop(net, texts, 3, x) == SessionLoop(net, rest, pos, x');
      TimesDecode(net, m, orders, pos, x');
    }
  }

  // ----- Which messages are given back -----

  /** The message with network and address types that are left out filled in. */
  function FilledSection(d: Media): Media {
    d.(connection := if d.connection == BLANK_CONNECTION then BLANK_CONNECTION else FilledConnection(d.connection))
  }

  function FilledSections(ds: seq<Media>): (r: seq<Media>)
    ensures |r| == |ds| && forall i | 0 <= i < |ds| :: r[i] == FilledSection(ds[i])
  {
    if ds == [] then [] else [FilledSection(ds[0])] + FilledSections(ds[1..])
  }

  function Filled(m: Message): Message {
    m.(origin := FilledOrigin(m.origin),
       connection := if m.connection == BLANK_CONNECTION then BLANK_CONNECTION else FilledConnection(m.connection),
       medias := FilledSections(m.medias))
  }

  /** Connection data the decoder reads as it was: no suffix, both suffixes, or in the session only a TTL. */
  predicate Preserved(media: bool, c: ConnectionData) {
    || c == BLANK_CONNECTION
    || (Readable(c) && ((c.ttl == 0) == (c.addresses == 0) || (!media && c.addresses == 0)))
  }

  /** The times and the connection data are preserved. */
  predicate SupportedTimes(m: Message) {
    && |m.timing| <= 1 && (m.timing == [] || m.zones == [])
    && (forall t | t in m.timing :: t.repeat == t.active == 0 && t.offsets == [])
    && Preserved(false, m.connection)
  }

  predicate Supported(m: Message) {
    SupportedTimes(m) && forall d | d in m.medias :: Preserved(true, d.connection) && d.description.formats != []
  }

  lemma {:induction false} SeenSectionsAt(ds: seq<Media>)
    ensures |SeenSections(ds)| == |ds| && forall i | 0 <= i < |ds| :: SeenSections(ds)[i] == SeenSection(ds[i])
  {
    if ds != [] {
      SeenSectionsAt(ds[1..]);
      hide SeenSection;
    }
  }

  lemma SectionPreserved(d: Media)
    requires !Refused(d.connection)
    ensures SeenSection(d) == FilledSection(d) <==> Preserved(true, d.connection) && d.description.formats != []
    ensures Preserved(true, d.connection) ==> forall s :: SessionSees(d.connection, s) == s
  {
    var x, y := SeenSection(d), FilledSection(d);
    assert x == y <==> x.description == y.description && x.connection == y.connection;
    assert SeenMedia(d.description) == d.description <==> d.description.formats != [];
  }

  lemma {:induction false} SessionUntouched(ds: seq<Media>, s: ConnectionData)
    requires forall d | d in ds :: Preserved(true, d.connection)
    ensures SessionAfter(ds, s) == s
    decreases |ds|
  {
    if ds != [] {
      assert Preserved(true, ds[0].connection);
      SectionPreserved(ds[0]);
      hide Preserved;
      SessionUntouched(ds[1..], SessionSees(ds[0].connection, s));
    }
  }

  lemma SectionsPreserved(ds: seq<Media>)
    requires !AnyRefused(ds)
    ensures SeenSections(ds) == FilledSections(ds)
       <==> forall d | d in ds :: Preserved(true, d.connection) && d.description.formats != []
  {
    SeenSectionsAt(ds);
    forall i | 0 <= i < |ds|
      ensures SeenSection(ds[i]) == FilledSection(ds[i]) <==> Preserved(true, ds[i].connection) && ds[i].description.formats != []
    {
      assert ds[i] in ds;
      SectionPreserved(ds[i]);
    }
    hide SeenSections, FilledSections, SeenSection, FilledSection, Preserved, AnyRefused;
    if SeenSections(ds) == FilledSections(ds) {
      forall d | d in ds
        ensures Preserved(true, d.connection) && d.description.formats != []
      {
        var i :| 0 <= i < |ds| && ds[i] == d;
        assert SeenSections(ds)[i] == FilledSections(ds)[i];
      }
    }
  }

  lemma TimingPreserved(ts: seq<Timing>)
    requires |ts| <= 1
    ensures SeenTimings(ts) == ts <==> forall t | t in ts :: t.repeat == t.active == 0 && t.offsets == []
  {
    if |ts| == 1 {
      assert SeenTimings(ts)[0] == Timing(ts[0].start, ts[0].end, 0, 0, []);
      assert SeenTimings(ts) == ts <==> SeenTimings(ts)[0] == ts[0];
    }
  }

  /**
   A message of well-formed fields is given back, with left-out types filled in, exactly
   when it is supported: at most one time description, without repeat times and not
   together with time zones, connection data that is preserved, and formats in every
   media section.
   */
  lemma MessageRoundTrip(net: Net, m: Message, order: seq<string>, orders: seq<seq<string>>)
    requires Faithful(net) && Good(m) && Ordered(m, order, orders)
    ensures Decode(net, Append(net, m, order, orders)) == Ok(Filled(m)) <==> Supported(m)
  {
    DecodeAppend(net, m, order, orders);
    OutcomeSupported(m);
  }

  lemma OutcomeSupported(m: Message)
    ensures Outcome(m) == Ok(Filled(m)) <==> Supported(m)
  {
    var c, ds := m.connection, m.medias;
    var s := if c == BLANK_CONNECTION then BLANK_CONNECTION else SeenConnection(false, c);
    if Outcome(m).Ok? {
      SectionsPreserved(ds);
      TimingPreserved(m.timing);
      if forall d | d in ds :: Preserved(true, d.connection) {
        SessionUntouched(ds, s);
      }
      var x, y := Seen(m), Filled(m);
      assert x == y <==> x.connection == y.connection && x.timing == y.timing && x.medias == y.medias;
    } else {
      RefusedNotPreserved(m);
    }
  }

  lemma RefusedNotPreserved(m: Message)
    requires Outcome(m) == Err
    ensures !Supported(m)
  {
  }

  // ----- Repeat times -----

  predicate WithoutRepeats(m: Message) {
    forall t | t in m.timing :: t.repeat == t.active == 0 && t.offsets == []
  }

  lemma FieldDropsRepeats(net: Net, s: Section, l: Line, m: Message, d: Media)
    requires WithoutRepeats(m)
    ensures var r := DecodeField(net, s, l, m, d); r.Ok? ==> WithoutRepeats(r.value.0)
  {
    hide Atoi, DecodeOrigin, DecodeConnection, DecodeBandwidth, DecodeNTP, DecodeRepeat, DecodeZones, DecodeKV, DecodeMedia, Split;
  }

  lemma {:induction false} TimeDropsRepeats(net: Net, lines: Session, pos: nat, m: Message)
    requires WithoutRepeats(m)
    ensures var r := TimeLoop(net, lines, pos, m); r.Ok? ==> WithoutRepeats(r.value.0)
    decreases |lines|
  {
    if lines != [] {
      hide IsExpected, IsKnown, DecodeField, WithoutRepeats;
      var l := lines[0];
      FieldDropsRepeats(net, InTime, l, m, BLANK_MEDIA);
      TimeDropsRepeats(net, lines[1..], pos, m);
      match DecodeField(net, InTime, l, m, BLANK_MEDIA) {
        case Ok((m', _)) => TimeDropsRepeats(net, lines[1..], Advanced(l.t, pos), m');
        case _ =>
      }
    }
  }

  lemma {:induction false} MediaDropsRepeats(net: Net, lines: Session, pos: nat, m: Message, d: Media)
    requires WithoutRepeats(m)
    ensures var r := MediaLoop(net, lines, pos, m, d); r.Ok? ==> WithoutRepeats(r.value.0)
    decreases |lines|
  {
    if lines != [] {
      hide IsExpected, IsKnown, DecodeField, WithoutRepeats;
      var l := lines[0];
      FieldDropsRepeats(net, InMedia, l, m, d);
      MediaDropsRepeats(net, lines[1..], pos, m, d);
      match DecodeField(net, InMedia, l, m, d) {
        case Ok((m', d')) => MediaDropsRepeats(net, lines[1..], Advanced(l.t, pos), m', d');
        case _ =>
      }
    }
  }

  lemma {:induction false} SessionDropsRepeats(net: Net, lines: Session, pos: nat, m: Message)
    requires WithoutRepeats(m)
    ensures var r := SessionLoop(net, lines, pos, m); r.Ok? ==> WithoutRepeats(r.value)
    decreases |lines|
  {
    if lines != [] {
      var l, pos' := lines[0], Advanced(lines[0].t, pos);
      SessionDropsRepeats(net, lines[1..], pos, m);
      TimeDropsRepeats(net, lines, 0, m);
      MediaDropsRepeats(net, lines, 0, m, BLANK_MEDIA);
      FieldDropsRepeats(net, InSession, l, m, BLANK_MEDIA);
      hide IsExpected, IsKnown, DecodeField, TimeLoop, MediaLoop;
      if l.t == 't' {
        var r := TimeLoop(net, lines, 0, m);
        if r.Ok? {
          SessionDropsRepeats(net, r.value.1, pos', r.value.0);
        }
      } else if l.t == 'm' {
        var r := MediaLoop(net, lines, 0, m, BLANK_MEDIA);
        if r.Ok? {
          SessionDropsRepeats(net, r.value.2, pos', r.value.0.(medias := r.value.0.medias + [r.value.1]));
        }
      } else {
        var r := DecodeField(net, InSession, l, m, BLANK_MEDIA);
        if r.Ok? {
          SessionDropsRepeats(net, lines[1..], pos', r.value.0);
        }
      }
    }
  }

  /** No message that is decoded, from whatever lines, has repeat times. */
  lemma RepeatsAreLost(net: Net, lines: Session)
    ensures var r := Decode(net, lines); r.Ok? ==> WithoutRepeats(r.value)
  {
    SessionDropsRepeats(net, lines, 0, BLANK_MESSAGE);
    hide SessionLoop, WithoutRepeats;
  }
}
