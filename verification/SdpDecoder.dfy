/**
 The decoder of protocols/sdp/decoder.go and the printer of protocols/sdp/encoder.go as
 they run: a decoder that moves over the lines, steps back where a section ends, and
 fills in a message; a session that grows line by line.
 */
module SdpDecoder {

  import opened SdpNumbers
  import opened SdpText
  import opened SdpFields
  import opened SdpMessage

  datatype Status = Fine | Failed | Panicked

  function StatusOf<T>(r: Result<T>): Status {
    match r
    case Ok(_) => Fine
    case Err => Failed
    case Panic => Panicked
  }

  class Decoder {
    const net: Net
    const s: Session
    var pos: nat
    var l: Line
    var section: Section
    var sPos: nat
    var media: Media
    var m: Message

    /** `NewDecoder`, and the message to be filled in. */
    constructor (net: Net, s: Session)
      ensures this.net == net && this.s == s && pos == 0 && m == BLANK_MESSAGE
    {
      this.net, this.s := net, s;
      pos, sPos, l, section := 0, 0, Line(' ', ""), InSession;
      media, m := BLANK_MEDIA, BLANK_MESSAGE;
    }

    method Next() returns (ok: bool)
      requires pos <= |s|
      modifies this`pos, this`l
      ensures ok == (old(pos) < |s|) && pos == (if ok then old(pos) + 1 else old(pos))
      ensures ok ==> l == s[old(pos)]
    {
      if pos >= |s| {
        return false;
      }
      l := s[pos];
      pos := pos + 1;
      return true;
    }

    /** What decoding the current line must do to the message and the current media. */
    twostate predicate Decoded(r: Status)
      reads this
    {
      match DecodeField(net, section, l, old(m), old(media))
      case Ok((m', d')) => r == Fine && m == m' && media == d'
      case o => r == StatusOf(o) && m == old(m) && media == old(media)
    }

    /** Attribute, encryption and bandwidth lines. */
    method KeyValueField() returns (r: Status)
      requires l.t in "akb"
      modifies this`m, this`media
      ensures Decoded(r)
    {
      hide DecodeKV, BandwidthOf;
      var kv := SplitKV(l.value);
      if !kv.Ok? {
        return Failed;
      }
      var (k, v) := kv.value;
      if l.t == 'a' {
        if section == InMedia {
          media := media.(attributes := media.attributes + [Attribute(k, v)]);
        } else {
          m := m.(attributes := m.attributes + [Attribute(k, v)]);
        }
      } else if l.t == 'k' {
        if section == InMedia {
          media := media.(encryption := Encryption(k, v));
        } else {
          m := m.(encryption := Encryption(k, v));
        }
      } else {
        var b := BandwidthOf(k, v);
        if !b.Ok? {
          return Failed;
        }
        if section == InMedia {
          media := media.(bandwidths := media.bandwidths[b.value.0 := b.value.1]);
        } else {
          m := m.(bandwidths := m.bandwidths[b.value.0 := b.value.1]);
        }
      }
      return Fine;
    }

    /** `decodeConnectionData`. */
    method ConnectionField() returns (r: Status)
      requires l.t == 'c'
      modifies this`m, this`media
      ensures Decoded(r)
    {
      hide ThreeParts, DecodeAddress;
      var p := SplitThree(l.value, ' ');
      if !p.Ok? || p.value.0 == "" || p.value.1 == "" || p.value.2 == "" {
        return Failed;
      }
      var q := SplitThree(p.value.2, '/');
      if !q.Ok? {
        return Failed;
      }
      var o := DecodeAddress(net, section == InMedia, p.value.0, p.value.1, q.value.0, q.value.1, q.value.2,
                             m.connection, media.connection);
      if !o.Ok? {
        return Failed;
      }
      m, media := m.(connection := o.value.0), media.(connection := o.value.1);
      return Fine;
    }

    /** Origin, repeat, time zone and media lines. */
    method SubfieldsField() returns (r: Status)
      requires l.t in "orzm"
      modifies this`m, this`media
      ensures Decoded(r)
    {
      hide Subfields, OriginOf, RepeatOf, ZonesOf, MediaOf;
      if l.t == 'r' && m.timing == [] {
        return Failed;
      }
      var p := SplitSubfields(l.value);
      if !p.Ok? {
        return Failed;
      }
      if l.t == 'o' {
        var o := OriginOf(p.value);
        if !o.Ok? {
          return Failed;
        }
        m := m.(origin := o.value);
      } else if l.t == 'r' {
        return StatusOf(RepeatOf(p.value));
      } else if l.t == 'z' {
        var zs := ZonesOf(p.value);
        if !zs.Ok? {
          return StatusOf(zs);
        }
        m := m.(zones := m.zones + zs.value);
      } else {
        var x := MediaOf(p.value);
        if !x.Ok? {
          return Failed;
        }
        media := media.(description := x.value);
      }
      return Fine;
    }

    /** Version, timing and text lines. */
    method PlainField() returns (r: Status)
      requires l.t in "vtsiuep"
      modifies this`m, this`media
      ensures Decoded(r)
    {
      hide Atoi, SdpFields.DecodeTiming;
      if l.t == 'v' {
        var n := Atoi(l.value);
        if !n.Ok? {
          return Failed;
        }
        m := m.(version := n.value);
      } else if l.t == 't' {
        var t := DecodeTimingField(l.value);
        if !t.Ok? {
          return Failed;
        }
        m := m.(timing := m.timing + [t.value]);
      } else if l.t == 's' {
        m := m.(name := l.value);
      } else if l.t == 'i' && section == InMedia {
        media := media.(title := l.value);
      } else if l.t == 'i' {
        m := m.(info := l.value);
      } else if l.t == 'u' {
        m := m.(uri := l.value);
      } else if l.t == 'e' {
        m := m.(email := l.value);
      } else {
        m := m.(phone := l.value);
      }
      return Fine;
    }

    /** `decodeField`, in the current section. */
    method Field() returns (r: Status)
      requires IsKnown(l.t)
      modifies this`m, this`media
      ensures Decoded(r)
    {
      hide DecodeField;
      if l.t in "akb" {
        r := KeyValueField();
      } else if l.t == 'c' {
        r := ConnectionField();
      } else if l.t in "orzm" {
        r := SubfieldsField();
      } else {
        r := PlainField();
      }
    }

    /** `decodeTiming`. */
    method DecodeTiming() returns (r: Status)
      requires pos <= |s|
      modifies this
      ensures pos <= |s|
      ensures match TimeLoop(net, s[old(pos)..], 0, old(m))
              case Ok((m', rest)) => r == Fine && m == m' && s[pos..] == rest
              case o => r == StatusOf(o)
    {
      hide IsExpected, IsKnown, DecodeField;
      sPos, section := 0, InTime;
      ghost var r0 := TimeLoop(net, s[pos..], 0, m);
      while true
        invariant pos <= |s| && section == InTime
        invariant TimeLoop(net, s[pos..], sPos, m) == r0
        decreases |s| - pos
      {
        var ok := Next();
        if !ok {
          break;
        }
        assert s[pos - 1..][1..] == s[pos..];
        if !IsExpected(l.t, section, sPos) {
          if !IsKnown(l.t) {
            continue;
          }
          return Failed;
        }
        ExpectedIsKnown(l.t, section, sPos);
        sPos := Advanced(l.t, sPos);
        if l.t == 't' || l.t == 'r' {
          IgnoresMedia(net, section, l, m, media);
          r := Field();
          if r != Fine {
            return;
          }
        } else {
          pos := pos - 1;
          return Fine;
        }
      }
      return Fine;
    }

    /** `decodeMedia`. */
    method DecodeMediaSection() returns (r: Status)
      requires pos <= |s|
      modifies this
      ensures pos <= |s|
      ensures match MediaLoop(net, s[old(pos)..], 0, old(m), BLANK_MEDIA)
              case Ok((m', d, rest)) => r == Fine && m == m'.(medias := m'.medias + [d]) && s[pos..] == rest
              case o => r == StatusOf(o)
    {
      hide IsExpected, IsKnown, DecodeField;
      sPos, section := 0, InMedia;
      media := BLANK_MEDIA;
      ghost var r0 := MediaLoop(net, s[pos..], 0, m, media);
      while true
        invariant pos <= |s| && section == InMedia
        invariant MediaLoop(net, s[pos..], sPos, m, media) == r0
        decreases |s| - pos
      {
        var ok := Next();
        if !ok {
          break;
        }
        assert s[pos - 1..][1..] == s[pos..];
        if !IsExpected(l.t, section, sPos) {
          if !IsKnown(l.t) {
            continue;
          }
          return Failed;
        }
        if l.t == 'm' && sPos != 0 {
          pos := pos - 1;
          break;
        }
        ExpectedIsKnown(l.t, section, sPos);
        sPos := Advanced(l.t, sPos);
        r := Field();
        if r != Fine {
          return;
        }
      }
      m := m.(medias := m.medias + [media]);
      return Fine;
    }

    /** `decodeSession`, with the checks at its end. */
    method Decode() returns (r: Status)
      requires pos == 0 && m == BLANK_MESSAGE
      modifies this
      ensures match SdpMessage.Decode(net, s)
              case Ok(m') => r == Fine && m == m'
              case o => r == StatusOf(o)
    {
      hide IsExpected, IsKnown, DecodeField, TimeLoop, MediaLoop, SessionLoop;
      sPos, section := 0, InSession;
      ghost var r0 := SessionLoop(net, s, 0, m);
      assert s[0..] == s;
      while true
        invariant pos <= |s| && section == InSession
        invariant SessionLoop(net, s[pos..], sPos, m) == r0
        decreases |s| - pos
      {
        SessionUnfolds(net, s[pos..], sPos, m);
        var ok := Next();
        if !ok {
          break;
        }
        assert s[pos - 1..][1..] == s[pos..];
        if !IsExpected(l.t, section, sPos) {
          if !IsKnown(l.t) {
            continue;
          }
          return Failed;
        }
        ExpectedIsKnown(l.t, section, sPos);
        sPos := Advanced(l.t, sPos);
        if l.t == 't' {
          pos := pos - 1;
          var oldPosition := sPos;
          r := DecodeTiming();
          if r != Fine {
            return;
          }
          sPos, section := oldPosition, InSession;
        } else if l.t == 'm' {
          pos := pos - 1;
          var oldPosition := sPos;
          r := DecodeMediaSection();
          if r != Fine {
            return;
          }
          sPos, section := oldPosition, InSession;
        } else {
          IgnoresMedia(net, section, l, m, media);
          r := Field();
          if r != Fine {
            return;
          }
        }
      }
      if m.origin.address == "" || m.name == "" {
        return Failed;
      }
      return Fine;
    }
  }

  /** Outside media sections the current media plays no part. */
  lemma IgnoresMedia(net: Net, s: Section, l: Line, m: Message, d: Media)
    requires s != InMedia && l.t != 'm' && IsKnown(l.t)
    ensures var x, y := DecodeField(net, s, l, m, d), DecodeField(net, s, l, m, BLANK_MEDIA);
      && StatusOf(x) == StatusOf(y)
      && (x.Ok? ==> x.value.0 == y.value.0 && x.value.1 == d)
  {
    hide Atoi, DecodeOrigin, DecodeBandwidth, DecodeTiming, DecodeRepeat, DecodeZones, DecodeKV, DecodeMedia, ThreeParts, DecodeByte;
  }

  // ----- The printer -----

  method AddBandwidths(s0: Session, order: seq<string>, b: map<string, int>) returns (s: Session)
    requires forall k | k in order :: k in b
    ensures s == s0 + BandwidthLines(order, b)
  {
    hide BandwidthText;
    s := s0;
    var i := 0;
    assert order[0..] == order;
    while i < |order|
      invariant i <= |order| && s + BandwidthLines(order[i..], b) == s0 + BandwidthLines(order, b)
    {
      assert order[i..][1..] == order[i + 1..];
      ghost var before, l := s, Line('b', BandwidthText(order[i], b[order[i]]));
      s := s + [Line('b', BandwidthText(order[i], b[order[i]]))];
      assert before + ([l] + BandwidthLines(order[i + 1..], b)) == s + BandwidthLines(order[i + 1..], b);
      i := i + 1;
    }
    assert s + [] == s;
  }

  /** `appendAttributes`. */
  method AddAttributes(s0: Session, attrs: seq<Attribute>) returns (s: Session)
    ensures s == s0 + AttributeLines(attrs)
  {
    s := s0;
    var i := 0;
    assert attrs[0..] == attrs;
    while i < |attrs|
      invariant i <= |attrs| && s + AttributeLines(attrs[i..]) == s0 + AttributeLines(attrs)
    {
      assert attrs[i..][1..] == attrs[i + 1..];
      ghost var before, l := s, Line('a', KV(attrs[i].key, attrs[i].value));
      if attrs[i].value == "" {
        s := s + [Line('a', attrs[i].key)];
      } else {
        s := s + [Line('a', attrs[i].key + ":" + attrs[i].value)];
      }
      assert before + ([l] + AttributeLines(attrs[i + 1..])) == s + AttributeLines(attrs[i + 1..]);
      i := i + 1;
    }
    assert s + [] == s;
  }

  method AddTimings(s0: Session, ts: seq<Timing>) returns (s: Session)
    ensures s == s0 + TimingLines(ts)
  {
    NoTimings();
    hide TimingText, RepeatText, TimingLines;
    s := s0;
    var i := 0;
    assert ts[0..] == ts;
    while i < |ts|
      invariant i <= |ts| && s + TimingLines(ts[i..]) == s0 + TimingLines(ts)
    {
      TimingUnfolds(ts[i..]);
      assert ts[i..][1..] == ts[i + 1..];
      ghost var before, l := s, Line('t', TimingText(ts[i].start, ts[i].end));
      s := s + [Line('t', TimingText(ts[i].start, ts[i].end))];
      if |ts[i].offsets| > 0 {
        s := s + [Line('r', RepeatText(ts[i].repeat, ts[i].active, ts[i].offsets))];
      }
      assert s == before + [l] + RepeatLines(ts[i]);
      assert before + ([l] + RepeatLines(ts[i]) + TimingLines(ts[i + 1..])) == s + TimingLines(ts[i + 1..]);
      i := i + 1;
    }
    assert ts[i..] == [] && s + [] == s;
  }

  method AddText(s0: Session, t: char, v: string) returns (s: Session)
    ensures s == s0 + OptionalLine(t, v)
  {
    s := s0;
    if |v| > 0 {
      s := s + [Line(t, v)];
    }
  }

  method AddConnection(net: Net, s0: Session, c: ConnectionData) returns (s: Session)
    ensures s == s0 + ConnectionLines(net, c)
  {
    s := s0;
    if c != BLANK_CONNECTION {
      s := s + [Line('c', ConnectionText(net, c))];
    }
  }

  method AddEncryption(s0: Session, e: Encryption) returns (s: Session)
    ensures s == s0 + EncryptionLines(e)
  {
    s := s0;
    if e != NO_ENCRYPTION {
      if e.key == "" {
        s := s + [Line('k', e.method_)];
      } else {
        s := s + [Line('k', e.method_ + ":" + e.key)];
      }
    }
  }

  method AddZones(s0: Session, zs: seq<TimeZone>) returns (s: Session)
    ensures s == s0 + ZoneLines(zs)
  {
    s := s0;
    if |zs| > 0 {
      var v := AppendZones(zs);
      s := s + [Line('z', v)];
    }
  }

  method AddMedia(net: Net, s0: Session, d: Media, order: seq<string>) returns (s: Session)
    requires Enumerates(order, d.bandwidths)
    ensures s == s0 + MediaLines(net, d, order)
  {
    hide BandwidthLines, AttributeLines, MediaText, ConnectionLines, EncryptionLines, OptionalLine;
    s := s0 + [Line('m', MediaText(d.description))];
    s := AddText(s, 'i', d.title);
    s := AddConnection(net, s, d.connection);
    s := AddBandwidths(s, order, d.bandwidths);
    s := AddEncryption(s, d.encryption);
    s := AddAttributes(s, d.attributes);
  }

  method AddMedias(net: Net, s0: Session, ds: seq<Media>, orders: seq<seq<string>>) returns (s: Session)
    requires |orders| == |ds| && forall i | 0 <= i < |ds| :: Enumerates(orders[i], ds[i].bandwidths)
    ensures s == s0 + MediasLines(net, ds, orders)
  {
    hide MediaLines, Enumerates;
    s := s0;
    var i := 0;
    assert ds[0..] == ds && orders[0..] == orders;
    while i < |ds|
      invariant i <= |ds| && s + MediasLines(net, ds[i..], orders[i..]) == s0 + MediasLines(net, ds, orders)
    {
      assert ds[i..][1..] == ds[i + 1..] && orders[i..][1..] == orders[i + 1..];
      ghost var before, more := s, MediasLines(net, ds[i + 1..], orders[i + 1..]);
      s := AddMedia(net, s, ds[i], orders[i]);
      assert before + (MediaLines(net, ds[i], orders[i]) + more) == s + more;
      i := i + 1;
    }
    assert s + [] == s;
  }

  /** `Message.Append`. */
  method AppendMessage(net: Net, m: Message, order: seq<string>, orders: seq<seq<string>>) returns (s: Session)
    requires Ordered(m, order, orders)
    ensures s == Append(net, m, order, orders)
  {
    hide MediasLines, OriginText, Int, ConnectionLines, BandwidthLines, OptionalLine, TimingLines, ZoneLines, EncryptionLines,
         AttributeLines, Enumerates;
    s := PrintSession(net, m, order);
    s := AddMedias(net, s, m.medias, orders);
  }

  /** The lines before the media sections. */
  method PrintSession(net: Net, m: Message, order: seq<string>) returns (s: Session)
    requires Enumerates(order, m.bandwidths)
    ensures s == [Line('v', Int(m.version)), Line('o', OriginText(m.origin)), Line('s', m.name)]
               + OptionalLine('i', m.info) + OptionalLine('u', m.uri) + OptionalLine('e', m.email) + OptionalLine('p', m.phone)
               + ConnectionLines(net, m.connection) + BandwidthLines(order, m.bandwidths)
               + TimingLines(m.timing) + ZoneLines(m.zones) + EncryptionLines(m.encryption) + AttributeLines(m.attributes)
  {
    hide OriginText, Int, ConnectionLines, BandwidthLines, OptionalLine, TimingLines, ZoneLines, EncryptionLines, AttributeLines;
    s := [Line('v', Int(m.version)), Line('o', OriginText(m.origin)), Line('s', m.name)];
    s := AddText(s, 'i', m.info);
    s := AddText(s, 'u', m.uri);
    s := AddText(s, 'e', m.email);
    s := AddText(s, 'p', m.phone);
    s := AddConnection(net, s, m.connection);
    s := AddBandwidths(s, order, m.bandwidths);
    s := AddTimings(s, m.timing);
    s := AddZones(s, m.zones);
    s := AddEncryption(s, m.encryption);
    s := AddAttributes(s, m.attributes);
  }
}
