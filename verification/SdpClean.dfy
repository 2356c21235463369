/**
 Which fields make clean lines: what the printer writes for them can be scanned again,
 and what the decoder reads from scanned lines is of this kind.
 */
module SdpClean {

  import opened SdpNumbers
  import opened SdpText
  import opened SdpFields
  import opened SdpMessage

  // ----- Clean fields -----

  predicate NoBreak(v: string) {
    '\n' !in v
  }

  predicate EmptyOrEnds(v: string) {
    v == "" || Ends(v)
  }

  predicate CleanOrigin(o: Origin) {
    NoBreak(o.username) && NoBreak(o.networkType) && NoBreak(o.addressType) && Ends(o.address)
  }

  predicate CleanConnection(c: ConnectionData) {
    NoBreak(c.networkType) && NoBreak(c.addressType) && (c.ip.V6? ==> IsV6(c.ip.words))
  }

  predicate CleanKeys(b: map<string, int>) {
    forall k | k in b :: NoBreak(k)
  }

  predicate CleanEncryption(e: Encryption) {
    e == NO_ENCRYPTION || Ends(KV(e.method_, e.key))
  }

  predicate CleanAttributes(attrs: seq<Attribute>) {
    forall a | a in attrs :: Ends(KV(a.key, a.value))
  }

  /** The last word of a description must not end in white space. */
  predicate CleanDescription(x: MediaDescription) {
    && NoBreak(x.kind) && NoBreak(x.protocol) && (forall f | f in x.formats :: NoBreak(f))
    && Ends(if x.formats == [] then x.protocol else x.formats[|x.formats| - 1])
  }

  /** All of a media section but its description. */
  predicate CleanBody(d: Media) {
    && EmptyOrEnds(d.title) && CleanConnection(d.connection) && CleanKeys(d.bandwidths)
    && CleanEncryption(d.encryption) && CleanAttributes(d.attributes)
  }

  predicate CleanSection(d: Media) {
    CleanBody(d) && CleanDescription(d.description)
  }

  predicate CleanSections(ds: seq<Media>) {
    forall d | d in ds :: CleanSection(d)
  }

  /** All of a message but the origin and the name, which the decoder may not have seen yet. */
  predicate CleanRest(m: Message) {
    && EmptyOrEnds(m.info) && EmptyOrEnds(m.uri) && EmptyOrEnds(m.email) && EmptyOrEnds(m.phone)
    && CleanConnection(m.connection) && CleanKeys(m.bandwidths)
    && CleanEncryption(m.encryption) && CleanAttributes(m.attributes) && CleanSections(m.medias)
  }

  predicate CleanMessage(m: Message) {
    CleanOrigin(m.origin) && Ends(m.name) && CleanRest(m)
  }

  // ----- Printed numbers and lists -----

  lemma EndsAdds(a: string, b: string)
    requires NoBreak(a) && Ends(b)
    ensures Ends(a + b)
  {
  }

  lemma NumbersEnd(n: int)
    ensures Ends(Int(n)) && (n >= 0 ==> Ends(Decimal(n)))
  {
  }

  lemma IntervalEnds(d: int)
    ensures Ends(Interval(d))
  {
    NumbersEnd(Quotient(d, DAY));
    NumbersEnd(Quotient(d, HOUR));
    NumbersEnd(Quotient(d, MINUTE));
    NumbersEnd(Quotient(d, SECOND));
    hide Int;
  }

  lemma {:induction false} JoinNoBreak(p: seq<string>, c: char)
    requires c != '\n' && forall w | w in p :: NoBreak(w)
    ensures NoBreak(Join(p, c))
  {
    if |p| > 1 {
      var n := |p| - 1;
      JoinNoBreak(p[..n], c);
      assert p[n] in p;
      assert NoBreak(Join(p[..n], c) + [c] + p[n]);
    }
  }

  lemma JoinEnds(p: seq<string>, c: char)
    requires c != '\n' && p != [] && (forall w | w in p :: NoBreak(w)) && Ends(p[|p| - 1])
    ensures Ends(Join(p, c))
  {
    if |p| > 1 {
      var n := |p| - 1;
      JoinNoBreak(p[..n], c);
      EndsAdds(Join(p[..n], c) + [c], p[n]);
    }
  }

  lemma OriginEnds(o: Origin)
    requires CleanOrigin(o)
    ensures Ends(OriginText(o))
  {
    var f := FilledOrigin(o);
    NumbersEnd(f.sessionID);
    NumbersEnd(f.sessionVersion);
    AddressTypeNoBreak(o.address);
    hide Int, AddressTypeOf, FilledOrigin;
    FilledNoBreak(o);
    EndsAdds(f.username + " " + Int(f.sessionID) + " " + Int(f.sessionVersion) + " " + f.networkType + " "
             + f.addressType + " ", f.address);
  }

  lemma FilledNoBreak(o: Origin)
    requires CleanOrigin(o)
    ensures var f := FilledOrigin(o);
            NoBreak(f.username) && NoBreak(f.networkType) && NoBreak(f.addressType) && Ends(f.address)
  {
    AddressTypeNoBreak(o.address);
  }

  lemma {:induction false} AddressTypeNoBreak(address: string)
    ensures NoBreak(AddressTypeOf(address))
  {
    if address != [] {
      AddressTypeNoBreak(address[1..]);
    }
  }

  lemma SuffixEnds(base: string, n: nat)
    requires Ends(base)
    ensures Ends(base + Suffix(n))
  {
    NumbersEnd(n);
    hide Decimal;
    if n > 0 {
      EndsAdds(base + "/", Decimal(n));
      assert base + ("/" + Decimal(n)) == base + "/" + Decimal(n);
    } else {
      assert base + "" == base;
    }
  }

  lemma IPEnds(net: Net, ip: IP)
    requires Faithful(net) && (ip.V6? ==> IsV6(ip.words))
    ensures Ends(IPText(net, ip))
  {
    match ip {
      case NoIP =>
      case V4(a, b, c, d) =>
        NumbersEnd(a);
        NumbersEnd(b);
        NumbersEnd(c);
        NumbersEnd(d);
        var p := [Decimal(a), Decimal(b), Decimal(c), Decimal(d)];
        hide Decimal, Join;
        assert forall w | w in p :: NoBreak(w);
        JoinEnds(p, '.');
      case V6(w) => PlainEnds(net.formatV6(w));
    }
  }

  lemma PlainEnds(s: string)
    requires PlainText(s)
    ensures Ends(s)
  {
  }

  lemma ConnectionEnds(net: Net, c: ConnectionData)
    requires Faithful(net) && CleanConnection(c)
    ensures Ends(ConnectionText(net, c))
  {
    var f := FilledConnection(c);
    IPEnds(net, c.ip);
    SuffixEnds(IPText(net, c.ip), c.ttl);
    SuffixEnds(IPText(net, c.ip) + Suffix(c.ttl), c.addresses);
    hide IPText, Suffix, Faithful, IsV6;
    EndsAdds(f.networkType + " " + f.addressType + " ", IPText(net, c.ip) + Suffix(c.ttl) + Suffix(c.addresses));
  }

  lemma RepeatEnds(t: Timing)
    requires t.offsets != []
    ensures Ends(RepeatText(t.repeat, t.active, t.offsets))
  {
    var p := IntervalTexts(t.offsets);
    forall i | 0 <= i < |p|
      ensures Ends(p[i])
    {
      IntervalEnds(t.offsets[i]);
    }
    IntervalEnds(t.repeat);
    IntervalEnds(t.active);
    hide Interval, Join, IntervalTexts;
    JoinEnds(p, ' ');
    EndsAdds(Interval(t.repeat) + " " + Interval(t.active) + " ", Join(p, ' '));
  }

  lemma ZonesEnd(zs: seq<TimeZone>)
    requires zs != []
    ensures Ends(ZonesText(zs))
  {
    var p := ZoneTexts(zs);
    hide Interval, Decimal, Join, ZoneTexts;
    forall k | 0 <= k < |p|
      ensures Ends(p[k])
    {
      var i := k / 2;
      assert p[2 * i] == Decimal(TimeToNTP(zs[i].start)) && p[2 * i + 1] == Interval(zs[i].offset);
      NumbersEnd(TimeToNTP(zs[i].start));
      IntervalEnds(zs[i].offset);
    }
    JoinEnds(p, ' ');
  }

  // ----- Media descriptions -----

  /** A description without its formats. */
  function BareText(x: MediaDescription): string {
    x.kind + " " + PortText(x) + " " + x.protocol
  }

  lemma PortEnds(x: MediaDescription)
    ensures Ends(PortText(x))
  {
    NumbersEnd(x.port);
    NumbersEnd(x.portsNumber);
    hide Int;
    if x.portsNumber != 0 {
      EndsAdds(Int(x.port) + "/", Int(x.portsNumber));
    }
  }

  /** The line of a description is clean exactly if there are formats; without them a space is left at its end. */
  lemma DescriptionLine(x: MediaDescription)
    requires CleanDescription(x)
    ensures Clean(Line('m', MediaText(x))) <==> x.formats != []
    ensures Scannable(Line('m', MediaText(x)))
    ensures TrimRight(MediaText(x)) == if x.formats == [] then BareText(x) else MediaText(x)
  {
    var head := x.kind + " " + PortText(x) + " ";
    PortEnds(x);
    hide PortText, TrimRight, Join;
    assert NoBreak(head);
    EndsAdds(head, if x.formats == [] then x.protocol else "x");
    if x.formats == [] {
      BareLine(x);
    } else {
      JoinEnds(x.formats, ' ');
      EndsAdds(head + x.protocol + " ", Join(x.formats, ' '));
      TrimRightNone(MediaText(x));
    }
  }

  lemma BareLine(x: MediaDescription)
    requires x.formats == [] && Ends(BareText(x))
    ensures MediaText(x) == BareText(x) + " " && TrimRight(MediaText(x)) == BareText(x) && !Ends(MediaText(x))
    ensures NoBreak(MediaText(x))
  {
    var bare := BareText(x);
    NoJoin();
    hide PortText, Join;
    assert MediaText(x) == bare + " " + "";
    assert bare + " " + "" == bare + " ";
    hide TrimRight;
    TrimSpace();
    TrimRightAdds(bare, " ");
    TrimRightNone(bare);
  }

  lemma NoJoin()
    ensures Join([], ' ') == ""
  {
  }

  lemma TrimSpace()
    ensures TrimRight(" ") == ""
  {
    assert " "[..0] == "";
  }

  // ----- Printed lines -----

  function MediaLine(d: Media): Line {
    Line('m', MediaText(d.description))
  }

  predicate AllClean(s: Session) {
    forall l | l in s :: Clean(l)
  }

  /** Clean lines that do not open a media section. */
  predicate Plain(s: Session) {
    forall l | l in s :: Clean(l) && l.t != 'm'
  }

  /** Lines of which those that open media sections are those of `ds`, and the others are clean. */
  ghost predicate Printed(s: Session, ds: seq<Media>) {
    && (forall l | l in s && l.t != 'm' :: Clean(l))
    && (forall l | l in s && l.t == 'm' :: exists d :: d in ds && l == MediaLine(d))
    && forall d | d in ds :: MediaLine(d) in s
  }

  lemma PlainAdds(a: Session, b: Session)
    requires Plain(a) && Plain(b)
    ensures Plain(a + b)
  {
    hide Clean;
  }

  lemma PrintedAdds(a: Session, b: Session, x: seq<Media>, y: seq<Media>)
    requires Printed(a, x) && Printed(b, y)
    ensures Printed(a + b, x + y)
  {
    hide Clean, MediaLine;
    forall l | l in a + b && l.t == 'm'
      ensures exists d :: d in x + y && l == MediaLine(d)
    {
      if l in a {
        var d :| d in x && l == MediaLine(d);
        assert d in x + y;
      } else {
        var d :| d in y && l == MediaLine(d);
        assert d in x + y;
      }
    }
  }

  lemma PlainIsPrinted(a: Session)
    requires Plain(a)
    ensures Printed(a, [])
  {
    hide Clean;
  }

  lemma OneLine(t: char, v: string)
    requires Ends(v) && t in "vosiuepcbtrzka"
    ensures Plain([Line(t, v)])
  {
  }

  lemma OptionalPlain(t: char, v: string)
    requires EmptyOrEnds(v) && t in "iuep"
    ensures Plain(OptionalLine(t, v))
  {
    if v != "" {
      OneLine(t, v);
    }
  }

  lemma ConnectionPlain(net: Net, c: ConnectionData)
    requires Faithful(net) && CleanConnection(c)
    ensures Plain(ConnectionLines(net, c))
  {
    ConnectionEnds(net, c);
    hide ConnectionText, Faithful, CleanConnection;
    if c != BLANK_CONNECTION {
      OneLine('c', ConnectionText(net, c));
    }
  }

  lemma {:induction false} BandwidthsPlain(order: seq<string>, b: map<string, int>)
    requires CleanKeys(b) && forall k | k in order :: k in b
    ensures Plain(BandwidthLines(order, b))
  {
    hide Plain;
    NothingPlain();
    if order != [] {
      var k := order[0];
      BandwidthEnds(k, b[k]);
      OneLine('b', BandwidthText(k, b[k]));
      BandwidthsPlain(order[1..], b);
      PlainAdds([Line('b', BandwidthText(k, b[k]))], BandwidthLines(order[1..], b));
    }
  }

  lemma NothingPlain()
    ensures Plain([])
  {
  }

  lemma BandwidthEnds(k: string, n: int)
    requires NoBreak(k)
    ensures Ends(BandwidthText(k, n))
  {
    NumbersEnd(n);
    hide Int;
    EndsAdds(k + ":", Int(n));
  }

  lemma {:induction false} TimingsPlain(ts: seq<Timing>)
    ensures Plain(TimingLines(ts))
  {
    hide Plain, TimingLines, TimingText, RepeatLines;
    if ts == [] {
      NothingPlain();
      NoTimings();
    } else {
      var t := ts[0];
      TimingEnds(t);
      OneLine('t', TimingText(t.start, t.end));
      RepeatPlain(t);
      TimingsPlain(ts[1..]);
      TimingUnfolds(ts);
      PlainAdds([Line('t', TimingText(t.start, t.end))], RepeatLines(t));
      PlainAdds([Line('t', TimingText(t.start, t.end))] + RepeatLines(t), TimingLines(ts[1..]));
    }
  }

  lemma TimingEnds(t: Timing)
    ensures Ends(TimingText(t.start, t.end))
  {
    NumbersEnd(TimeToNTP(t.start));
    NumbersEnd(TimeToNTP(t.end));
    hide Decimal, TimeToNTP;
    EndsAdds(Decimal(TimeToNTP(t.start)) + " ", Decimal(TimeToNTP(t.end)));
  }

  lemma RepeatPlain(t: Timing)
    ensures Plain(RepeatLines(t))
  {
    hide RepeatText;
    if t.offsets != [] {
      RepeatEnds(t);
      OneLine('r', RepeatText(t.repeat, t.active, t.offsets));
    }
  }

  lemma ZonesPlain(zs: seq<TimeZone>)
    ensures Plain(ZoneLines(zs))
  {
    hide ZonesText;
    if zs != [] {
      ZonesEnd(zs);
      OneLine('z', ZonesText(zs));
    }
  }

  lemma EncryptionPlain(e: Encryption)
    requires CleanEncryption(e)
    ensures Plain(EncryptionLines(e))
  {
    hide KV;
    if e != NO_ENCRYPTION {
      OneLine('k', KV(e.method_, e.key));
    }
  }

  lemma {:induction false} AttributesPlain(attrs: seq<Attribute>)
    requires CleanAttributes(attrs)
    ensures Plain(AttributeLines(attrs))
  {
    hide Plain, KV, Ends;
    NothingPlain();
    if attrs != [] {
      var a := attrs[0];
      OneLine('a', KV(a.key, a.value));
      AttributesPlain(attrs[1..]);
      PlainAdds([Line('a', KV(a.key, a.value))], AttributeLines(attrs[1..]));
    }
  }

  /** The lines after the one that opens a media section. */
  lemma BodyPlain(net: Net, d: Media, order: seq<string>)
    requires Faithful(net) && CleanBody(d) && Enumerates(order, d.bandwidths)
    ensures Plain(OptionalLine('i', d.title) + ConnectionLines(net, d.connection)
                  + BandwidthLines(order, d.bandwidths) + EncryptionLines(d.encryption) + AttributeLines(d.attributes))
  {
    hide Plain, OptionalLine, ConnectionLines, BandwidthLines, EncryptionLines, AttributeLines, Faithful;
    OptionalPlain('i', d.title);
    ConnectionPlain(net, d.connection);
    BandwidthsPlain(order, d.bandwidths);
    EncryptionPlain(d.encryption);
    AttributesPlain(d.attributes);
    var a := OptionalLine('i', d.title) + ConnectionLines(net, d.connection);
    PlainAdds(OptionalLine('i', d.title), ConnectionLines(net, d.connection));
    PlainAdds(a, BandwidthLines(order, d.bandwidths));
    PlainAdds(a + BandwidthLines(order, d.bandwidths), EncryptionLines(d.encryption));
    PlainAdds(a + BandwidthLines(order, d.bandwidths) + EncryptionLines(d.encryption), AttributeLines(d.attributes));
  }

  lemma SectionPrinted(net: Net, d: Media, order: seq<string>)
    requires Faithful(net) && CleanSection(d) && Enumerates(order, d.bandwidths)
    ensures Printed(MediaLines(net, d, order), [d])
  {
    hide Printed, OptionalLine, ConnectionLines, BandwidthLines, EncryptionLines, AttributeLines, Faithful, Plain;
    BodyPlain(net, d, order);
    var body := OptionalLine('i', d.title) + ConnectionLines(net, d.connection)
                + BandwidthLines(order, d.bandwidths) + EncryptionLines(d.encryption) + AttributeLines(d.attributes);
    PlainIsPrinted(body);
    OpeningPrinted(d);
    PrintedAdds([MediaLine(d)], body, [d], []);
    SectionLines(net, d, order);
    assert [d] + [] == [d];
  }

  lemma OpeningPrinted(d: Media)
    ensures Printed([MediaLine(d)], [d])
  {
  }

  lemma SectionLines(net: Net, d: Media, order: seq<string>)
    requires Enumerates(order, d.bandwidths)
    ensures MediaLines(net, d, order)
         == [MediaLine(d)] + (OptionalLine('i', d.title) + ConnectionLines(net, d.connection)
            + BandwidthLines(order, d.bandwidths) + EncryptionLines(d.encryption) + AttributeLines(d.attributes))
  {
    hide OptionalLine, ConnectionLines, BandwidthLines, EncryptionLines, AttributeLines, MediaText;
  }

  lemma {:induction false} SectionsPrinted(net: Net, ds: seq<Media>, orders: seq<seq<string>>)
    requires Faithful(net) && (forall d | d in ds :: CleanSection(d))
    requires |orders| == |ds| && forall i | 0 <= i < |ds| :: Enumerates(orders[i], ds[i].bandwidths)
    ensures Printed(MediasLines(net, ds, orders), ds)
    decreases |ds|
  {
    hide Printed, MediaLines, MediasLines, Faithful, CleanSection, Enumerates;
    SectionsUnfold(net, ds, orders);
    if ds == [] {
      NothingPrinted();
    } else {
      SectionPrinted(net, ds[0], orders[0]);
      SectionsPrinted(net, ds[1..], orders[1..]);
      PrintedAdds(MediaLines(net, ds[0], orders[0]), MediasLines(net, ds[1..], orders[1..]), [ds[0]], ds[1..]);
      assert [ds[0]] + ds[1..] == ds;
    }
  }

  lemma SectionsUnfold(net: Net, ds: seq<Media>, orders: seq<seq<string>>)
    requires |orders| == |ds| && forall i | 0 <= i < |ds| :: Enumerates(orders[i], ds[i].bandwidths)
    ensures ds == [] ==> MediasLines(net, ds, orders) == []
    ensures ds != [] ==>
              && Enumerates(orders[0], ds[0].bandwidths)
              && (forall i | 0 <= i < |ds[1..]| :: Enumerates(orders[1..][i], ds[1..][i].bandwidths))
              && MediasLines(net, ds, orders) == MediaLines(net, ds[0], orders[0]) + MediasLines(net, ds[1..], orders[1..])
  {
    hide Enumerates, MediaLines;
  }

  lemma NothingPrinted()
    ensures Printed([], [])
  {
  }

  /** The lines before the media sections. */
  function HeadLines(net: Net, m: Message, order: seq<string>): Session
    requires Enumerates(order, m.bandwidths)
  {
    [Line('v', Int(m.version)), Line('o', OriginText(m.origin)), Line('s', m.name)]
    + OptionalLine('i', m.info) + OptionalLine('u', m.uri) + OptionalLine('e', m.email) + OptionalLine('p', m.phone)
    + ConnectionLines(net, m.connection) + BandwidthLines(order, m.bandwidths)
    + TimingLines(m.timing) + ZoneLines(m.zones) + EncryptionLines(m.encryption) + AttributeLines(m.attributes)
  }

  lemma FirstPlain(m: Message)
    requires CleanMessage(m)
    ensures Plain([Line('v', Int(m.version)), Line('o', OriginText(m.origin)), Line('s', m.name)])
  {
    NumbersEnd(m.version);
    OriginEnds(m.origin);
    hide Int, OriginText;
  }

  lemma HeadPlain(net: Net, m: Message, order: seq<string>)
    requires Faithful(net) && CleanMessage(m) && Enumerates(order, m.bandwidths)
    ensures Plain(HeadLines(net, m, order))
  {
    hide Plain, Int, OriginText, OptionalLine, ConnectionLines, BandwidthLines, TimingLines, ZoneLines, EncryptionLines,
         AttributeLines, Faithful, CleanConnection, CleanOrigin;
    FirstPlain(m);
    OptionalPlain('i', m.info);
    OptionalPlain('u', m.uri);
    OptionalPlain('e', m.email);
    OptionalPlain('p', m.phone);
    ConnectionPlain(net, m.connection);
    BandwidthsPlain(order, m.bandwidths);
    TimingsPlain(m.timing);
    ZonesPlain(m.zones);
    EncryptionPlain(m.encryption);
    AttributesPlain(m.attributes);
    var s0 := [Line('v', Int(m.version)), Line('o', OriginText(m.origin)), Line('s', m.name)];
    var s1 := s0 + OptionalLine('i', m.info);
    var s2 := s1 + OptionalLine('u', m.uri);
    var s3 := s2 + OptionalLine('e', m.email);
    var s4 := s3 + OptionalLine('p', m.phone);
    var s5 := s4 + ConnectionLines(net, m.connection);
    var s6 := s5 + BandwidthLines(order, m.bandwidths);
    var s7 := s6 + TimingLines(m.timing);
    var s8 := s7 + ZoneLines(m.zones);
    var s9 := s8 + EncryptionLines(m.encryption);
    PlainAdds(s0, OptionalLine('i', m.info));
    PlainAdds(s1, OptionalLine('u', m.uri));
    PlainAdds(s2, OptionalLine('e', m.email));
    PlainAdds(s3, OptionalLine('p', m.phone));
    PlainAdds(s4, ConnectionLines(net, m.connection));
    PlainAdds(s5, BandwidthLines(order, m.bandwidths));
    PlainAdds(s6, TimingLines(m.timing));
    PlainAdds(s7, ZoneLines(m.zones));
    PlainAdds(s8, EncryptionLines(m.encryption));
    PlainAdds(s9, AttributeLines(m.attributes));
  }

  /** Every line of a clean message is clean, but for those of media sections without formats. */
  lemma MessagePrinted(net: Net, m: Message, order: seq<string>, orders: seq<seq<string>>)
    requires Faithful(net) && CleanMessage(m) && Ordered(m, order, orders)
    ensures Printed(Append(net, m, order, orders), m.medias)
  {
    HeadPlain(net, m, order);
    SectionsPrinted(net, m.medias, orders);
    hide Plain, Printed, HeadLines, MediasLines, Faithful, CleanMessage, Ordered;
    PlainIsPrinted(HeadLines(net, m, order));
    PrintedAdds(HeadLines(net, m, order), MediasLines(net, m.medias, orders), [], m.medias);
    AppendIsHead(net, m, order, orders);
    assert [] + m.medias == m.medias;
  }

  lemma AppendIsHead(net: Net, m: Message, order: seq<string>, orders: seq<seq<string>>)
    requires Ordered(m, order, orders)
    ensures Append(net, m, order, orders) == HeadLines(net, m, order) + MediasLines(net, m.medias, orders)
  {
    hide Int, OriginText, OptionalLine, ConnectionLines, BandwidthLines, TimingLines, ZoneLines, EncryptionLines,
         AttributeLines, MediasLines;
  }

  /** All lines are clean exactly if every media section has a format. */
  lemma CleanWithFormats(s: Session, ds: seq<Media>)
    requires Printed(s, ds) && forall d | d in ds :: CleanSection(d)
    ensures AllClean(s) <==> forall d | d in ds :: d.description.formats != []
    ensures forall l | l in s :: Scannable(l)
  {
    hide Clean, Scannable, MediaText;
    forall d | d in ds
      ensures Clean(MediaLine(d)) <==> d.description.formats != []
      ensures Scannable(MediaLine(d))
    {
      DescriptionLine(d.description);
    }
    forall l | l in s
      ensures Scannable(l)
    {
      if l.t != 'm' {
        CleanIsScanned(l);
      }
    }
    if AllClean(s) {
      forall d | d in ds
        ensures d.description.formats != []
      {
        assert MediaLine(d) in s;
      }
    }
  }
}
