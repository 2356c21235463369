/**
 Texts read, printed and read again, as the fuzz target of protocols/sdp/sdp_fuzz.go does:
 which sessions come back the same, and what becomes of a message on its way through text.
 */
module SdpReread {

  import opened SdpNumbers
  import opened SdpText
  import opened SdpFields
  import opened SdpMessage
  import opened SdpClean
  import opened SdpRoundTrip

  // ----- Parts of clean values -----

  lemma {:induction false} PartsNoBreak(v: string, c: char)
    requires NoBreak(v)
    ensures forall i | 0 <= i < |Split(v, c)| :: NoBreak(Split(v, c)[i])
  {
    if v != [] {
      PartsNoBreak(v[..|v| - 1], c);
      hide NoBreak;
      var p, x := Split(v[..|v| - 1], c), v[|v| - 1];
      NoBreakAdds(p[|p| - 1], v);
    }
  }

  lemma NoBreakAdds(w: string, v: string)
    requires NoBreak(w) && NoBreak(v) && v != []
    ensures NoBreak(w + [v[|v| - 1]]) && NoBreak("")
  {
  }

  lemma LastPartIs(v: string, c: char)
    requires v != [] && v[|v| - 1] != c
    ensures var p := Split(v, c); p[|p| - 1] != "" && p[|p| - 1][|p[|p| - 1]| - 1] == v[|v| - 1]
  {
  }

  /** The last part of a clean value is clean. */
  lemma LastPart(v: string)
    requires Ends(v)
    ensures var p := Split(v, ' '); (forall i | 0 <= i < |p| :: NoBreak(p[i])) && Ends(p[|p| - 1])
  {
    hide Split;
    PartsNoBreak(v, ' ');
    LastPartIs(v, ' ');
  }

  lemma OriginRead(v: string)
    requires Ends(v)
    ensures DecodeOrigin(v).Ok? ==> CleanOrigin(DecodeOrigin(v).value)
  {
    LastPart(v);
    hide Split, Atoi, Ends;
  }

  lemma DescriptionRead(v: string)
    requires Ends(v)
    ensures DecodeMedia(v).Ok? ==> CleanDescription(DecodeMedia(v).value)
  {
    LastPart(v);
    hide Split, DecodePorts, Ends;
  }

  lemma ConnectionReadClean(net: Net, media: bool, v: string, s: ConnectionData, d: ConnectionData)
    requires Faithful(net) && NoBreak(v) && CleanConnection(s) && CleanConnection(d)
    ensures var r := DecodeConnection(net, media, v, s, d);
            r.Ok? ==> CleanConnection(r.value.0) && CleanConnection(r.value.1)
  {
    PartsNoBreak(v, ' ');
    assert forall b: string :: net.parseIP(b).V6? ==> IsV6(net.parseIP(b).words);
    hide Split, DecodeByte, Faithful, IsV6;
  }

  lemma {:induction false} KeyValueText(v: string)
    ensures var (k, f, w) := KeyValue(v); v == if f then k + ":" + w else k
    ensures !KeyValue(v).1 ==> KeyValue(v).2 == ""
  {
    if v != [] {
      KeyValueText(v[..|v| - 1]);
      assert v == v[..|v| - 1] + [v[|v| - 1]];
    }
  }

  /** A key and a value are printed as they were read. */
  lemma KVReprinted(v: string)
    ensures DecodeKV(v).Ok? ==> KV(DecodeKV(v).value.0, DecodeKV(v).value.1) == v
  {
    KeyValueText(v);
    hide KeyValue;
  }

  lemma BandwidthRead(v: string)
    ensures DecodeBandwidth(v).Ok? ==> NoBreak(DecodeBandwidth(v).value.0)
  {
    hide DecodeKV, Atoi;
  }

  // ----- What the decoder has read so far -----

  /** The origin and the name may still be missing. */
  predicate Open(m: Message) {
    (m.origin.address == "" || CleanOrigin(m.origin)) && EmptyOrEnds(m.name) && CleanRest(m)
  }

  /** What a line must keep, if it is decoded. */
  ghost predicate KeepsClean(r: Result<(Message, Media)>, l: Line, m: Message, d: Media) {
    r.Ok? ==>
      && Open(r.value.0) && r.value.0.medias == m.medias && CleanBody(r.value.1)
      && (l.t == 'm' || CleanSection(d) ==> CleanSection(r.value.1))
  }

  lemma TextKeepsClean(net: Net, s: Section, l: Line, m: Message, d: Media)
    requires Clean(l) && Open(m) && CleanBody(d) && l.t in "vsiuep"
    ensures KeepsClean(DecodeField(net, s, l, m, d), l, m, d)
  {
    hide Atoi, Ends, CleanOrigin, CleanConnection, CleanDescription, CleanEncryption, CleanAttributes, CleanKeys, IsSpace,
         CleanSections;
  }

  lemma TimeKeepsClean(net: Net, s: Section, l: Line, m: Message, d: Media)
    requires Open(m) && CleanBody(d) && l.t in "trz"
    ensures KeepsClean(DecodeField(net, s, l, m, d), l, m, d)
  {
    hide DecodeTiming, DecodeRepeat, DecodeZones, Ends, CleanOrigin, CleanConnection, CleanDescription, CleanEncryption,
         CleanAttributes, CleanKeys, CleanSections;
  }

  lemma OriginKeepsClean(net: Net, s: Section, l: Line, m: Message, d: Media)
    requires Clean(l) && Open(m) && CleanBody(d) && l.t == 'o'
    ensures KeepsClean(DecodeField(net, s, l, m, d), l, m, d)
  {
    OriginRead(l.value);
    hide DecodeOrigin, Ends, CleanOrigin, CleanConnection, CleanDescription, CleanEncryption, CleanAttributes, CleanKeys,
         IsSpace, CleanSections;
  }

  lemma DescriptionKeepsClean(net: Net, s: Section, l: Line, m: Message, d: Media)
    requires Clean(l) && Open(m) && CleanBody(d) && l.t == 'm'
    ensures KeepsClean(DecodeField(net, s, l, m, d), l, m, d)
  {
    DescriptionRead(l.value);
    hide DecodeMedia, Ends, CleanOrigin, CleanConnection, CleanDescription, CleanEncryption, CleanAttributes, CleanKeys,
         IsSpace, CleanSections;
  }

  lemma ConnectionKeepsClean(net: Net, s: Section, l: Line, m: Message, d: Media)
    requires Faithful(net) && Clean(l) && Open(m) && CleanBody(d) && l.t == 'c'
    ensures KeepsClean(DecodeField(net, s, l, m, d), l, m, d)
  {
    ConnectionReadClean(net, s == InMedia, l.value, m.connection, d.connection);
    hide DecodeConnection, Ends, CleanOrigin, CleanConnection, CleanDescription, CleanEncryption, CleanAttributes, CleanKeys,
         IsSpace, Faithful, CleanSections;
  }

  lemma BandwidthKeepsClean(net: Net, s: Section, l: Line, m: Message, d: Media)
    requires Open(m) && CleanBody(d) && l.t == 'b'
    ensures KeepsClean(DecodeField(net, s, l, m, d), l, m, d)
  {
    BandwidthRead(l.value);
    hide DecodeBandwidth, Ends, CleanOrigin, CleanConnection, CleanDescription, CleanEncryption, CleanAttributes, NoBreak,
         CleanSections;
  }

  lemma KVKeepsClean(net: Net, s: Section, l: Line, m: Message, d: Media)
    requires Clean(l) && Open(m) && CleanBody(d) && (l.t == 'k' || l.t == 'a')
    ensures KeepsClean(DecodeField(net, s, l, m, d), l, m, d)
  {
    KVReprinted(l.value);
    hide DecodeKV, KV, Ends, CleanOrigin, CleanConnection, CleanDescription, CleanKeys, IsSpace, CleanSections;
  }

  lemma FieldKeepsClean(net: Net, s: Section, l: Line, m: Message, d: Media)
    requires Faithful(net) && Clean(l) && Open(m) && CleanBody(d) && IsKnown(l.t)
    ensures KeepsClean(DecodeField(net, s, l, m, d), l, m, d)
  {
    hide DecodeField, KeepsClean, Open, CleanBody, Clean, Faithful;
    if l.t in "vsiuep" {
      TextKeepsClean(net, s, l, m, d);
    } else if l.t in "trz" {
      TimeKeepsClean(net, s, l, m, d);
    } else if l.t == 'o' {
      OriginKeepsClean(net, s, l, m, d);
    } else if l.t == 'm' {
      DescriptionKeepsClean(net, s, l, m, d);
    } else if l.t == 'c' {
      ConnectionKeepsClean(net, s, l, m, d);
    } else if l.t == 'b' {
      BandwidthKeepsClean(net, s, l, m, d);
    } else {
      KVKeepsClean(net, s, l, m, d);
    }
  }

  lemma {:induction false} TimeKeeps(net: Net, lines: Session, pos: nat, m: Message)
    requires Faithful(net) && AllClean(lines) && Open(m)
    ensures var r := TimeLoop(net, lines, pos, m); r.Ok? ==> Open(r.value.0) && AllClean(r.value.1)
    decreases |lines|
  {
    if lines != [] {
      hide IsExpected, IsKnown, DecodeField, Open, Clean, Faithful, CleanBody;
      var l := lines[0];
      BlankIsClean();
      if IsExpected(l.t, InTime, pos) {
        ExpectedIsKnown(l.t, InTime, pos);
        FieldKeepsClean(net, InTime, l, m, BLANK_MEDIA);
      }
      TimeKeeps(net, lines[1..], pos, m);
      match DecodeField(net, InTime, l, m, BLANK_MEDIA) {
        case Ok((m', _)) =>
          if Open(m') {
            TimeKeeps(net, lines[1..], Advanced(l.t, pos), m');
          }
        case _ =>
      }
    }
  }

  lemma BlankIsClean()
    ensures CleanBody(BLANK_MEDIA) && Open(BLANK_MESSAGE)
  {
  }

  lemma {:induction false} MediaKeeps(net: Net, lines: Session, pos: nat, m: Message, d: Media)
    requires Faithful(net) && AllClean(lines) && Open(m) && CleanBody(d)
    requires CleanSection(d) || (pos == 0 && lines != [] && lines[0].t == 'm')
    ensures var r := MediaLoop(net, lines, pos, m, d);
            r.Ok? ==> Open(r.value.0) && CleanSection(r.value.1) && AllClean(r.value.2)
    decreases |lines|
  {
    if lines != [] {
      hide IsExpected, IsKnown, DecodeField, Open, Clean, Faithful, CleanBody, CleanDescription;
      var l := lines[0];
      MediaOpensHere();
      if IsExpected(l.t, InMedia, pos) {
        ExpectedIsKnown(l.t, InMedia, pos);
        FieldKeepsClean(net, InMedia, l, m, d);
        match DecodeField(net, InMedia, l, m, d) {
          case Ok((m', d')) => MediaKeeps(net, lines[1..], Advanced(l.t, pos), m', d');
          case _ =>
        }
      } else if CleanSection(d) {
        MediaKeeps(net, lines[1..], pos, m, d);
      }
    }
  }

  lemma MediaOpensHere()
    ensures IsExpected('m', InMedia, 0)
  {
    ExpectedInMedia('m', 0, 0);
  }

  lemma {:induction false} SessionKeeps(net: Net, lines: Session, pos: nat, m: Message)
    requires Faithful(net) && AllClean(lines) && Open(m)
    ensures var r := SessionLoop(net, lines, pos, m); r.Ok? ==> Open(r.value)
    decreases |lines|
  {
    hide SessionLoop, TimeLoop, MediaLoop, IsExpected, IsKnown, DecodeField, Open, Clean, Faithful, CleanBody, CleanDescription;
    SessionUnfolds(net, lines, pos, m);
    if lines != [] {
      var l, pos' := lines[0], Advanced(lines[0].t, pos);
      BlankIsClean();
      if !IsExpected(l.t, InSession, pos) {
        SessionKeeps(net, lines[1..], pos, m);
      } else if l.t == 't' {
        TimeKeeps(net, lines, 0, m);
        var r := TimeLoop(net, lines, 0, m);
        if r.Ok? {
          SessionKeeps(net, r.value.1, pos', r.value.0);
        }
      } else if l.t == 'm' {
        MediaKeeps(net, lines, 0, m, BLANK_MEDIA);
        var r := MediaLoop(net, lines, 0, m, BLANK_MEDIA);
        if r.Ok? {
          SectionAdded(r.value.0, r.value.1);
          SessionKeeps(net, r.value.2, pos', r.value.0.(medias := r.value.0.medias + [r.value.1]));
        }
      } else {
        ExpectedIsKnown(l.t, InSession, pos);
        FieldKeepsClean(net, InSession, l, m, BLANK_MEDIA);
        var r := DecodeField(net, InSession, l, m, BLANK_MEDIA);
        if r.Ok? {
          SessionKeeps(net, lines[1..], pos', r.value.0);
        }
      }
    }
  }

  lemma SectionAdded(m: Message, d: Media)
    requires Open(m) && CleanSection(d)
    ensures Open(m.(medias := m.medias + [d]))
  {
    hide Ends, CleanOrigin, CleanConnection, CleanDescription, CleanEncryption, CleanAttributes, CleanKeys, CleanBody;
  }

  /** Whatever is decoded from clean lines is a clean message. */
  lemma DecodedMessageIsClean(net: Net, lines: Session)
    requires Faithful(net) && AllClean(lines)
    ensures var r := Decode(net, lines); r.Ok? ==> CleanMessage(r.value)
  {
    hide SessionLoop, Faithful, AllClean, Ends, CleanRest;
    BlankIsClean();
    SessionKeeps(net, lines, 0, BLANK_MESSAGE);
  }

  // ----- The fuzz target -----

  /**
   For every text that decodes to a message, the printed message is scanned without an
   error, and the lines come back the same exactly when every media section has a format.
   */
  lemma Reread(net: Net, text: string, order: seq<string>, orders: seq<seq<string>>)
    requires Faithful(net)
    requires var (s, err) := DecodeLines(Lines(text));
             !err && Decode(net, s).Ok? && Ordered(Decode(net, s).value, order, orders)
    ensures var m := Decode(net, DecodeLines(Lines(text)).0).value;
            var printed := Append(net, m, order, orders);
            var (s, err) := DecodeLines(Lines(AppendTo(printed)));
            !err && (s == printed <==> forall d | d in m.medias :: d.description.formats != [])
  {
    hide *;
    var s := DecodeLines(Lines(text)).0;
    var m := Decode(net, s).value;
    var printed := Append(net, m, order, orders);
    TextIsClean(text);
    DecodedMessageIsClean(net, s);
    MessagePrinted(net, m, order, orders);
    SectionsOfClean(m);
    CleanWithFormats(printed, m.medias);
    ScanText(printed);
    SessionRoundTrip(printed);
    AllCleanIs(printed);
  }

  lemma TextIsClean(text: string)
    ensures AllClean(DecodeLines(Lines(text)).0)
  {
    hide Lines, DecodeLines, Clean, Trimmed;
    ScannedIsTrimmed(text);
    DecodedIsClean(Lines(text));
  }

  lemma SectionsOfClean(m: Message)
    requires CleanMessage(m)
    ensures forall d | d in m.medias :: CleanSection(d)
  {
  }

  lemma AllCleanIs(s: Session)
    ensures AllClean(s) <==> forall l | l in s :: Clean(l)
  {
  }

  // ----- A message through text -----

  /** An empty list of formats where one empty format is read. */
  function WithoutEmpty(x: MediaDescription): MediaDescription {
    if x.formats == [""] then x.(formats := []) else x
  }

  function SectionWithout(d: Media): Media {
    d.(description := WithoutEmpty(d.description))
  }

  function SectionsWithout(ds: seq<Media>): (r: seq<Media>)
    ensures |r| == |ds| && forall i | 0 <= i < |ds| :: r[i] == SectionWithout(ds[i])
  {
    seq(|ds|, i requires 0 <= i < |ds| => SectionWithout(ds[i]))
  }

  function MessageWithout(m: Message): Message {
    m.(medias := SectionsWithout(m.medias))
  }

  function DescriptionWithout(r: Result<MediaDescription>): Result<MediaDescription> {
    match r
    case Ok(x) => Ok(WithoutEmpty(x))
    case Err => Err
    case Panic => Panic
  }

  function FieldWithout(r: Result<(Message, Media)>): Result<(Message, Media)> {
    match r
    case Ok((m, d)) => Ok((MessageWithout(m), SectionWithout(d)))
    case Err => Err
    case Panic => Panic
  }

  /** Two lines that are read alike, but that an empty format of the one is missing in the other. */
  predicate Alike(l: Line, l': Line) {
    && l.t == l'.t
    && if l.t == 'm' then DecodeMedia(l'.value) == DescriptionWithout(DecodeMedia(l.value)) else l' == l
  }

  predicate AllAlike(a: Session, b: Session) {
    |a| == |b| && forall i | 0 <= i < |a| :: Alike(a[i], b[i])
  }

  lemma FieldAlike(net: Net, s: Section, l: Line, l': Line, m: Message, d: Media)
    requires Alike(l, l') && IsKnown(l.t)
    ensures DecodeField(net, s, l', MessageWithout(m), SectionWithout(d)) == FieldWithout(DecodeField(net, s, l, m, d))
  {
    hide Atoi, DecodeOrigin, DecodeConnection, DecodeBandwidth, DecodeTiming, DecodeRepeat, DecodeZones, DecodeKV,
         DecodeMedia, SectionsWithout, WithoutEmpty;
  }

  lemma {:induction false} TimeAlike(net: Net, a: Session, b: Session, pos: nat, m: Message)
    requires AllAlike(a, b)
    ensures var r, r' := TimeLoop(net, a, pos, m), TimeLoop(net, b, pos, MessageWithout(m));
      && r.Ok? == r'.Ok? && r.Err? == r'.Err?
      && (r.Ok? ==> r'.value.0 == MessageWithout(r.value.0) && AllAlike(r.value.1, r'.value.1))
    decreases |a|
  {
    if a != [] {
      hide IsExpected, IsKnown, DecodeField, MessageWithout, SectionWithout;
      var l, l' := a[0], b[0];
      assert Alike(l, l');
      hide Alike;
      SameType(l, l');
      TimeAlike(net, a[1..], b[1..], pos, m);
      if IsExpected(l.t, InTime, pos) {
        ExpectedIsKnown(l.t, InTime, pos);
        BlankWithout();
        FieldAlike(net, InTime, l, l', m, BLANK_MEDIA);
        match DecodeField(net, InTime, l, m, BLANK_MEDIA) {
          case Ok((m', _)) => TimeAlike(net, a[1..], b[1..], Advanced(l.t, pos), m');
          case _ =>
        }
      }
    }
  }

  lemma SameType(l: Line, l': Line)
    requires Alike(l, l')
    ensures l.t == l'.t
  {
  }

  lemma BlankWithout()
    ensures SectionWithout(BLANK_MEDIA) == BLANK_MEDIA && MessageWithout(BLANK_MESSAGE) == BLANK_MESSAGE
  {
  }

  lemma {:induction false} MediaAlike(net: Net, a: Session, b: Session, pos: nat, m: Message, d: Media)
    requires AllAlike(a, b)
    ensures var r, r' := MediaLoop(net, a, pos, m, d), MediaLoop(net, b, pos, MessageWithout(m), SectionWithout(d));
      && r.Ok? == r'.Ok? && r.Err? == r'.Err?
      && (r.Ok? ==> r'.value.0 == MessageWithout(r.value.0) && r'.value.1 == SectionWithout(r.value.1)
                    && AllAlike(r.value.2, r'.value.2))
    decreases |a|
  {
    if a != [] {
      hide IsExpected, IsKnown, DecodeField, MessageWithout, SectionWithout;
      var l, l' := a[0], b[0];
      assert Alike(l, l');
      hide Alike;
      SameType(l, l');
      MediaAlike(net, a[1..], b[1..], pos, m, d);
      if IsExpected(l.t, InMedia, pos) {
        ExpectedIsKnown(l.t, InMedia, pos);
        FieldAlike(net, InMedia, l, l', m, d);
        match DecodeField(net, InMedia, l, m, d) {
          case Ok((m', d')) => MediaAlike(net, a[1..], b[1..], Advanced(l.t, pos), m', d');
          case _ =>
        }
      }
    }
  }

  lemma {:induction false} SessionAlike(net: Net, a: Session, b: Session, pos: nat, m: Message)
    requires AllAlike(a, b)
    ensures var r, r' := SessionLoop(net, a, pos, m), SessionLoop(net, b, pos, MessageWithout(m));
      r.Ok? == r'.Ok? && r.Err? == r'.Err? && (r.Ok? ==> r'.value == MessageWithout(r.value))
    decreases |a|
  {
    hide SessionLoop, TimeLoop, MediaLoop, IsExpected, IsKnown, DecodeField, MessageWithout, SectionWithout, Alike;
    SessionUnfolds(net, a, pos, m);
    SessionUnfolds(net, b, pos, MessageWithout(m));
    BlankWithout();
    if a != [] {
      var l, l', pos' := a[0], b[0], Advanced(a[0].t, pos);
      SameType(l, l');
      if !IsExpected(l.t, InSession, pos) {
        SessionAlike(net, a[1..], b[1..], pos, m);
      } else if l.t == 't' {
        TimeAlike(net, a, b, 0, m);
        var r, r' := TimeLoop(net, a, 0, m), TimeLoop(net, b, 0, MessageWithout(m));
        if r.Ok? {
          SessionAlike(net, r.value.1, r'.value.1, pos', r.value.0);
        }
      } else if l.t == 'm' {
        MediaAlike(net, a, b, 0, m, BLANK_MEDIA);
        var r, r' := MediaLoop(net, a, 0, m, BLANK_MEDIA), MediaLoop(net, b, 0, MessageWithout(m), BLANK_MEDIA);
        if r.Ok? {
          AddsWithout(r.value.0, r.value.1);
          SessionAlike(net, r.value.2, r'.value.2, pos', r.value.0.(medias := r.value.0.medias + [r.value.1]));
        }
      } else {
        ExpectedIsKnown(l.t, InSession, pos);
        FieldAlike(net, InSession, l, l', m, BLANK_MEDIA);
        var r := DecodeField(net, InSession, l, m, BLANK_MEDIA);
        if r.Ok? {
          SessionAlike(net, a[1..], b[1..], pos', r.value.0);
        }
      }
    }
  }

  lemma AddsWithout(m: Message, d: Media)
    ensures var x, y := MessageWithout(m), SectionWithout(d);
            MessageWithout(m.(medias := m.medias + [d])) == x.(medias := x.medias + [y])
  {
    assert SectionsWithout(m.medias + [d]) == SectionsWithout(m.medias) + [SectionWithout(d)];
  }

  /** What is decoded from lines that are read alike. */
  lemma DecodeAlike(net: Net, a: Session, b: Session)
    requires AllAlike(a, b)
    ensures var r, r' := Decode(net, a), Decode(net, b);
      r.Ok? == r'.Ok? && r.Err? == r'.Err? && (r.Ok? ==> r'.value == MessageWithout(r.value))
  {
    hide SessionLoop, AllAlike;
    BlankWithout();
    SessionAlike(net, a, b, 0, BLANK_MESSAGE);
  }

  lemma BareRead(x: MediaDescription)
    requires GoodMedia(x) && x.formats == []
    ensures DecodeMedia(BareText(x)) == Ok(x)
  {
    var p := [x.kind, PortText(x), x.protocol];
    hide PortText, DecodePorts, Split, Join, Subfields;
    PortsRoundTrip(x);
    Join3(x.kind, PortText(x), x.protocol, ' ');
    WordsRoundTrip(p);
    assert p[3..] == [];
  }

  lemma MediaLineAlike(x: MediaDescription)
    requires GoodMedia(x) && CleanDescription(x)
    ensures Alike(Line('m', MediaText(x)), ScannedLine(Line('m', MediaText(x))))
  {
    MediaRead(x);
    DescriptionLine(x);
    if x.formats == [] {
      BareRead(x);
    } else {
      assert x.formats[0] in x.formats;
    }
    hide MediaText, DecodeMedia, TrimRight, BareText;
  }

  lemma PrintedAlike(s: Session, ds: seq<Media>)
    requires Printed(s, ds) && forall d | d in ds :: GoodMedia(d.description) && CleanSection(d)
    ensures AllAlike(s, Scanned(s))
  {
    hide GoodMedia, CleanDescription, Clean, Alike, ScannedLine, MediaText;
    forall i | 0 <= i < |s|
      ensures Alike(s[i], ScannedLine(s[i]))
    {
      var l := s[i];
      assert l in s;
      if l.t == 'm' {
        var d :| d in ds && l == MediaLine(d);
        MediaLineAlike(d.description);
      } else {
        CleanIsScanned(l);
        SameIsAlike(l);
      }
    }
  }

  lemma SameIsAlike(l: Line)
    requires l.t != 'm'
    ensures Alike(l, l)
  {
  }

  function KeptSection(d: Media): Media {
    d.(connection := if d.connection == BLANK_CONNECTION then BLANK_CONNECTION else SeenConnection(true, d.connection))
  }

  function KeptSections(ds: seq<Media>): (r: seq<Media>)
    ensures |r| == |ds| && forall i | 0 <= i < |ds| :: r[i] == KeptSection(ds[i])
  {
    seq(|ds|, i requires 0 <= i < |ds| => KeptSection(ds[i]))
  }

  /** What becomes of a message that is printed as text and decoded from it: descriptions of media are kept. */
  function TextOutcome(m: Message): Result<Message> {
    match Outcome(m)
    case Ok(x) => Ok(x.(medias := KeptSections(m.medias)))
    case _ => Err
  }

  lemma SeenWithout(ds: seq<Media>)
    requires forall d | d in ds :: GoodMedia(d.description)
    ensures SectionsWithout(SeenSections(ds)) == KeptSections(ds)
  {
    SeenSectionsAt(ds);
    hide SeenSections;
    forall i | 0 <= i < |ds|
      ensures SectionWithout(SeenSection(ds[i])) == KeptSection(ds[i])
    {
      assert ds[i] in ds;
      FormatsKept(ds[i].description);
    }
  }

  lemma FormatsKept(x: MediaDescription)
    requires GoodMedia(x)
    ensures WithoutEmpty(SeenMedia(x)) == x
  {
    if x.formats != [] {
      assert x.formats[0] in x.formats;
    }
  }

  lemma OutcomeWithout(m: Message)
    requires Good(m)
    ensures var r := Outcome(m);
            TextOutcome(m) == if r.Ok? then Ok(MessageWithout(r.value)) else Err
    ensures Outcome(m) != Panic
  {
    SectionsOfGood(m);
    SeenWithout(m.medias);
    hide SeenSections, SectionsWithout, KeptSections, SessionAfter, SeenTimings, Good, FilledOrigin;
  }

  lemma SectionsOfGood(m: Message)
    requires Good(m)
    ensures forall d | d in m.medias :: GoodMedia(d.description)
  {
  }

  /**
   The exact outcome of printing a message as text and decoding that text, for every
   message of well-formed fields without line breaks or white space at their ends.
   */
  lemma DecodeText(net: Net, m: Message, order: seq<string>, orders: seq<seq<string>>)
    requires Faithful(net) && Good(m) && CleanMessage(m) && Ordered(m, order, orders)
    ensures var (s, err) := DecodeLines(Lines(AppendTo(Append(net, m, order, orders))));
            !err && Decode(net, s) == TextOutcome(m)
  {
    hide *;
    var printed := Append(net, m, order, orders);
    MessagePrinted(net, m, order, orders);
    SectionsOfClean(m);
    SectionsOfGood(m);
    CleanWithFormats(printed, m.medias);
    ScanText(printed);
    PrintedAlike(printed, m.medias);
    DecodeAlike(net, printed, Scanned(printed));
    DecodeAppend(net, m, order, orders);
    OutcomeWithout(m);
  }

  /** Supported through text: as `Supported`, but formats are not needed. */
  predicate SupportedText(m: Message) {
    SupportedTimes(m) && forall d | d in m.medias :: Preserved(true, d.connection)
  }

  /** Through text a message is given back exactly when its times and connection data are preserved. */
  lemma TextRoundTrip(net: Net, m: Message, order: seq<string>, orders: seq<seq<string>>)
    requires Faithful(net) && Good(m) && CleanMessage(m) && Ordered(m, order, orders)
    ensures var (s, err) := DecodeLines(Lines(AppendTo(Append(net, m, order, orders))));
            !err && (Decode(net, s) == Ok(Filled(m)) <==> SupportedText(m))
  {
    hide *;
    DecodeText(net, m, order, orders);
    TextSupported(m);
  }

  lemma SectionKept(d: Media)
    requires !Refused(d.connection)
    ensures KeptSection(d) == FilledSection(d) <==> Preserved(true, d.connection)
  {
    var x, y := KeptSection(d), FilledSection(d);
    assert x == y <==> x.connection == y.connection;
  }

  lemma SectionsKept(ds: seq<Media>)
    requires !AnyRefused(ds)
    ensures KeptSections(ds) == FilledSections(ds) <==> forall d | d in ds :: Preserved(true, d.connection)
  {
    forall i | 0 <= i < |ds|
      ensures KeptSection(ds[i]) == FilledSection(ds[i]) <==> Preserved(true, ds[i].connection)
    {
      assert ds[i] in ds;
      SectionKept(ds[i]);
    }
    hide KeptSections, FilledSections, KeptSection, FilledSection, Preserved, AnyRefused;
    if KeptSections(ds) == FilledSections(ds) {
      forall d | d in ds
        ensures Preserved(true, d.connection)
      {
        var i :| 0 <= i < |ds| && ds[i] == d;
        assert KeptSections(ds)[i] == FilledSections(ds)[i];
      }
    }
  }

  lemma TextSupported(m: Message)
    ensures TextOutcome(m) == Ok(Filled(m)) <==> SupportedText(m)
  {
    var c, ds := m.connection, m.medias;
    var s := if c == BLANK_CONNECTION then BLANK_CONNECTION else SeenConnection(false, c);
    if Outcome(m).Ok? {
      SectionsKept(ds);
      TimingPreserved(m.timing);
      if forall d | d in ds :: Preserved(true, d.connection) {
        SessionUntouched(ds, s);
      }
      var x, y := TextOutcome(m).value, Filled(m);
      assert x == y <==> x.connection == y.connection && x.timing == y.timing && x.medias == y.medias;
    } else {
      RefusedIsUnsupported(m);
    }
  }

  lemma RefusedIsUnsupported(m: Message)
    requires Outcome(m) == Err
    ensures !SupportedText(m)
  {
  }

  // ----- Lines of unknown types -----

  function KnownLines(lines: Session): Session {
    if lines == [] then [] else (if IsKnown(lines[0].t) then [lines[0]] else []) + KnownLines(lines[1..])
  }

  lemma KnownStep(lines: Session)
    requires lines != []
    ensures !IsKnown(lines[0].t) ==> KnownLines(lines) == KnownLines(lines[1..])
    ensures IsKnown(lines[0].t) ==> KnownLines(lines) == [lines[0]] + KnownLines(lines[1..])
    ensures IsKnown(lines[0].t) ==> KnownLines(lines)[1..] == KnownLines(lines[1..]) && KnownLines(lines)[0] == lines[0]
  {
    assert [] + KnownLines(lines[1..]) == KnownLines(lines[1..]);
  }

  lemma NothingKnown()
    ensures KnownLines([]) == []
  {
  }

  lemma {:induction false} TimeIgnores(net: Net, lines: Session, pos: nat, m: Message)
    ensures var r, r' := TimeLoop(net, lines, pos, m), TimeLoop(net, KnownLines(lines), pos, m);
      && r.Ok? == r'.Ok? && r.Err? == r'.Err?
      && (r.Ok? ==> r'.value.0 == r.value.0 && r'.value.1 == KnownLines(r.value.1))
    decreases |lines|
  {
    hide IsExpected, IsKnown, DecodeField, KnownLines;
    if lines == [] {
      NothingKnown();
    } else {
      var l := lines[0];
      KnownStep(lines);
      TimeIgnores(net, lines[1..], pos, m);
      if IsExpected(l.t, InTime, pos) {
        ExpectedIsKnown(l.t, InTime, pos);
        match DecodeField(net, InTime, l, m, BLANK_MEDIA) {
          case Ok((m', _)) => TimeIgnores(net, lines[1..], Advanced(l.t, pos), m');
          case _ =>
        }
      }
    }
  }

  lemma {:induction false} MediaIgnores(net: Net, lines: Session, pos: nat, m: Message, d: Media)
    ensures var r, r' := MediaLoop(net, lines, pos, m, d), MediaLoop(net, KnownLines(lines), pos, m, d);
      && r.Ok? == r'.Ok? && r.Err? == r'.Err?
      && (r.Ok? ==> r'.value.0 == r.value.0 && r'.value.1 == r.value.1 && r'.value.2 == KnownLines(r.value.2))
    decreases |lines|
  {
    hide IsExpected, IsKnown, DecodeField, KnownLines;
    if lines == [] {
      NothingKnown();
    } else {
      var l := lines[0];
      KnownStep(lines);
      MediaIgnores(net, lines[1..], pos, m, d);
      if IsExpected(l.t, InMedia, pos) {
        ExpectedIsKnown(l.t, InMedia, pos);
        match DecodeField(net, InMedia, l, m, d) {
          case Ok((m', d')) => MediaIgnores(net, lines[1..], Advanced(l.t, pos), m', d');
          case _ =>
        }
      }
    }
  }

  lemma {:induction false} SessionIgnores(net: Net, lines: Session, pos: nat, m: Message)
    ensures SessionLoop(net, KnownLines(lines), pos, m) == SessionLoop(net, lines, pos, m)
    decreases |lines|
  {
    hide SessionLoop, TimeLoop, MediaLoop, IsExpected, IsKnown, DecodeField, KnownLines;
    SessionUnfolds(net, lines, pos, m);
    SessionUnfolds(net, KnownLines(lines), pos, m);
    if lines == [] {
      NothingKnown();
    } else {
      var l, pos' := lines[0], Advanced(lines[0].t, pos);
      KnownStep(lines);
      if !IsExpected(l.t, InSession, pos) {
        SessionIgnores(net, lines[1..], pos, m);
      } else {
        ExpectedIsKnown(l.t, InSession, pos);
        if l.t == 't' {
          TimeIgnores(net, lines, 0, m);
          var r := TimeLoop(net, lines, 0, m);
          if r.Ok? {
            SessionIgnores(net, r.value.1, pos', r.value.0);
          }
        } else if l.t == 'm' {
          MediaIgnores(net, lines, 0, m, BLANK_MEDIA);
          var r := MediaLoop(net, lines, 0, m, BLANK_MEDIA);
          if r.Ok? {
            SessionIgnores(net, r.value.2, pos', r.value.0.(medias := r.value.0.medias + [r.value.1]));
          }
        } else {
          var r := DecodeField(net, InSession, l, m, BLANK_MEDIA);
          if r.Ok? {
            SessionIgnores(net, lines[1..], pos', r.value.0);
          }
        }
      }
    }
  }

  /** Lines of unknown types, anywhere and any number of them, change nothing. */
  lemma UnknownIgnored(net: Net, lines: Session)
    ensures Decode(net, KnownLines(lines)) == Decode(net, lines)
  {
    hide SessionLoop, KnownLines;
    SessionIgnores(net, lines, 0, BLANK_MESSAGE);
  }

  // ----- A text that does not come back -----

  const AUDIO := Media("", MediaDescription("audio", 9, 0, "RTP", []), BLANK_CONNECTION, [], NO_ENCRYPTION, map[])

  const CALL := Message(0, Origin("a", 1, 1, "IN", "IP4", "b"), "x", "", "", "", "", BLANK_CONNECTION, [], [AUDIO],
                        NO_ENCRYPTION, map[], [], [])

  lemma CallIsGood()
    ensures Good(CALL)
  {
    assert CALL.medias == [AUDIO];
  }

  lemma CallIsClean()
    ensures CleanMessage(CALL)
  {
    assert CALL.medias == [AUDIO];
  }

  lemma CallIsSupported()
    ensures Ordered(CALL, [], [[]]) && SupportedText(CALL) && Filled(CALL) == CALL
  {
    assert CALL.medias == [AUDIO];
  }

  /**
   The text whose media line is "m=audio 9 RTP": it is decoded to a message that is
   printed with a space at the end of that line, and the scanner does not give that back.
   */
  lemma RereadFails(net: Net)
    requires Faithful(net)
    ensures Ordered(CALL, [], [[]])
    ensures var printed := Append(net, CALL, [], [[]]);
            var (s, err) := DecodeLines(Lines(AppendTo(printed)));
            && !err && Decode(net, s) == Ok(CALL) && s != printed
            && (exists i :: 0 <= i < |s| && s[i] == Line('m', "audio 9 RTP"))
  {
    hide *;
    CallIsGood();
    CallIsClean();
    CallIsSupported();
    var printed := Append(net, CALL, [], [[]]);
    TextRoundTrip(net, CALL, [], [[]]);
    MessagePrinted(net, CALL, [], [[]]);
    SectionsOfClean(CALL);
    CleanWithFormats(printed, CALL.medias);
    ScanText(printed);
    SessionRoundTrip(printed);
    AllCleanIs(printed);
    CallHasNoFormats();
    OpeningIsScanned(printed, CALL.medias, AUDIO);
    AudioText();
  }

  lemma AudioText()
    ensures BareText(AUDIO.description) == "audio 9 RTP"
  {
    assert Int(9) == "9";
  }

  lemma CallHasNoFormats()
    ensures AUDIO in CALL.medias && AUDIO.description.formats == []
  {
    assert CALL.medias == [AUDIO];
  }

  lemma OpeningIsScanned(s: Session, ds: seq<Media>, d: Media)
    requires Printed(s, ds) && d in ds && CleanSection(d) && d.description.formats == []
    ensures exists i :: 0 <= i < |s| && Scanned(s)[i] == Line('m', BareText(d.description))
  {
    hide MediaText, TrimRight, BareText;
    DescriptionLine(d.description);
    assert MediaLine(d) in s;
    var i :| 0 <= i < |s| && s[i] == MediaLine(d);
    assert Scanned(s)[i] == Line('m', BareText(d.description));
  }
}
