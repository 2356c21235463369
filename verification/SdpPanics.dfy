/**
 When the SDP decoder panics: only on repeat times and time zones that end in a space, which
 no scanned text has.
 */
module SdpPanics {

  import opened SdpNumbers
  import opened SdpText
  import opened SdpFields
  import opened SdpMessage
  import opened SdpClean
  import opened SdpReread

  predicate TrailingSpace(v: string) {
    v != [] && v[|v| - 1] == ' '
  }

  lemma LastPartEmpty(v: string)
    ensures var p := Split(v, ' '); p[|p| - 1] == "" <==> v == [] || TrailingSpace(v)
  {
    if v != [] && !TrailingSpace(v) {
      LastPartIs(v, ' ');
    }
  }

  lemma SubfieldsClosed(v: string)
    ensures Subfields(v).Ok? ==> Subfields(v).value == Split(v, ' ') && Closed(Split(v, ' '))
  {
    hide Split;
  }

  /** Every interval but the last is read. */
  predicate IntervalsRead(p: seq<string>) {
    forall i | 0 <= i < |p| - 1 :: DecodeInterval(p[i]).Ok?
  }

  lemma {:induction false} IntervalsPanic(p: seq<string>)
    requires Closed(p)
    ensures DecodeIntervals(p) == Panic <==> p != [] && p[|p| - 1] == "" && IntervalsRead(p)
  {
    hide Atoi;
    if |p| > 1 {
      IntervalsPanic(p[1..]);
    }
  }

  /** A repeat line that makes the decoder panic. */
  predicate RepeatPanics(v: string) {
    TrailingSpace(v) && Subfields(v).Ok? && |Subfields(v).value| >= 3 && IntervalsRead(Subfields(v).value)
  }

  lemma RepeatPanicsWhen(v: string)
    ensures DecodeRepeat(v) == Panic <==> RepeatPanics(v)
  {
    SubfieldsClosed(v);
    LastPartEmpty(v);
    if Subfields(v).Ok? {
      IntervalsPanic(Subfields(v).value);
    }
    NothingSplit();
    hide Split, Subfields, DecodeIntervals, IntervalsRead;
  }

  lemma NothingSplit()
    ensures |Split("", ' ')| == 1
  {
  }

  /** Every time and offset of the adjustments but the last offset is read. */
  predicate ZonesRead(p: seq<string>) {
    forall i | 0 <= i < |p| - 1 :: if i % 2 == 0 then DecodeNTP(p[i]).Ok? else DecodeInterval(p[i]).Ok?
  }

  lemma ZonesReadTail(p: seq<string>)
    requires |p| >= 4 && |p| % 2 == 0
    ensures ZonesRead(p) <==> DecodeNTP(p[0]).Ok? && DecodeInterval(p[1]).Ok? && ZonesRead(p[2..])
  {
    hide DecodeNTP, DecodeInterval;
    var q := p[2..];
    if DecodeNTP(p[0]).Ok? && DecodeInterval(p[1]).Ok? && ZonesRead(q) {
      forall i | 0 <= i < |p| - 1
        ensures if i % 2 == 0 then DecodeNTP(p[i]).Ok? else DecodeInterval(p[i]).Ok?
      {
        if i >= 2 {
          assert q[i - 2] == p[i];
        }
      }
    }
    if ZonesRead(p) {
      forall i | 0 <= i < |q| - 1
        ensures if i % 2 == 0 then DecodeNTP(q[i]).Ok? else DecodeInterval(q[i]).Ok?
      {
        assert q[i] == p[i + 2];
      }
    }
  }

  lemma NTPNeverPanics(v: string)
    ensures DecodeNTP(v) != Panic
  {
  }

  lemma IntervalPanics(v: string)
    ensures DecodeInterval(v) == Panic <==> v == ""
  {
    hide Atoi;
  }

  lemma {:induction false} ZonePairsPanic(p: seq<string>)
    requires Closed(p) && |p| % 2 == 0
    ensures DecodeZonePairs(p) == Panic <==> p != [] && p[|p| - 1] == "" && ZonesRead(p)
    decreases |p|
  {
    hide DecodeNTP, DecodeInterval;
    if p != [] {
      NTPNeverPanics(p[0]);
      IntervalPanics(p[1]);
      if |p| > 2 {
        hide ZonesRead;
        ZonesReadTail(p);
        ZonePairsPanic(p[2..]);
      }
    }
  }

  /** A line of time zones that makes the decoder panic. */
  predicate ZonesPanic(v: string) {
    TrailingSpace(v) && Subfields(v).Ok? && |Subfields(v).value| % 2 == 0 && ZonesRead(Subfields(v).value)
  }

  lemma ZonesPanicWhen(v: string)
    ensures DecodeZones(v) == Panic <==> ZonesPanic(v)
  {
    SubfieldsClosed(v);
    LastPartEmpty(v);
    NothingSplit();
    hide Split, Subfields, DecodeZonePairs, ZonesRead;
    if Subfields(v).Ok? && |Subfields(v).value| % 2 == 0 {
      ZonePairsPanic(Subfields(v).value);
    }
  }

  /** The lines on which decoding a field panics, exactly. */
  lemma FieldPanics(net: Net, s: Section, l: Line, m: Message, d: Media)
    ensures DecodeField(net, s, l, m, d) == Panic
       <==> (l.t == 'r' && m.timing != [] && RepeatPanics(l.value)) || (l.t == 'z' && ZonesPanic(l.value))
  {
    RepeatPanicsWhen(l.value);
    ZonesPanicWhen(l.value);
    hide Atoi, DecodeOrigin, DecodeConnection, DecodeBandwidth, DecodeTiming, DecodeRepeat, DecodeZones, DecodeKV,
         DecodeMedia, RepeatPanics, ZonesPanic;
  }

  /** No repeat times or time zones with a space at their end. */
  predicate Safe(lines: Session) {
    forall l | l in lines && (l.t == 'r' || l.t == 'z') :: !TrailingSpace(l.value)
  }

  lemma SafeField(net: Net, s: Section, l: Line, m: Message, d: Media)
    requires l.t == 'r' || l.t == 'z' ==> !TrailingSpace(l.value)
    ensures DecodeField(net, s, l, m, d) != Panic
  {
    hide DecodeField, Subfields, TrailingSpace, IntervalsRead, ZonesRead;
    FieldPanics(net, s, l, m, d);
  }

  lemma {:induction false} TimeSafe(net: Net, lines: Session, pos: nat, m: Message)
    requires Safe(lines)
    ensures var r := TimeLoop(net, lines, pos, m); r != Panic && (r.Ok? ==> Safe(r.value.1))
    decreases |lines|
  {
    if lines != [] {
      hide IsExpected, IsKnown, DecodeField, TrailingSpace;
      var l := lines[0];
      SafeField(net, InTime, l, m, BLANK_MEDIA);
      TimeSafe(net, lines[1..], pos, m);
      match DecodeField(net, InTime, l, m, BLANK_MEDIA) {
        case Ok((m', _)) => TimeSafe(net, lines[1..], Advanced(l.t, pos), m');
        case _ =>
      }
    }
  }

  lemma {:induction false} MediaSafe(net: Net, lines: Session, pos: nat, m: Message, d: Media)
    requires Safe(lines)
    ensures var r := MediaLoop(net, lines, pos, m, d); r != Panic && (r.Ok? ==> Safe(r.value.2))
    decreases |lines|
  {
    if lines != [] {
      hide IsExpected, IsKnown, DecodeField, TrailingSpace;
      var l := lines[0];
      SafeField(net, InMedia, l, m, d);
      MediaSafe(net, lines[1..], pos, m, d);
      match DecodeField(net, InMedia, l, m, d) {
        case Ok((m', d')) => MediaSafe(net, lines[1..], Advanced(l.t, pos), m', d');
        case _ =>
      }
    }
  }

  lemma {:induction false} SessionSafe(net: Net, lines: Session, pos: nat, m: Message)
    requires Safe(lines)
    ensures SessionLoop(net, lines, pos, m) != Panic
    decreases |lines|
  {
    hide SessionLoop, TimeLoop, MediaLoop, IsExpected, IsKnown, DecodeField, TrailingSpace;
    SessionUnfolds(net, lines, pos, m);
    if lines != [] {
      var l, pos' := lines[0], Advanced(lines[0].t, pos);
      SafeField(net, InSession, l, m, BLANK_MEDIA);
      TimeSafe(net, lines, 0, m);
      MediaSafe(net, lines, 0, m, BLANK_MEDIA);
      SessionSafe(net, lines[1..], pos, m);
      var t, d, f := TimeLoop(net, lines, 0, m), MediaLoop(net, lines, 0, m, BLANK_MEDIA),
                     DecodeField(net, InSession, l, m, BLANK_MEDIA);
      if l.t == 't' && IsExpected(l.t, InSession, pos) && t.Ok? {
        SessionSafe(net, t.value.1, pos', t.value.0);
      }
      if l.t == 'm' && IsExpected(l.t, InSession, pos) && d.Ok? {
        SessionSafe(net, d.value.2, pos', d.value.0.(medias := d.value.0.medias + [d.value.1]));
      }
      if f.Ok? {
        SessionSafe(net, lines[1..], pos', f.value.0);
      }
    }
  }

  /** Decoding never panics on the lines of a scanned text. */
  lemma TextNeverPanics(net: Net, text: string)
    ensures Decode(net, DecodeLines(Lines(text)).0) != Panic
  {
    var s := DecodeLines(Lines(text)).0;
    hide SessionLoop, Lines, DecodeLines;
    TextIsClean(text);
    CleanIsSafe(s);
    SessionSafe(net, s, 0, BLANK_MESSAGE);
  }

  lemma CleanIsSafe(s: Session)
    requires AllClean(s)
    ensures Safe(s)
  {
  }

  /** On lines made otherwise it can: a time without its offset. */
  lemma PanicsOnLines(net: Net)
    ensures Decode(net, [Line('z', "0 ")]) == Panic
  {
    var l := Line('z', "0 ");
    ZoneWithoutOffset();
    FieldPanics(net, InSession, l, BLANK_MESSAGE, BLANK_MEDIA);
    hide SessionLoop, TimeLoop, MediaLoop, DecodeField, ZonesPanic;
    SessionUnfolds(net, [l], 0, BLANK_MESSAGE);
  }

  lemma ZoneWithoutOffset()
    ensures ZonesPanic("0 ")
  {
    SplitWord("0", ' ');
    SplitDelimiter("0", ' ');
    assert "0" + [' '] == "0 ";
    hide Split;
    assert Split("0 ", ' ') == ["0", ""];
    UintRoundTrip(0, 0x1_0000_0000_0000_0000);
    assert Decimal(0) == "0";
  }
}
