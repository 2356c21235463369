/**
 Which values the field decoders of protocols/sdp/decoder.go accept, and what they read, for
 every value: each is some words joined by single separators.
 */
module SdpAccepts {

  import opened SdpNumbers
  import opened SdpText
  import opened SdpFields
  import opened SdpMessage

  /** The words of a value: at least one, none with a space in it. */
  predicate Words(p: seq<string>) {
    p != [] && forall w | w in p :: ' ' !in w
  }

  /** No word but the last is empty. */
  predicate Single(p: seq<string>) {
    forall i | 0 <= i < |p| - 1 :: p[i] != ""
  }

  lemma {:induction false} JoinSplit(v: string, c: char)
    ensures Join(Split(v, c), c) == v && forall w | w in Split(v, c) :: c !in w
  {
    hide *;
    if v == [] {
      NothingJoined(c);
    } else {
      var n := |v| - 1;
      JoinSplit(v[..n], c);
      LastGrows(Split(v[..n], c), v[n], c);
      SplitStep(v, n, c);
      assert v[..n + 1] == v;
      assert v == v[..n] + [v[n]];
    }
  }

  lemma NothingJoined(c: char)
    ensures Split([], c) == [""] && Join([""], c) == ""
  {
  }

  lemma LastGrows(p: seq<string>, x: char, c: char)
    requires p != [] && forall w | w in p :: c !in w
    ensures var q := if x == c then p + [""] else p[|p| - 1 := p[|p| - 1] + [x]];
            Join(q, c) == Join(p, c) + [x] && forall w | w in q :: c !in w
  {
    var n := |p| - 1;
    if x == c {
      JoinSnoc(p, "", c);
      assert Join(p, c) + [c] + "" == Join(p, c) + [c];
    } else {
      var q := p[n := p[n] + [x]];
      assert q[..n] == p[..n];
      if n > 0 {
        assert Join(p[..n], c) + [c] + (p[n] + [x]) == Join(p[..n], c) + [c] + p[n] + [x];
      }
      assert forall i | 0 <= i < n :: q[i] in p;
      assert p[n] in p;
    }
  }

  /** Every value is its words, joined. */
  lemma EveryValue(v: string) returns (p: seq<string>)
    ensures Words(p) && v == Join(p, ' ')
  {
    JoinSplit(v, ' ');
    p := Split(v, ' ');
  }

  lemma SubfieldsAccept(p: seq<string>)
    requires Words(p)
    ensures Subfields(Join(p, ' ')) == if Single(p) then Ok(p) else Err
  {
    SplitJoin(p, ' ');
    hide Split, Join;
  }

  /** An origin is six words. */
  lemma OriginAccepts(p: seq<string>)
    requires Words(p)
    ensures var r := DecodeOrigin(Join(p, ' '));
      && (r.Ok? <==> |p| == 6 && Single(p) && Atoi(p[1]).Ok? && Atoi(p[2]).Ok?)
      && (r.Ok? ==> r.value == Origin(p[0], Atoi(p[1]).value, Atoi(p[2]).value, p[3], p[4], p[5]))
  {
    hide Join, Subfields, Atoi;
    SubfieldsAccept(p);
  }

  /** A time description is two numbers. */
  lemma TimingAccepts(p: seq<string>)
    requires Words(p)
    ensures var r := DecodeTiming(Join(p, ' '));
      && (r.Ok? <==> |p| == 2 && DecodeNTP(p[0]).Ok? && DecodeNTP(p[1]).Ok?)
      && (r.Ok? ==> r.value == Timing(DecodeNTP(p[0]).value, DecodeNTP(p[1]).value, 0, 0, []))
  {
    SplitJoin(p, ' ');
    NoNumber();
    hide Split, Join, DecodeNTP;
  }

  lemma NoNumber()
    ensures !DecodeNTP("").Ok?
  {
  }

  /** Repeat times are at least three intervals. */
  lemma RepeatAccepts(p: seq<string>)
    requires Words(p)
    ensures DecodeRepeat(Join(p, ' ')).Ok?
       <==> |p| >= 3 && Single(p) && forall i | 0 <= i < |p| :: DecodeInterval(p[i]).Ok?
  {
    hide Join, Subfields, DecodeIntervals, DecodeInterval;
    SubfieldsAccept(p);
    IntervalsAccept(p);
  }

  lemma {:induction false} IntervalsAccept(p: seq<string>)
    ensures DecodeIntervals(p).Ok? <==> forall i | 0 <= i < |p| :: DecodeInterval(p[i]).Ok?
  {
    hide DecodeInterval;
    if p != [] {
      IntervalsAccept(p[1..]);
      assert forall i | 1 <= i < |p| :: p[i] == p[1..][i - 1];
    }
  }

  /** Time zones are pairs of a time and an interval. */
  lemma ZonesAccept(p: seq<string>)
    requires Words(p)
    ensures DecodeZones(Join(p, ' ')).Ok? <==> |p| % 2 == 0 && Single(p) && PairsRead(p)
  {
    hide Join, Subfields, DecodeZonePairs, PairsRead;
    SubfieldsAccept(p);
    if |p| % 2 == 0 {
      PairsAccept(p);
    }
  }

  predicate PairsRead(p: seq<string>) {
    forall i | 0 <= i < |p| :: if i % 2 == 0 then DecodeNTP(p[i]).Ok? else DecodeInterval(p[i]).Ok?
  }

  lemma PairsStep(p: seq<string>)
    requires |p| >= 2
    ensures PairsRead(p) <==> DecodeNTP(p[0]).Ok? && DecodeInterval(p[1]).Ok? && PairsRead(p[2..])
  {
    hide DecodeNTP, DecodeInterval;
    var q := p[2..];
    assert forall i | 2 <= i < |p| :: p[i] == q[i - 2] && i % 2 == (i - 2) % 2;
    if PairsRead(p) {
      forall i | 0 <= i < |q|
        ensures if i % 2 == 0 then DecodeNTP(q[i]).Ok? else DecodeInterval(q[i]).Ok?
      {
        assert q[i] == p[i + 2] && (i + 2) % 2 == i % 2;
      }
    }
  }

  lemma {:induction false} PairsAccept(p: seq<string>)
    requires |p| % 2 == 0
    ensures DecodeZonePairs(p).Ok? <==> PairsRead(p)
    decreases |p|
  {
    hide DecodeNTP, DecodeInterval;
    if p != [] {
      hide PairsRead;
      PairsStep(p);
      PairsAccept(p[2..]);
    }
  }

  /** A media description is three words and any number of formats; of the ports what follows a second '/' is ignored. */
  lemma MediaAccepts(p: seq<string>)
    requires Words(p)
    ensures var r := DecodeMedia(Join(p, ' '));
      if |p| < 3 || !Single(p) then r == Err
      else
        var ports := Split(p[1], '/');
        && (r.Ok? <==> Atoi(ports[0]).Ok? && (|ports| >= 2 ==> Atoi(ports[1]).Ok?))
        && (r.Ok? ==> r.value == MediaDescription(p[0], Atoi(ports[0]).value,
                                                  if |ports| >= 2 then Atoi(ports[1]).value else 0, p[2], p[3..]))
  {
    hide Join, Subfields, Atoi, Split;
    SubfieldsAccept(p);
  }

  /** An address and what its suffixes may be: none for IPv6, a TTL or a TTL and a number of addresses for IPv4. */
  predicate AddressAccepted(net: Net, base: string, first: string, second: string) {
    var ip := net.parseIP(base);
    && ip != NoIP
    && (second != "" ==> ip.V4? && DecodeByte(first).Ok? && DecodeByte(second).Ok?)
    && (second == "" && first != "" ==> ip.V4? && DecodeByte(first).Ok?)
  }

  lemma AddressAccepts(net: Net, media: bool, n: string, a: string, base: string, first: string, second: string,
                       s: ConnectionData, d: ConnectionData)
    ensures DecodeAddress(net, media, n, a, base, first, second, s, d).Ok?
       <==> AddressAccepted(net, base, first, second)
  {
    NoByte();
    hide DecodeByte;
  }

  /** Connection data are three words, of which the third is an address with suffixes; anything after must be empty. */
  lemma ConnectionAccepts(net: Net, media: bool, p: seq<string>, q: seq<string>, s: ConnectionData, d: ConnectionData)
    requires Words(p) && (|p| >= 3 ==> q != [] && p[2] == Join(q, '/') && forall w | w in q :: '/' !in w)
    ensures DecodeConnection(net, media, Join(p, ' '), s, d).Ok? <==>
              && |p| >= 3 && p[0] != "" && p[1] != "" && p[2] != ""
              && (forall i | 3 <= i < |p| :: p[i] == "") && (forall i | 3 <= i < |q| :: q[i] == "")
              && AddressAccepted(net, Part(q, 0), Part(q, 1), Part(q, 2))
  {
    hide Split, Join, DecodeAddress, AddressAccepted;
    SplitJoin(p, ' ');
    if |p| >= 3 {
      SplitJoin(q, '/');
      AddressAccepts(net, media, p[0], p[1], Part(q, 0), Part(q, 1), Part(q, 2), s, d);
    }
  }

  /** A value after the first ':' must not be empty; without ':' there is only a key. */
  lemma KVAccepts(k: string, w: string)
    requires ':' !in k
    ensures DecodeKV(k) == Ok((k, "")) && DecodeKV(k + ":" + w) == if w == "" then Err else Ok((k, w))
  {
    KeyOnly(k);
    KeyAndValue(k, w);
  }

  /** A bandwidth needs a value that is a number. */
  lemma BandwidthAccepts(k: string, w: string)
    requires ':' !in k
    ensures DecodeBandwidth(k) == Err
    ensures var r := DecodeBandwidth(k + ":" + w);
      && (r.Ok? <==> (k == "CT" || k == "AS") && Atoi(w).Ok?)
      && (r.Ok? ==> r.value == (k, Atoi(w).value))
  {
    hide *;
    KVAccepts(k, w);
    NoInt();
    BandwidthIs(k);
    BandwidthIs(k + ":" + w);
    TypeAccepts(k, "");
    TypeAccepts(k, w);
  }

  lemma BandwidthIs(v: string)
    ensures var r := DecodeKV(v); DecodeBandwidth(v) == if r.Ok? then BandwidthOf(r.value.0, r.value.1) else Err
  {
    hide DecodeKV, BandwidthOf;
  }

  lemma TypeAccepts(k: string, w: string)
    ensures BandwidthOf(k, w)
         == if w != "" && (k == "CT" || k == "AS") && Atoi(w).Ok? then Ok((k, Atoi(w).value)) else Err
  {
    hide ParseInt;
  }

  lemma NoInt()
    ensures !Atoi("").Ok?
  {
  }

  /** An interval is a number with or without one of the four units, or "0". */
  lemma IntervalAccepts(b: string)
    requires b != "" && b != "0"
    ensures var n := |b| - 1;
      DecodeInterval(b).Ok? <==> if b[n] in "dhms" then Atoi(b[..n]).Ok? else Atoi(b).Ok?
  {
    NoInt();
    assert |b| == 1 ==> b[..0] == "";
    hide ParseInt;
  }
}
