/**
 The fields of an SDP description: how each is printed (protocols/sdp/fields.go) and
 how the decoder takes it apart again (protocols/sdp/decoder.go).
 */
module SdpFields {

  import opened SdpNumbers

  // ----- Splitting and joining -----

  /** The parts of v between occurrences of c. */
  function Split(v: string, c: char): (p: seq<string>)
    ensures |p| >= 1
  {
    if v == [] then [""]
    else
      var p, x := Split(v[..|v| - 1], c), v[|v| - 1];
      if x == c then p + [""] else p[..|p| - 1] + [p[|p| - 1] + [x]]
  }

  function Join(p: seq<string>, c: char): string {
    if p == [] then ""
    else if |p| == 1 then p[0]
    else Join(p[..|p| - 1], c) + [c] + p[|p| - 1]
  }

  lemma {:induction false} SplitExtends(v: string, w: string, c: char)
    requires c !in w
    ensures var p := Split(v, c); Split(v + w, c) == p[..|p| - 1] + [p[|p| - 1] + w]
  {
    var p := Split(v, c);
    if w == [] {
      assert v + w == v && p[|p| - 1] + w == p[|p| - 1];
      assert p == p[..|p| - 1] + [p[|p| - 1]];
    } else {
      var n := |w| - 1;
      SplitExtends(v, w[..n], c);
      assert (v + w)[..|v + w| - 1] == v + w[..n];
      assert w == w[..n] + [w[n]];
      assert p[|p| - 1] + w == p[|p| - 1] + w[..n] + [w[n]];
    }
  }

  lemma SplitDelimiter(v: string, c: char)
    ensures Split(v + [c], c) == Split(v, c) + [""]
  {
    assert (v + [c])[..|v + [c]| - 1] == v;
  }

  lemma SplitWord(w: string, c: char)
    requires c !in w
    ensures Split(w, c) == [w]
  {
    SplitExtends([], w, c);
    assert [] + w == w && "" + w == w;
  }

  lemma SplitAdds(v: string, c: char, w: string)
    requires c !in w
    ensures Split(v + [c] + w, c) == Split(v, c) + [w]
  {
    SplitDelimiter(v, c);
    SplitExtends(v + [c], w, c);
    var p := Split(v, c) + [""];
    assert p[..|p| - 1] == Split(v, c) && p[|p| - 1] + w == w;
  }

  lemma {:induction false} SplitJoin(p: seq<string>, c: char)
    requires p != [] && forall w | w in p :: c !in w
    ensures Split(Join(p, c), c) == p
  {
    if |p| == 1 {
      SplitWord(p[0], c);
    } else {
      var n := |p| - 1;
      SplitJoin(p[..n], c);
      SplitAdds(Join(p[..n], c), c, p[n]);
      assert p == p[..n] + [p[n]];
    }
  }

  /** `subfields`: the parts between single spaces; only the last may be empty. */
  function Subfields(v: string): Result<seq<string>> {
    var p := Split(v, ' ');
    if exists i | 0 <= i < |p| - 1 :: p[i] == "" then Err else Ok(p)
  }

  lemma SplitStep(v: string, i: nat, c: char)
    requires i < |v|
    ensures var p := Split(v[..i], c);
            Split(v[..i + 1], c) == if v[i] == c then p + [""] else p[|p| - 1 := p[|p| - 1] + [v[i]]]
  {
    assert v[..i + 1][..i] == v[..i];
  }

  lemma SplitNothing(v: string, c: char)
    ensures Split(v[..0], c) == [""]
  {
  }

  method SplitSubfields(v: string) returns (r: Result<seq<string>>)
    ensures r == Subfields(v)
  {
    hide Split, Subfields, Closed;
    var result := [""];
    var hitSpace := true;
    var i := 0;
    SplitNothing(v, ' ');
    NothingClosed();
    while i < |v|
      invariant i <= |v| && result == Split(v[..i], ' ') && Closed(result)
      invariant hitSpace <==> result[|result| - 1] == ""
    {
      SplitStep(v, i, ' ');
      ClosedStep(result, v[i]);
      if v[i] == ' ' {
        if hitSpace {
          DoubledSpace(v, i);
          return Err;
        }
        hitSpace := true;
        result := result + [""];
      } else {
        hitSpace := false;
        result := result[|result| - 1 := result[|result| - 1] + [v[i]]];
      }
      i := i + 1;
    }
    assert v[..i] == v;
    SingleSpaces(v);
    r := Ok(result);
  }

  lemma DoubledSpace(v: string, i: nat)
    requires i < |v| && v[i] == ' ' && var p := Split(v[..i], ' '); p[|p| - 1] == ""
    ensures Subfields(v) == Err
  {
    hide Split;
    var n := |Split(v[..i], ' ')| - 1;
    SplitStep(v, i, ' ');
    assert Split(v[..i + 1], ' ')[n] == "";
    SplitPrefix(v, i + 1, ' ');
    assert Split(v, ' ')[n] == "";
  }

  /** No part but the last is empty. */
  predicate Closed(p: seq<string>) {
    forall j | 0 <= j < |p| - 1 :: p[j] != ""
  }

  lemma NothingClosed()
    ensures Closed([""])
  {
  }

  lemma ClosedStep(p: seq<string>, x: char)
    requires p != [] && Closed(p)
    ensures Closed(p[|p| - 1 := p[|p| - 1] + [x]]) && (p[|p| - 1] != "" ==> Closed(p + [""]))
  {
  }

  lemma SingleSpaces(v: string)
    requires Closed(Split(v, ' '))
    ensures Subfields(v) == Ok(Split(v, ' '))
  {
    hide Split;
  }

  /** Parts that are closed off stay as they are. */
  lemma {:induction false} SplitPrefix(v: string, i: nat, c: char)
    requires i <= |v|
    ensures var p, q := Split(v[..i], c), Split(v, c); |p| <= |q| && forall j | 0 <= j < |p| - 1 :: q[j] == p[j]
  {
    if i < |v| {
      SplitPrefix(v[..|v| - 1], i, c);
      assert v[..|v| - 1][..i] == v[..i];
    } else {
      assert v[..i] == v;
    }
  }

  /** A part, or the empty string if there are not so many. */
  function Part(p: seq<string>, i: nat): string {
    if i < |p| then p[i] else ""
  }

  /** The first three parts of v, if there is nothing after them. */
  function ThreeParts(v: string, c: char): Result<(string, string, string)> {
    var p := Split(v, c);
    if exists i | 3 <= i < |p| :: p[i] != "" then Err else Ok((Part(p, 0), Part(p, 1), Part(p, 2)))
  }

  /** The loops of `decodeConnectionData`, over the fields and over the parts of the address. */
  method SplitThree(v: string, c: char) returns (r: Result<(string, string, string)>)
    ensures r == ThreeParts(v, c)
  {
    var a, b, d := "", "", "";
    var subField, i := 0, 0;
    ghost var p := [""];
    assert Split(v[..0], c) == [""];
    hide Split, ThreeParts, Part, NoMore;
    PartsOfNone();
    while i < |v|
      invariant i <= |v| && p == Split(v[..i], c) && subField == |p| - 1
      invariant a == Part(p, 0) && b == Part(p, 1) && d == Part(p, 2) && NoMore(p)
    {
      SplitStep(v, i, c);
      PartsStep(p, v[i]);
      p := Split(v[..i + 1], c);
      if v[i] == c {
        subField := subField + 1;
      } else if subField == 0 {
        a := a + [v[i]];
      } else if subField == 1 {
        b := b + [v[i]];
      } else if subField == 2 {
        d := d + [v[i]];
      } else {
        TooManyParts(v, c, i);
        return Err;
      }
      i := i + 1;
    }
    assert v[..i] == v;
    OnlyThreeParts(v, c);
    r := Ok((a, b, d));
  }

  lemma TooManyParts(v: string, c: char, i: nat)
    requires i < |v| && v[i] != c && |Split(v[..i], c)| > 3
    ensures ThreeParts(v, c) == Err
  {
    hide Split;
    var n := |Split(v[..i], c)| - 1;
    SplitStep(v, i, c);
    assert Split(v[..i + 1], c)[n] != "";
    SplitGrows(v, i + 1, c);
    assert Split(v, c)[n] != "";
  }

  predicate NoMore(p: seq<string>) {
    forall j | 3 <= j < |p| :: p[j] == ""
  }

  lemma PartsOfNone()
    ensures Part([""], 0) == Part([""], 1) == Part([""], 2) == "" && NoMore([""])
  {
  }

  /** What one more character does to the parts. */
  lemma PartsStep(p: seq<string>, x: char)
    requires p != []
    ensures var n, q := |p| - 1, p[|p| - 1 := p[|p| - 1] + [x]];
      && Part(q, 0) == (if n == 0 then Part(p, 0) + [x] else Part(p, 0))
      && Part(q, 1) == (if n == 1 then Part(p, 1) + [x] else Part(p, 1))
      && Part(q, 2) == (if n == 2 then Part(p, 2) + [x] else Part(p, 2))
      && (NoMore(p) && n < 3 ==> NoMore(q))
    ensures Part(p + [""], 0) == Part(p, 0) && Part(p + [""], 1) == Part(p, 1) && Part(p + [""], 2) == Part(p, 2)
    ensures NoMore(p) ==> NoMore(p + [""])
  {
  }

  lemma OnlyThreeParts(v: string, c: char)
    requires NoMore(Split(v, c))
    ensures ThreeParts(v, c) == Ok((Part(Split(v, c), 0), Part(Split(v, c), 1), Part(Split(v, c), 2)))
  {
    hide Split;
  }

  /** A part that is not empty stays so. */
  lemma {:induction false} SplitGrows(v: string, i: nat, c: char)
    requires i <= |v|
    ensures var p, q := Split(v[..i], c), Split(v, c); |p| <= |q| && forall j | 0 <= j < |p| && p[j] != "" :: q[j] != ""
  {
    if i < |v| {
      SplitGrows(v[..|v| - 1], i, c);
      assert v[..|v| - 1][..i] == v[..i];
    } else {
      assert v[..i] == v;
    }
  }

  // ----- Key and value -----

  /** The loop of `decodeKV`: the key, whether there is a value, and the value. */
  function KeyValue(v: string): (string, bool, string) {
    if v == [] then ("", false, "")
    else
      var (k, f, w) := KeyValue(v[..|v| - 1]);
      var x := v[|v| - 1];
      if x == ':' && !f then (k, true, w)
      else if f then (k, f, w + [x])
      else (k + [x], f, w)
  }

  function DecodeKV(v: string): Result<(string, string)> {
    var (k, f, w) := KeyValue(v);
    if f && w == "" then Err else Ok((k, w))
  }

  method SplitKV(v: string) returns (r: Result<(string, string)>)
    ensures r == DecodeKV(v)
  {
    var key, value, isValue := "", "", false;
    var i := 0;
    while i < |v|
      invariant i <= |v| && (key, isValue, value) == KeyValue(v[..i])
    {
      assert v[..i + 1][..i] == v[..i];
      if v[i] == ':' && !isValue {
        isValue := true;
      } else if isValue {
        value := value + [v[i]];
      } else {
        key := key + [v[i]];
      }
      i := i + 1;
    }
    assert v[..i] == v;
    r := if isValue && |value| < 1 then Err else Ok((key, value));
  }

  lemma {:induction false} KeyOnly(k: string)
    requires ':' !in k
    ensures KeyValue(k) == (k, false, "")
  {
    if k != [] {
      KeyOnly(k[..|k| - 1]);
      assert k == k[..|k| - 1] + [k[|k| - 1]];
    }
  }

  lemma {:induction false} KeyAndValue(k: string, w: string)
    requires ':' !in k
    ensures KeyValue(k + ":" + w) == (k, true, w)
  {
    var v := k + ":" + w;
    if w == [] {
      KeyOnly(k);
      assert v[..|v| - 1] == k;
    } else {
      var n := |w| - 1;
      KeyAndValue(k, w[..n]);
      assert v[..|v| - 1] == k + ":" + w[..n];
      assert w == w[..n] + [w[n]];
    }
  }

  /** A value is printed after its key only if it is not empty. */
  function KV(k: string, w: string): string {
    if w == "" then k else k + ":" + w
  }

  lemma KVRoundTrip(k: string, w: string)
    requires ':' !in k
    ensures DecodeKV(KV(k, w)) == Ok((k, w))
  {
    if w == "" {
      KeyOnly(k);
    } else {
      KeyAndValue(k, w);
    }
  }

  // ----- Fields -----

  predicate Word(w: string) {
    w != "" && ' ' !in w
  }

  function Default(v: string, d: string): string {
    if v == "" then d else v
  }

  datatype Origin = Origin(
    username: string, sessionID: int, sessionVersion: int, networkType: string, addressType: string, address: string)

  /** `getAddressType`: told by the first '.' or ':' of the address. */
  function AddressTypeOf(address: string): string {
    if address == [] then "IP4"
    else if address[0] == ':' then "IP6"
    else if address[0] == '.' then "IP4"
    else AddressTypeOf(address[1..])
  }

  /** The first '.' or ':' of the address decides, and without one it is IPv4. */
  lemma {:induction false} AddressTypeIs(address: string, i: nat)
    requires i <= |address| && forall j | 0 <= j < i :: address[j] != '.' && address[j] != ':'
    ensures i < |address| && address[i] == ':' ==> AddressTypeOf(address) == "IP6"
    ensures i < |address| && address[i] == '.' ==> AddressTypeOf(address) == "IP4"
    ensures i == |address| ==> AddressTypeOf(address) == "IP4"
  {
    if i > 0 {
      assert address[0] != '.';
      AddressTypeIs(address[1..], i - 1);
    }
  }

  /** The origin with the types that are left out filled in. */
  function FilledOrigin(o: Origin): Origin {
    o.(networkType := Default(o.networkType, "IN"),
       addressType := Default(o.addressType, AddressTypeOf(o.address)))
  }

  /** `AddOrigin`. */
  function OriginText(o: Origin): string {
    var f := FilledOrigin(o);
    f.username + " " + Int(f.sessionID) + " " + Int(f.sessionVersion) + " " + f.networkType + " " + f.addressType + " " + f.address
  }

  /** What is printed for an origin whose types are given, and for one whose types are left out. */
  lemma OriginPrinted(o: Origin)
    ensures OriginText(o) == o.username + " " + Int(o.sessionID) + " " + Int(o.sessionVersion) + " "
                             + (if o.networkType == "" then "IN" else o.networkType) + " "
                             + (if o.addressType == "" then AddressTypeOf(o.address) else o.addressType) + " " + o.address
  {
    hide Int, AddressTypeOf;
  }

  function OriginOf(p: seq<string>): Result<Origin> {
    if |p| != 6 then Err
    else
      match Atoi(p[1])
      case Ok(id) =>
        (match Atoi(p[2])
         case Ok(version) => Ok(Origin(p[0], id, version, p[3], p[4], p[5]))
         case _ => Err)
      case _ => Err
  }

  /** `decodeOrigin`. */
  function DecodeOrigin(v: string): Result<Origin> {
    match Subfields(v)
    case Ok(p) => OriginOf(p)
    case _ => Err
  }

  predicate GoodOrigin(o: Origin) {
    && Word(o.username) && Word(o.address) && Int64(o.sessionID) && Int64(o.sessionVersion)
    && ' ' !in o.networkType && ' ' !in o.addressType
  }

  lemma WordsRoundTrip(p: seq<string>)
    requires p != [] && (forall w | w in p :: ' ' !in w) && forall i | 0 <= i < |p| - 1 :: p[i] != ""
    ensures Subfields(Join(p, ' ')) == Ok(p)
  {
    SplitJoin(p, ' ');
    hide Split, Join;
  }

  lemma IntIsWord(n: int)
    ensures Word(Int(n)) && '/' !in Int(n)
  {
  }

  lemma JoinSnoc(p: seq<string>, w: string, c: char)
    requires p != []
    ensures Join(p + [w], c) == Join(p, c) + [c] + w
  {
    assert (p + [w])[..|p|] == p;
  }

  lemma Join3(a: string, b: string, c: string, x: char)
    ensures Join([a, b, c], x) == a + [x] + b + [x] + c
  {
    assert Join([a], x) == a;
    hide Join;
    JoinSnoc([a], b, x);
    JoinSnoc([a, b], c, x);
    assert [a] + [b] == [a, b] && [a, b] + [c] == [a, b, c];
  }

  lemma Join6(a: string, b: string, c: string, d: string, e: string, f: string)
    ensures Join([a, b, c, d, e, f], ' ') == a + " " + b + " " + c + " " + d + " " + e + " " + f
  {
    hide Join;
    Join3(a, b, c, ' ');
    JoinSnoc([a, b, c], d, ' ');
    JoinSnoc([a, b, c, d], e, ' ');
    JoinSnoc([a, b, c, d, e], f, ' ');
    assert [a, b, c] + [d] == [a, b, c, d] && [a, b, c, d] + [e] == [a, b, c, d, e];
    assert [a, b, c, d, e] + [f] == [a, b, c, d, e, f];
  }

  lemma OriginRoundTrip(o: Origin)
    requires GoodOrigin(o)
    ensures DecodeOrigin(OriginText(o)) == Ok(FilledOrigin(o))
  {
    var f := FilledOrigin(o);
    var p := [f.username, Int(f.sessionID), Int(f.sessionVersion), f.networkType, f.addressType, f.address];
    IntIsWord(f.sessionID);
    IntIsWord(f.sessionVersion);
    AddressTypeIsWord(o.address);
    IntRoundTrip(f.sessionID, 0x8000_0000_0000_0000);
    IntRoundTrip(f.sessionVersion, 0x8000_0000_0000_0000);
    hide Int, ParseInt, Subfields, AddressTypeOf;
    Join6(p[0], p[1], p[2], p[3], p[4], p[5]);
    WordsRoundTrip(p);
  }

  lemma {:induction false} AddressTypeIsWord(address: string)
    ensures Word(AddressTypeOf(address))
  {
    if address != [] {
      AddressTypeIsWord(address[1..]);
    }
  }

  // ----- Connection data -----

  /** An address; `V6` are those that have no four-byte form. */
  datatype IP = NoIP | V4(a: nat, b: nat, c: nat, d: nat) | V6(words: seq<nat>)

  /** The library's text form of IPv6 addresses, in upper case, and its parser of addresses. */
  datatype Net = Net(formatV6: seq<nat> -> string, parseIP: string -> IP)

  /** `appendIPv4`. */
  function V4Text(a: nat, b: nat, c: nat, d: nat): string {
    Join([Decimal(a), Decimal(b), Decimal(c), Decimal(d)], '.')
  }

  predicate IsV6(w: seq<nat>) {
    && |w| == 8 && (forall i | 0 <= i < 8 :: w[i] < 0x1_0000)
    && !(w[0] == w[1] == w[2] == w[3] == w[4] == 0 && w[5] == 0xFFFF)
  }

  ghost predicate Faithful(net: Net) {
    && (forall a: nat, b: nat, c: nat, d: nat | a < 256 && b < 256 && c < 256 && d < 256 ::
          net.parseIP(V4Text(a, b, c, d)) == V4(a, b, c, d))
    && (forall w: seq<nat> | IsV6(w) ::
          net.parseIP(net.formatV6(w)) == V6(w) && PlainText(net.formatV6(w)))
    && (forall s: string :: net.parseIP(s).V6? ==> IsV6(net.parseIP(s).words))
    && net.parseIP("<NIL>") == NoIP
  }

  /** The characters of an IPv6 address in upper case. */
  predicate PlainText(s: string) {
    s != "" && forall i | 0 <= i < |s| :: IsDigit(s[i]) || 'A' <= s[i] <= 'F' || s[i] == ':'
  }

  /** There is such a library: one that writes the eight words of an address in decimal. */
  lemma FaithfulExists()
    ensures exists net: Net :: Faithful(net)
  {
    var net := Net(WordsText, ParseWords);
    hide *;
    forall a: nat, b: nat, c: nat, d: nat | a < 256 && b < 256 && c < 256 && d < 256
      ensures ParseWords(V4Text(a, b, c, d)) == V4(a, b, c, d)
    {
      ParsesV4(a, b, c, d);
    }
    forall w: seq<nat> | IsV6(w)
      ensures ParseWords(WordsText(w)) == V6(w) && PlainText(WordsText(w))
    {
      ParsesV6(w);
    }
    forall s: string
      ensures ParseWords(s).V6? ==> IsV6(ParseWords(s).words)
    {
      ParsesOnlyV6(s);
    }
    ParsesNoIP();
    FaithfulIs(net);
  }

  lemma FaithfulIs(net: Net)
    requires forall a: nat, b: nat, c: nat, d: nat | a < 256 && b < 256 && c < 256 && d < 256 ::
               net.parseIP(V4Text(a, b, c, d)) == V4(a, b, c, d)
    requires forall w: seq<nat> | IsV6(w) :: net.parseIP(net.formatV6(w)) == V6(w) && PlainText(net.formatV6(w))
    requires forall s: string :: net.parseIP(s).V6? ==> IsV6(net.parseIP(s).words)
    requires net.parseIP("<NIL>") == NoIP
    ensures Faithful(net)
  {
  }

  function Decimals(w: seq<nat>): (p: seq<string>)
    ensures |p| == |w| && forall i | 0 <= i < |w| :: p[i] == Decimal(w[i])
  {
    if w == [] then [] else [Decimal(w[0])] + Decimals(w[1..])
  }

  function WordsText(w: seq<nat>): string {
    Join(Decimals(w), ':')
  }

  function Numbers(p: seq<string>): Result<seq<nat>> {
    if p == [] then Ok([])
    else match ParseUint(p[0], 0x1_0000)
      case Ok(n) =>
        (match Numbers(p[1..])
         case Ok(ns) => Ok([n] + ns)
         case _ => Err)
      case _ => Err
  }

  function ParseWords(s: string): IP {
    var words, bytes := Numbers(Split(s, ':')), Numbers(Split(s, '.'));
    if words.Ok? then if IsV6(words.value) then V6(words.value) else NoIP
    else if bytes.Ok? && |bytes.value| == 4
    then V4(bytes.value[0], bytes.value[1], bytes.value[2], bytes.value[3])
    else NoIP
  }

  lemma {:induction false} NumbersRead(w: seq<nat>)
    requires forall i | 0 <= i < |w| :: w[i] < 0x1_0000
    ensures Numbers(Decimals(w)) == Ok(w)
  {
    if w != [] {
      UintRoundTrip(w[0], 0x1_0000);
      NumbersRead(w[1..]);
      assert w == [w[0]] + w[1..];
    }
  }

  lemma {:induction false} JoinIsPlain(w: seq<nat>)
    requires w != []
    ensures PlainText(Join(Decimals(w), ':'))
  {
    hide PlainText, Decimal, Decimals;
    var p, n := Decimals(w), |w| - 1;
    DecimalIsPlain(w[n]);
    if n > 0 {
      JoinIsPlain(w[..n]);
      assert Decimals(w[..n]) == p[..n];
      PlainJoins(Join(p[..n], ':'), p[n]);
    }
  }

  lemma DecimalIsPlain(n: nat)
    ensures PlainText(Decimal(n))
  {
  }

  lemma PlainJoins(a: string, b: string)
    requires PlainText(a) && PlainText(b)
    ensures PlainText(a + [':'] + b)
  {
  }

  lemma DecimalsAvoid(w: seq<nat>)
    ensures forall t | t in Decimals(w) :: ':' !in t && '.' !in t
  {
  }

  lemma ParsesV6(w: seq<nat>)
    requires IsV6(w)
    ensures ParseWords(WordsText(w)) == V6(w) && PlainText(WordsText(w))
  {
    DecimalsAvoid(w);
    NumbersRead(w);
    JoinIsPlain(w);
    hide Split, Join, Numbers, Decimals, PlainText;
    SplitJoin(Decimals(w), ':');
  }

  lemma ParsesV4(a: nat, b: nat, c: nat, d: nat)
    requires a < 256 && b < 256 && c < 256 && d < 256
    ensures ParseWords(V4Text(a, b, c, d)) == V4(a, b, c, d)
  {
    hide Split, Join, Decimals, Decimal, Numbers;
    var w := [a, b, c, d];
    var p := [Decimal(a), Decimal(b), Decimal(c), Decimal(d)];
    FourDecimals(a, b, c, d);
    DecimalsAvoid(w);
    NumbersRead(w);
    SplitJoin(p, '.');
    JoinAvoids(p, '.', ':');
    SplitWord(Join(p, '.'), ':');
    DottedIsNoNumber(a, b, c, d);
  }

  lemma FourDecimals(a: nat, b: nat, c: nat, d: nat)
    ensures Decimals([a, b, c, d]) == [Decimal(a), Decimal(b), Decimal(c), Decimal(d)]
  {
    hide Decimal, Decimals;
  }

  lemma DottedIsNoNumber(a: nat, b: nat, c: nat, d: nat)
    ensures Numbers([V4Text(a, b, c, d)]) == Err
  {
    var v := V4Text(a, b, c, d);
    var three := Join([Decimal(a), Decimal(b), Decimal(c)], '.');
    assert [Decimal(a), Decimal(b), Decimal(c), Decimal(d)][..3] == [Decimal(a), Decimal(b), Decimal(c)];
    assert v == three + "." + Decimal(d);
    assert v[|three|] == '.';
    assert !AllDigits(v);
  }

  lemma ParsesOnlyV6(s: string)
    ensures ParseWords(s).V6? ==> IsV6(ParseWords(s).words)
  {
    hide Split, Numbers;
  }

  lemma ParsesNoIP()
    ensures ParseWords("<NIL>") == NoIP
  {
    hide Split, Numbers;
    SplitWord("<NIL>", ':');
    SplitWord("<NIL>", '.');
    NotANumber("<NIL>");
  }

  lemma NotANumber(s: string)
    requires s != [] && !IsDigit(s[0])
    ensures Numbers([s]) == Err
  {
    assert !AllDigits(s);
  }

  datatype ConnectionData = ConnectionData(networkType: string, addressType: string, ip: IP, ttl: nat, addresses: nat)

  const BLANK_CONNECTION := ConnectionData("", "", NoIP, 0, 0)

  function FilledConnection(c: ConnectionData): ConnectionData {
    c.(networkType := Default(c.networkType, "IN"),
       addressType := Default(c.addressType, if c.ip.V6? then "IP6" else "IP4"))
  }

  /** `appendIP`. */
  function IPText(net: Net, ip: IP): string {
    match ip
    case NoIP => "<NIL>"
    case V4(a, b, c, d) => V4Text(a, b, c, d)
    case V6(w) => net.formatV6(w)
  }

  function Suffix(n: nat): string {
    if n > 0 then "/" + Decimal(n) else ""
  }

  /** `AddConnectionData`. */
  function ConnectionText(net: Net, c: ConnectionData): string {
    var f := FilledConnection(c);
    f.networkType + " " + f.addressType + " " + (IPText(net, c.ip) + Suffix(c.ttl) + Suffix(c.addresses))
  }

  /** What is printed for connection data: "IN" and "IP6" or "IP4" for types left out, and numbers that are not 0. */
  lemma ConnectionPrinted(net: Net, c: ConnectionData)
    ensures ConnectionText(net, c)
         == (if c.networkType == "" then "IN" else c.networkType) + " "
            + (if c.addressType == "" then if c.ip.V6? then "IP6" else "IP4" else c.addressType) + " "
            + ((match c.ip
                case NoIP => "<NIL>"
                case V4(x, y, z, w) => Decimal(x) + "." + Decimal(y) + "." + Decimal(z) + "." + Decimal(w)
                case V6(ws) => net.formatV6(ws))
               + (if c.ttl > 0 then "/" + Decimal(c.ttl) else "") + (if c.addresses > 0 then "/" + Decimal(c.addresses) else ""))
  {
    hide Join, Decimal;
    if c.ip.V4? {
      DottedText(c.ip.a, c.ip.b, c.ip.c, c.ip.d);
    }
  }

  lemma DottedText(a: nat, b: nat, c: nat, d: nat)
    ensures V4Text(a, b, c, d) == Decimal(a) + "." + Decimal(b) + "." + Decimal(c) + "." + Decimal(d)
  {
    hide Join, Decimal;
    Join3(Decimal(a), Decimal(b), Decimal(c), '.');
    JoinSnoc([Decimal(a), Decimal(b), Decimal(c)], Decimal(d), '.');
    assert [Decimal(a), Decimal(b), Decimal(c)] + [Decimal(d)] == [Decimal(a), Decimal(b), Decimal(c), Decimal(d)];
  }

  /**
   `decodeConnectionData`, on the connection data `s` of the session and `d` of the
   current media; a lone suffix is stored in the session also for media.
   */
  function DecodeConnection(net: Net, media: bool, v: string, s: ConnectionData, d: ConnectionData)
    : Result<(ConnectionData, ConnectionData)>
  {
    match ThreeParts(v, ' ')
    case Ok((n, a, address)) =>
      if n == "" || a == "" || address == "" then Err
      else
        (match ThreeParts(address, '/')
         case Ok((base, first, second)) =>
           DecodeAddress(net, media, n, a, base, first, second, s, d)
         case _ => Err)
    case _ => Err
  }

  function DecodeAddress(net: Net, media: bool, n: string, a: string, base: string, first: string, second: string,
                         s: ConnectionData, d: ConnectionData): Result<(ConnectionData, ConnectionData)>
  {
    var ip := net.parseIP(base);
    var c := (if media then d else s).(networkType := n, addressType := a, ip := ip);
    if ip == NoIP then Err
    else if second != "" then
      if !ip.V4? then Err
      else
        (match DecodeByte(first)
         case Ok(ttl) =>
           (match DecodeByte(second)
            case Ok(addresses) => Ok(Placed(media, c.(ttl := ttl, addresses := addresses), s, d))
            case _ => Err)
         case _ => Err)
    else if first != "" then
      if ip.V4? then
        (match DecodeByte(first)
         case Ok(ttl) => Ok(if media then (s.(ttl := ttl), c) else (c.(ttl := ttl), d))
         case _ => Err)
      else
        (match DecodeByte(second)
         case Ok(addresses) => Ok(Placed(media, c.(addresses := addresses), s, d))
         case _ => Err)
    else Ok(Placed(media, c, s, d))
  }

  function Placed(media: bool, c: ConnectionData, s: ConnectionData, d: ConnectionData): (ConnectionData, ConnectionData) {
    if media then (s, c) else (c, d)
  }

  predicate GoodConnection(c: ConnectionData) {
    && ' ' !in c.networkType && ' ' !in c.addressType && c.ttl < 256 && c.addresses < 256
    && match c.ip
       case NoIP => true
       case V4(a, b, x, d) => a < 256 && b < 256 && x < 256 && d < 256
       case V6(w) => IsV6(w)
  }

  /** The decoder refuses addresses that are missing and IPv6 addresses with a suffix. */
  predicate Readable(c: ConnectionData) {
    c.ip.V4? || (c.ip.V6? && c.ttl == 0 && c.addresses == 0)
  }

  /** What is left of a suffix: both numbers, or one as the TTL of the session. */
  function SeenConnection(media: bool, c: ConnectionData): ConnectionData {
    var f := FilledConnection(c);
    if (c.ttl == 0) == (c.addresses == 0) then f
    else if media then f.(ttl := 0, addresses := 0)
    else f.(ttl := c.ttl + c.addresses, addresses := 0)
  }

  function SeenSession(c: ConnectionData, s: ConnectionData): ConnectionData {
    if (c.ttl == 0) == (c.addresses == 0) then s else s.(ttl := c.ttl + c.addresses)
  }

  lemma DecimalIsWord(n: nat)
    ensures Word(Decimal(n)) && '/' !in Decimal(n) && '.' !in Decimal(n)
  {
  }

  lemma {:induction false} JoinAvoids(p: seq<string>, c: char, x: char)
    requires x != c && forall w | w in p :: x !in w
    ensures x !in Join(p, c)
  {
    if |p| > 1 {
      JoinAvoids(p[..|p| - 1], c, x);
    }
  }

  lemma IPIsWord(net: Net, ip: IP)
    requires Faithful(net) && (ip.V6? ==> IsV6(ip.words))
    ensures Word(IPText(net, ip)) && '/' !in IPText(net, ip)
  {
    match ip {
      case NoIP =>
      case V4(a, b, c, d) =>
        DecimalIsWord(a);
        DecimalIsWord(b);
        DecimalIsWord(c);
        DecimalIsWord(d);
        var p := [Decimal(a), Decimal(b), Decimal(c), Decimal(d)];
        hide Decimal;
        JoinAvoids(p, '.', ' ');
        JoinAvoids(p, '.', '/');
      case V6(w) => PlainIsWord(net.formatV6(w));
    }
  }

  lemma PlainIsWord(s: string)
    requires PlainText(s)
    ensures Word(s) && '/' !in s
  {
  }

  lemma PartsOfWords(p: seq<string>, c: char)
    requires 1 <= |p| <= 3 && forall w | w in p :: c !in w
    ensures ThreeParts(Join(p, c), c) == Ok((Part(p, 0), Part(p, 1), Part(p, 2)))
  {
    SplitJoin(p, c);
    hide Split, Join;
  }

  lemma JoinShort(a: string, b: string, c: char)
    ensures Join([a], c) == a && Join([a, b], c) == a + [c] + b
  {
    JoinSnoc([a], b, c);
    assert [a] + [b] == [a, b];
  }

  /** The address field comes apart into the base and the suffixes that were printed. */
  lemma AddressParts(base: string, ttl: nat, addresses: nat)
    requires '/' !in base
    ensures ThreeParts(base + Suffix(ttl) + Suffix(addresses), '/')
         == Ok(if ttl > 0 && addresses > 0 then (base, Decimal(ttl), Decimal(addresses))
               else if ttl > 0 || addresses > 0 then (base, Decimal(ttl + addresses), "")
               else (base, "", ""))
  {
    DecimalIsWord(ttl);
    DecimalIsWord(addresses);
    var p := if ttl > 0 && addresses > 0 then [base, Decimal(ttl), Decimal(addresses)]
             else if ttl > 0 || addresses > 0 then [base, Decimal(ttl + addresses)] else [base];
    AddressJoins(base, ttl, addresses);
    hide Decimal, ThreeParts, Join, Suffix;
    PartsOfWords(p, '/');
  }

  lemma AddressJoins(base: string, ttl: nat, addresses: nat)
    ensures base + Suffix(ttl) + Suffix(addresses)
         == Join(if ttl > 0 && addresses > 0 then [base, Decimal(ttl), Decimal(addresses)]
                 else if ttl > 0 || addresses > 0 then [base, Decimal(ttl + addresses)] else [base], '/')
  {
    hide Decimal, Join;
    JoinShort(base, Decimal(ttl + addresses), '/');
    Join3(base, Decimal(ttl), Decimal(addresses), '/');
  }

  lemma TypesAreWords(c: ConnectionData)
    requires GoodConnection(c)
    ensures Word(FilledConnection(c).networkType) && Word(FilledConnection(c).addressType)
  {
  }

  lemma ConnectionParts(net: Net, c: ConnectionData)
    requires Faithful(net) && GoodConnection(c)
    ensures var f, address := FilledConnection(c), IPText(net, c.ip) + Suffix(c.ttl) + Suffix(c.addresses);
      && ThreeParts(ConnectionText(net, c), ' ') == Ok((f.networkType, f.addressType, address))
      && f.networkType != "" && f.addressType != "" && address != ""
  {
    var f, address := FilledConnection(c), IPText(net, c.ip) + Suffix(c.ttl) + Suffix(c.addresses);
    TypesAreWords(c);
    IPIsWord(net, c.ip);
    DecimalIsWord(c.ttl);
    DecimalIsWord(c.addresses);
    hide Decimal, ThreeParts, Faithful, GoodConnection, IPText, Join;
    assert ' ' !in address;
    Join3(f.networkType, f.addressType, address, ' ');
    PartsOfWords([f.networkType, f.addressType, address], ' ');
  }

  lemma AddressRead(net: Net, media: bool, c: ConnectionData, base: string, first: string, second: string,
                    s: ConnectionData, d: ConnectionData)
    requires net.parseIP(base) == c.ip && c.ttl < 256 && c.addresses < 256
    requires (if media then d else s) == BLANK_CONNECTION
    requires first == (if c.ttl > 0 && c.addresses > 0 then Decimal(c.ttl)
                       else if c.ttl > 0 || c.addresses > 0 then Decimal(c.ttl + c.addresses) else "")
    requires second == (if c.ttl > 0 && c.addresses > 0 then Decimal(c.addresses) else "")
    ensures DecodeAddress(net, media, FilledConnection(c).networkType, FilledConnection(c).addressType,
                          base, first, second, s, d)
         == if !Readable(c) then Err
            else if media then Ok((SeenSession(c, s), SeenConnection(true, c)))
            else Ok((SeenConnection(false, c), d))
  {
    hide Decimal, DecodeByte;
    ByteRoundTrip(c.ttl);
    ByteRoundTrip(c.addresses);
    NoByte();
  }

  /** What the decoder makes of printed connection data, in the session and in a media section. */
  lemma ConnectionRead(net: Net, media: bool, c: ConnectionData, s: ConnectionData, d: ConnectionData)
    requires Faithful(net) && GoodConnection(c) && (if media then d else s) == BLANK_CONNECTION
    ensures DecodeConnection(net, media, ConnectionText(net, c), s, d)
         == if !Readable(c) then Err
            else if media then Ok((SeenSession(c, s), SeenConnection(true, c)))
            else Ok((SeenConnection(false, c), d))
  {
    var base := IPText(net, c.ip);
    assert net.parseIP(base) == c.ip;
    IPIsWord(net, c.ip);
    ConnectionParts(net, c);
    AddressParts(base, c.ttl, c.addresses);
    hide *;
    var parts := ThreeParts(base + Suffix(c.ttl) + Suffix(c.addresses), '/').value;
    AddressRead(net, media, c, base, parts.1, parts.2, s, d);
    DecodesAddress(net, media, ConnectionText(net, c), s, d);
  }

  lemma DecodesAddress(net: Net, media: bool, v: string, s: ConnectionData, d: ConnectionData)
    requires ThreeParts(v, ' ').Ok? && var p := ThreeParts(v, ' ').value; p.0 != "" && p.1 != "" && p.2 != ""
    requires ThreeParts(ThreeParts(v, ' ').value.2, '/').Ok?
    ensures var p := ThreeParts(v, ' ').value; var q := ThreeParts(p.2, '/').value;
            DecodeConnection(net, media, v, s, d) == DecodeAddress(net, media, p.0, p.1, q.0, q.1, q.2, s, d)
  {
    hide ThreeParts, DecodeAddress;
  }

  lemma NoByte()
    ensures DecodeByte("") == Err
  {
  }

  // ----- Bandwidth -----

  const BANDWIDTH_TYPES := ["CT", "AS"]

  /** `AddBandwidth`. */
  function BandwidthText(t: string, n: int): string {
    t + ":" + Int(n)
  }

  function DecodeBandwidth(v: string): Result<(string, int)> {
    match DecodeKV(v)
    case Ok((k, w)) => BandwidthOf(k, w)
    case _ => Err
  }

  function BandwidthOf(k: string, w: string): Result<(string, int)> {
    if w == "" || k !in BANDWIDTH_TYPES then Err
    else
      match Atoi(w)
      case Ok(n) => Ok((k, n))
      case _ => Err
  }

  lemma BandwidthRoundTrip(t: string, n: int)
    requires t in BANDWIDTH_TYPES && Int64(n)
    ensures DecodeBandwidth(BandwidthText(t, n)) == Ok((t, n))
  {
    hide KeyValue, Int, ParseInt;
    KeyAndValue(t, Int(n));
    IntRoundTrip(n, 0x8000_0000_0000_0000);
  }

  // ----- Timing -----

  datatype Timing = Timing(start: Time, end: Time, repeat: int, active: int, offsets: seq<int>)

  predicate GoodTime(t: Time) {
    Int64(t) && t != -NTP_DELTA
  }

  /** `AddTiming`. */
  function TimingText(start: Time, end: Time): string {
    Decimal(TimeToNTP(start)) + " " + Decimal(TimeToNTP(end))
  }

  function DecodeNTP(v: string): Result<Time> {
    match ParseUint(v, 0x1_0000_0000_0000_0000)
    case Ok(n) => Ok(NTPToTime(n))
    case _ => Err
  }

  /** `decodeTimingField`. */
  function DecodeTiming(v: string): Result<Timing> {
    var p := Split(v, ' ');
    if |p| > 2 then Err
    else
      match DecodeNTP(p[0])
      case Ok(start) =>
        (match DecodeNTP(Part(p, 1))
         case Ok(end) => Ok(Timing(start, end, 0, 0, []))
         case _ => Err)
      case _ => Err
  }

  /** The loop of `decodeTimingField`; a second space is an error. */
  method TimingParts(v: string) returns (startV: string, endV: string, ok: bool)
    ensures ok == (|Split(v, ' ')| <= 2)
    ensures ok ==> startV == Part(Split(v, ' '), 0) && endV == Part(Split(v, ' '), 1)
  {
    var isEndV, i := false, 0;
    startV, endV := "", "";
    ghost var p := [""];
    assert Split(v[..0], ' ') == [""];
    hide Split, Part, NoMore;
    PartsOfNone();
    while i < |v|
      invariant i <= |v| && p == Split(v[..i], ' ') && |p| == (if isEndV then 2 else 1)
      invariant startV == Part(p, 0) && endV == Part(p, 1)
    {
      SplitStep(v, i, ' ');
      PartsStep(p, v[i]);
      p := Split(v[..i + 1], ' ');
      if v[i] == ' ' {
        if isEndV {
          SplitPrefix(v, i + 1, ' ');
          return startV, endV, false;
        }
        isEndV := true;
      } else if isEndV {
        endV := endV + [v[i]];
      } else {
        startV := startV + [v[i]];
      }
      i := i + 1;
    }
    assert v[..i] == v;
    ok := true;
  }

  method DecodeTimingField(v: string) returns (r: Result<Timing>)
    ensures r == DecodeTiming(v)
  {
    hide Split, Part, DecodeNTP, DecodeTiming;
    TimingIs(v);
    var startV, endV, ok := TimingParts(v);
    if !ok {
      return Err;
    }
    var start := DecodeNTP(startV);
    if !start.Ok? {
      return Err;
    }
    var end := DecodeNTP(endV);
    if !end.Ok? {
      return Err;
    }
    r := Ok(Timing(start.value, end.value, 0, 0, []));
  }

  lemma TimingIs(v: string)
    ensures var p := Split(v, ' ');
            var start, end := DecodeNTP(Part(p, 0)), DecodeNTP(Part(p, 1));
            DecodeTiming(v) == if |p| > 2 || !start.Ok? || !end.Ok? then Err else Ok(Timing(start.value, end.value, 0, 0, []))
  {
    hide Split, DecodeNTP;
  }

  lemma NTPRoundTrip(t: Time)
    requires GoodTime(t)
    ensures DecodeNTP(Decimal(TimeToNTP(t))) == Ok(t)
  {
    UintRoundTrip(TimeToNTP(t), 0x1_0000_0000_0000_0000);
    TimeRoundTrip(t);
  }

  lemma TimingRoundTrip(start: Time, end: Time)
    requires GoodTime(start) && GoodTime(end)
    ensures DecodeTiming(TimingText(start, end)) == Ok(Timing(start, end, 0, 0, []))
  {
    var a, b := Decimal(TimeToNTP(start)), Decimal(TimeToNTP(end));
    NTPRoundTrip(start);
    NTPRoundTrip(end);
    DecimalIsWord(TimeToNTP(start));
    DecimalIsWord(TimeToNTP(end));
    hide Decimal, Split, DecodeNTP, TimeToNTP, Join;
    JoinShort(a, b, ' ');
    SplitJoin([a, b], ' ');
  }

  // ----- Repeat times -----

  function IntervalTexts(ds: seq<int>): (p: seq<string>)
    ensures |p| == |ds| && forall i | 0 <= i < |ds| :: p[i] == Interval(ds[i])
  {
    if ds == [] then [] else [Interval(ds[0])] + IntervalTexts(ds[1..])
  }

  /** `AddRepeatTimesCompact`. */
  function RepeatText(repeat: int, active: int, offsets: seq<int>): string {
    Interval(repeat) + " " + Interval(active) + " " + Join(IntervalTexts(offsets), ' ')
  }

  function DecodeIntervals(p: seq<string>): Result<seq<int>> {
    if p == [] then Ok([])
    else match DecodeInterval(p[0])
      case Ok(d) =>
        (match DecodeIntervals(p[1..])
         case Ok(ds) => Ok([d] + ds)
         case r => r)
      case Err => Err
      case Panic => Panic
  }

  /** `decodeRepeatTimes`: what is read goes to a copy of the time description and is lost. */
  function DecodeRepeat(v: string): Result<()> {
    match Subfields(v)
    case Ok(p) => RepeatOf(p)
    case _ => Err
  }

  function RepeatOf(p: seq<string>): Result<()> {
    if |p| < 3 then Err
    else
      match DecodeIntervals(p)
      case Ok(_) => Ok(())
      case Err => Err
      case Panic => Panic
  }

  lemma IntervalIsWord(d: int)
    ensures Word(Interval(d))
  {
    hide Int;
    IntIsWord(Quotient(d, DAY));
    IntIsWord(Quotient(d, HOUR));
    IntIsWord(Quotient(d, MINUTE));
    IntIsWord(Quotient(d, SECOND));
  }

  lemma {:induction false} JoinTwo(p: seq<string>, q: seq<string>, c: char)
    requires p != [] && q != []
    ensures Join(p + q, c) == Join(p, c) + [c] + Join(q, c)
    decreases |q|
  {
    var n := |q| - 1;
    if n == 0 {
      assert Join(q, c) == q[0];
      hide Join;
      JoinSnoc(p, q[0], c);
      assert p + q == p + [q[0]];
    } else {
      hide Join;
      var init, last := q[..n], q[n];
      assert q == init + [last];
      assert p + q == (p + init) + [last];
      JoinTwo(p, init, c);
      JoinSnoc(init, last, c);
      JoinSnoc(p + init, last, c);
      Associates(Join(p, c) + [c], Join(init, c), [c], last);
    }
  }

  lemma Associates(a: string, b: string, c: string, d: string)
    ensures a + b + c + d == a + (b + c + d)
  {
  }

  lemma {:induction false} IntervalsRead(ds: seq<int>)
    requires forall d | d in ds :: Int64(d)
    ensures DecodeIntervals(IntervalTexts(ds)).Ok?
  {
    if ds != [] {
      IntervalReads(ds[0]);
      IntervalsRead(ds[1..]);
      hide Interval, DecodeInterval;
      assert IntervalTexts(ds)[1..] == IntervalTexts(ds[1..]);
    }
  }

  lemma IntervalReads(d: int)
    requires Int64(d)
    ensures DecodeInterval(Interval(d)).Ok?
  {
    hide Int, DecodeInterval;
    ZeroInterval();
    if d != 0 {
      var unit := if d % DAY == 0 then DAY else if d % HOUR == 0 then HOUR else if d % MINUTE == 0 then MINUTE else SECOND;
      var suffix := if d % DAY == 0 then "d" else if d % HOUR == 0 then "h" else if d % MINUTE == 0 then "m" else "";
      UnitRoundTrip(d, unit, suffix);
      assert Int(Quotient(d, SECOND)) + "" == Int(Quotient(d, SECOND));
    }
  }

  lemma RepeatRead(repeat: int, active: int, offsets: seq<int>)
    requires offsets != [] && Int64(repeat) && Int64(active) && forall d | d in offsets :: Int64(d)
    ensures DecodeRepeat(RepeatText(repeat, active, offsets)) == Ok(())
  {
    var ds := [repeat, active] + offsets;
    var p, q := IntervalTexts(ds), IntervalTexts(offsets);
    IntervalsRead(ds);
    forall i | 0 <= i < |ds|
      ensures Word(p[i])
    {
      IntervalIsWord(ds[i]);
    }
    var a, b := Interval(repeat), Interval(active);
    assert p == [a, b] + q;
    hide Interval, DecodeInterval, Join, Subfields, IntervalTexts;
    JoinTwo([a, b], q, ' ');
    JoinShort(a, b, ' ');
    WordsRoundTrip(p);
  }

  // ----- Time zones -----

  datatype TimeZone = TimeZone(start: Time, offset: int)

  function ZoneTexts(zs: seq<TimeZone>): (p: seq<string>)
    ensures |p| == 2 * |zs|
    ensures forall i | 0 <= i < |zs| :: p[2 * i] == Decimal(TimeToNTP(zs[i].start)) && p[2 * i + 1] == Interval(zs[i].offset)
  {
    if zs == [] then []
    else
      var z, n := zs[|zs| - 1], |zs| - 1;
      ZoneTexts(zs[..n]) + [Decimal(TimeToNTP(z.start)), Interval(z.offset)]
  }

  /** `AddTimeZones`. */
  function ZonesText(zs: seq<TimeZone>): string {
    Join(ZoneTexts(zs), ' ')
  }

  method AppendZones(zs: seq<TimeZone>) returns (v: string)
    ensures v == ZonesText(zs)
  {
    hide Join, Interval, Decimal;
    v := "";
    var i := 0;
    NoZones();
    while i < |zs|
      invariant i <= |zs|
      invariant v == if 0 < i < |zs| then ZonesText(zs[..i]) + " " else ZonesText(zs[..i])
    {
      var z := zs[i];
      ZonesTextStep(zs, i);
      v := v + (Decimal(TimeToNTP(z.start)) + " " + Interval(z.offset));
      if i != |zs| - 1 {
        v := v + " ";
      }
      i := i + 1;
    }
    assert zs[..i] == zs;
  }

  lemma NoZones()
    ensures ZonesText([]) == ""
  {
  }

  lemma ZonesTextStep(zs: seq<TimeZone>, i: nat)
    requires i < |zs|
    ensures ZonesText(zs[..i + 1]) == (if i > 0 then ZonesText(zs[..i]) + " " else "")
                                      + (Decimal(TimeToNTP(zs[i].start)) + " " + Interval(zs[i].offset))
  {
    var a, b := Decimal(TimeToNTP(zs[i].start)), Interval(zs[i].offset);
    assert zs[..i + 1][..i] == zs[..i];
    var p := ZoneTexts(zs[..i]);
    assert ZoneTexts(zs[..i + 1]) == p + [a, b];
    hide Join, Interval, Decimal, ZoneTexts;
    JoinShort(a, b, ' ');
    if i > 0 {
      JoinTwo(p, [a, b], ' ');
    } else {
      assert p + [a, b] == [a, b];
    }
  }

  function DecodeZonePairs(p: seq<string>): Result<seq<TimeZone>>
    requires |p| % 2 == 0
  {
    if p == [] then Ok([])
    else match DecodeNTP(p[0])
      case Ok(start) =>
        (match DecodeInterval(p[1])
         case Ok(offset) =>
           (match DecodeZonePairs(p[2..])
            case Ok(zs) => Ok([TimeZone(start, offset)] + zs)
            case r => r)
         case Err => Err
         case Panic => Panic)
      case _ => Err
  }

  /** `decodeTimeZoneAdjustments`. */
  function DecodeZones(v: string): Result<seq<TimeZone>> {
    match Subfields(v)
    case Ok(p) => ZonesOf(p)
    case _ => Err
  }

  function ZonesOf(p: seq<string>): Result<seq<TimeZone>> {
    if |p| % 2 != 0 then Err else DecodeZonePairs(p)
  }

  predicate GoodZone(z: TimeZone) {
    GoodTime(z.start) && Int64(z.offset) && z.offset % SECOND == 0
  }

  lemma {:induction false} ZonePairsRead(p: seq<string>, zs: seq<TimeZone>)
    requires |p| == 2 * |zs| && forall z | z in zs :: GoodZone(z)
    requires forall i | 0 <= i < |zs| :: p[2 * i] == Decimal(TimeToNTP(zs[i].start)) && p[2 * i + 1] == Interval(zs[i].offset)
    ensures DecodeZonePairs(p) == Ok(zs)
    decreases |p|
  {
    hide Decimal, Interval, DecodeInterval, DecodeNTP, TimeToNTP;
    if zs != [] {
      var z, zs', p' := zs[0], zs[1..], p[2..];
      forall i | 0 <= i < |zs'|
        ensures p'[2 * i] == Decimal(TimeToNTP(zs'[i].start)) && p'[2 * i + 1] == Interval(zs'[i].offset)
      {
        assert p'[2 * i] == p[2 * (i + 1)] && p'[2 * i + 1] == p[2 * (i + 1) + 1];
      }
      assert p[2 * 0] == Decimal(TimeToNTP(z.start)) && p[2 * 0 + 1] == Interval(z.offset);
      assert GoodZone(z);
      ZonePairsRead(p', zs');
      NTPRoundTrip(z.start);
      IntervalRoundTrip(z.offset);
      assert zs == [z] + zs';
    }
  }

  lemma ZonesRoundTrip(zs: seq<TimeZone>)
    requires zs != [] && forall z | z in zs :: GoodZone(z)
    ensures DecodeZones(ZonesText(zs)) == Ok(zs)
  {
    var p := ZoneTexts(zs);
    hide Decimal, Interval, DecodeNTP, TimeToNTP, ZoneTexts, Subfields, DecodeZonePairs, GoodZone;
    forall k | 0 <= k < |p|
      ensures Word(p[k])
    {
      var i := k / 2;
      assert p[2 * i] == Decimal(TimeToNTP(zs[i].start)) && p[2 * i + 1] == Interval(zs[i].offset);
      DecimalIsWord(TimeToNTP(zs[i].start));
      IntervalIsWord(zs[i].offset);
    }
    ZonePairsRead(p, zs);
    WordsRoundTrip(p);
  }

  // ----- Media descriptions -----

  datatype MediaDescription = MediaDescription(kind: string, port: int, portsNumber: int, protocol: string, formats: seq<string>)

  function PortText(m: MediaDescription): string {
    if m.portsNumber != 0 then Int(m.port) + "/" + Int(m.portsNumber) else Int(m.port)
  }

  /** `AddMediaDescription`. */
  function MediaText(m: MediaDescription): string {
    m.kind + " " + PortText(m) + " " + m.protocol + " " + Join(m.formats, ' ')
  }

  /** `decodeMediaDescription`. */
  function DecodeMedia(v: string): Result<MediaDescription> {
    match Subfields(v)
    case Ok(p) => MediaOf(p)
    case _ => Err
  }

  function MediaOf(p: seq<string>): Result<MediaDescription> {
    if |p| < 3 then Err
    else
      match DecodePorts(Split(p[1], '/'))
      case Ok((port, n)) => Ok(MediaDescription(p[0], port, n, p[2], p[3..]))
      case _ => Err
  }

  function DecodePorts(pp: seq<string>): Result<(int, int)>
    requires pp != []
  {
    match Atoi(pp[0])
    case Ok(port) =>
      if |pp| == 1 then Ok((port, 0))
      else
        (match Atoi(pp[1])
         case Ok(n) => Ok((port, n))
         case _ => Err)
    case _ => Err
  }

  predicate GoodMedia(m: MediaDescription) {
    && Word(m.kind) && Word(m.protocol) && Int64(m.port) && Int64(m.portsNumber)
    && forall f | f in m.formats :: Word(f)
  }

  /** An empty list of formats is read as one empty format. */
  function SeenMedia(m: MediaDescription): MediaDescription {
    if m.formats == [] then m.(formats := [""]) else m
  }

  lemma PortsRoundTrip(m: MediaDescription)
    requires Int64(m.port) && Int64(m.portsNumber)
    ensures Word(PortText(m)) && DecodePorts(Split(PortText(m), '/')) == Ok((m.port, m.portsNumber))
  {
    var a, b := Int(m.port), Int(m.portsNumber);
    IntIsWord(m.port);
    IntIsWord(m.portsNumber);
    IntRoundTrip(m.port, 0x8000_0000_0000_0000);
    IntRoundTrip(m.portsNumber, 0x8000_0000_0000_0000);
    hide Int, Split, ParseInt, Join;
    JoinShort(a, b, '/');
    if m.portsNumber == 0 {
      SplitJoin([a], '/');
    } else {
      SplitJoin([a, b], '/');
    }
  }

  lemma MediaJoins(m: MediaDescription)
    ensures MediaText(m) == Join([m.kind, PortText(m), m.protocol] + SeenMedia(m).formats, ' ')
  {
    hide PortText, Join;
    var s, first := SeenMedia(m), [m.kind, PortText(m), m.protocol];
    Join3(m.kind, PortText(m), m.protocol, ' ');
    JoinTwo(first, s.formats, ' ');
    JoinEmpty();
  }

  lemma MediaRead(m: MediaDescription)
    requires GoodMedia(m)
    ensures DecodeMedia(MediaText(m)) == Ok(SeenMedia(m))
  {
    var s, p := SeenMedia(m), [m.kind, PortText(m), m.protocol] + SeenMedia(m).formats;
    hide PortText, DecodePorts, Split, Join, Subfields, MediaText;
    PortsRoundTrip(m);
    MediaJoins(m);
    assert p[0] == m.kind && p[1] == PortText(m) && p[2] == m.protocol && p[3..] == s.formats;
    forall i | 0 <= i < |p| - 1
      ensures p[i] != ""
    {
      if i >= 3 {
        assert p[i] == m.formats[i - 3] && m.formats[i - 3] in m.formats;
      }
    }
    WordsRoundTrip(p);
  }

  lemma JoinEmpty()
    ensures Join([], ' ') == Join([""], ' ')
  {
  }
}
