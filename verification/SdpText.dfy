/**
 SDP lines as text (protocols/sdp/sdp.go): a session is written as lines of the form
 type=value and read back by a scanner that skips blank lines and trims white space.
 A text is a sequence of Unicode characters; byte strings that are not UTF-8 are not modelled.
 */
module SdpText {

  import opened SdpNumbers

  datatype Line = Line(t: char, value: string)

  type Session = seq<Line>

  function AppendLine(l: Line): string {
    [l.t] + "=" + l.value
  }

  function AppendTo(s: Session): string {
    if s == [] then "" else AppendTo(s[..|s| - 1]) + AppendLine(s[|s| - 1]) + "\r\n"
  }

  /** `Session.AppendTo`. */
  method AppendSession(s: Session, b: string) returns (r: string)
    ensures r == b + AppendTo(s)
  {
    r := b;
    var i := 0;
    while i < |s|
      invariant i <= |s| && r == b + AppendTo(s[..i])
    {
      assert s[..i + 1][..i] == s[..i];
      r := r + AppendLine(s[i]);
      r := r + "\r\n";
      i := i + 1;
    }
    assert s[..i] == s;
  }

  // ----- Scanning -----

  /** `unicode.IsSpace`. */
  predicate IsSpace(c: char) {
    var x := c as int;
    0x09 <= x <= 0x0D || x == 0x20 || x == 0x85 || x == 0xA0 || x == 0x1680 || 0x2000 <= x <= 0x200A
    || x == 0x2028 || x == 0x2029 || x == 0x202F || x == 0x205F || x == 0x3000
  }

  function TrimLeft(s: string): (r: string)
    ensures |r| <= |s| && r == s[|s| - |r|..] && (r != [] ==> !IsSpace(r[0]))
    ensures forall i | 0 <= i < |s| - |r| :: IsSpace(s[i])
  {
    if s != [] && IsSpace(s[0]) then TrimLeft(s[1..]) else s
  }

  function TrimRight(s: string): (r: string)
    ensures |r| <= |s| && r == s[..|r|] && (r != [] ==> !IsSpace(r[|r| - 1]))
    ensures forall i | |r| <= i < |s| :: IsSpace(s[i])
  {
    if s != [] && IsSpace(s[|s| - 1]) then TrimRight(s[..|s| - 1]) else s
  }

  /** `bytes.TrimSpace`. */
  function Trim(s: string): (r: string)
    ensures r != [] ==> !IsSpace(r[0]) && !IsSpace(r[|r| - 1])
  {
    var l, r := TrimLeft(s), TrimRight(TrimLeft(s));
    r
  }

  /** `bytes.IndexRune`. */
  function IndexOf(s: string, c: char): (i: int)
    ensures -1 <= i < |s|
    ensures i == -1 ==> c !in s
    ensures i >= 0 ==> s[i] == c && c !in s[..i]
  {
    if s == [] then -1
    else if s[0] == c then 0
    else
      var i := IndexOf(s[1..], c);
      assert s == [s[0]] + s[1..];
      assert i >= 0 ==> s[..i + 1] == [s[0]] + s[1..][..i];
      if i == -1 then -1 else i + 1
  }

  /** The length of the first line with its newline, or of the whole text. */
  function FirstLine(text: string): (n: nat)
    requires text != []
    ensures 0 < n <= |text|
  {
    var i := IndexOf(text, '\n');
    if i < 0 then |text| else i + 1
  }

  /** The lines of a text that are not blank, trimmed. */
  function Lines(text: string): seq<string> {
    if text == [] then []
    else
      var n := FirstLine(text);
      var line, rest := Trim(text[..n]), Lines(text[n..]);
      if line == [] then rest else [line] + rest
  }

  lemma NoLines()
    ensures Lines("") == []
  {
  }

  lemma LinesStep(text: string)
    requires text != []
    ensures var n := FirstLine(text);
            Lines(text) == if Trim(text[..n]) == [] then Lines(text[n..]) else [Trim(text[..n])] + Lines(text[n..])
  {
  }

  /** `sliceScanner`. */
  class Scanner {
    var pos: nat
    var end: nat
    var v: string
    var line: string

    constructor (text: string)
      ensures Rest() == text
    {
      pos, end, v, line := 0, 0, text, "";
    }

    ghost function Rest(): string
      reads this
    {
      if end <= |v| then v[end..] else ""
    }

    method Scan() returns (ok: bool)
      modifies this
      ensures ok == (Lines(old(Rest())) != [])
      ensures ok ==> [line] + Lines(Rest()) == Lines(old(Rest()))
    {
      hide Lines, Trim, IndexOf;
      while true
        invariant Lines(Rest()) == Lines(old(Rest()))
        decreases |Rest()|
      {
        pos := end;
        if pos >= |v| {
          NoLines();
          line, v := "", "";
          return false;
        }
        var newLine := IndexOf(v[pos..], '\n');
        end := pos + newLine + 1;
        if newLine < 0 {
          end := |v|;
        }
        LinesStep(v[pos..]);
        ghost var n := FirstLine(v[pos..]);
        assert end == pos + n;
        assert v[pos..][..n] == v[pos..end] && v[pos..][n..] == v[end..];
        line := Trim(v[pos..end]);
        if |line| == 0 {
          continue;
        }
        return true;
      }
    }
  }

  // ----- Decoding -----

  /** What a byte string without a first rune decodes to. */
  const RUNE_ERROR: char := '\U{FFFD}'

  /** `Line.Decode`; of what comes before the delimiter only the first character counts. */
  function DecodeLine(b: string): Result<Line> {
    var i := IndexOf(b, '=');
    if i == -1 || |b| <= i + 1 then Err
    else Ok(Line(if i == 0 then RUNE_ERROR else b[0], b[i + 1..]))
  }

  /** The lines decoded, up to the first that cannot be, and whether there was one. */
  function DecodeLines(lines: seq<string>): (Session, bool) {
    if lines == [] then ([], false)
    else match DecodeLine(lines[0])
      case Ok(l) => var (s, err) := DecodeLines(lines[1..]); ([l] + s, err)
      case _ => ([], true)
  }

  /** `DecodeSession` into an empty session. */
  method DecodeSession(b: string) returns (s: Session, err: bool)
    ensures (s, err) == DecodeLines(Lines(b))
  {
    s, err := [], false;
    var scanner := new Scanner(b);
    ghost var lines := Lines(b);
    hide Lines;
    var ok := scanner.Scan();
    assert [] + DecodeLines(lines).0 == DecodeLines(lines).0;
    while ok
      invariant !err
      invariant DecodeLines(lines)
             == (var r := DecodeLines(if ok then [scanner.line] + Lines(scanner.Rest()) else []); (s + r.0, r.1))
      decreases if ok then 1 + |Lines(scanner.Rest())| else 0
    {
      ghost var rest := Lines(scanner.Rest());
      assert ([scanner.line] + rest)[1..] == rest;
      var r := DecodeLine(scanner.line);
      if !r.Ok? {
        assert s + [] == s;
        return s, true;
      }
      ghost var before := s;
      s := s + [r.value];
      assert forall x: Session :: before + ([r.value] + x) == s + x;
      ok := scanner.Scan();
    }
    assert s + [] == s;
  }

  // ----- Round trip -----

  /** A value that neither trimming nor splitting into lines changes. */
  predicate Ends(v: string) {
    v != [] && '\n' !in v && !IsSpace(v[|v| - 1])
  }

  /** A line that survives being written and read. */
  predicate Clean(l: Line) {
    l.t != '=' && !IsSpace(l.t) && Ends(l.value)
  }

  /** A line that is read, though without the white space at its end. */
  predicate Scannable(l: Line) {
    l.t != '=' && !IsSpace(l.t) && '\n' !in l.value && TrimRight(l.value) != []
  }

  function ScannedLine(l: Line): Line {
    Line(l.t, TrimRight(l.value))
  }

  function Scanned(s: Session): (r: Session)
    ensures |r| == |s| && forall i | 0 <= i < |s| :: r[i] == ScannedLine(s[i])
  {
    seq(|s|, i requires 0 <= i < |s| => ScannedLine(s[i]))
  }

  /** Trimming stops at the last character that is not white space. */
  lemma {:induction false} TrimRightAdds(a: string, b: string)
    ensures TrimRight(b) != [] ==> TrimRight(a + b) == a + TrimRight(b)
    ensures TrimRight(b) == [] ==> TrimRight(a + b) == TrimRight(a)
  {
    if b == [] {
      assert a + b == a;
    } else {
      var n := |b| - 1;
      assert (a + b)[..|a + b| - 1] == a + b[..n];
      TrimRightAdds(a, b[..n]);
    }
  }

  lemma TrimRightNone(v: string)
    requires v != [] && !IsSpace(v[|v| - 1])
    ensures TrimRight(v) == v
  {
  }

  lemma TrimEnd()
    ensures TrimRight("\r\n") == []
  {
    assert "\r\n"[..1] == "\r" && "\r"[..0] == [];
  }

  lemma TrimLine(l: Line)
    requires Scannable(l)
    ensures Trim(AppendLine(l) + "\r\n") == AppendLine(ScannedLine(l))
  {
    var text := AppendLine(l) + "\r\n";
    assert TrimLeft(text) == text;
    hide TrimRight;
    TrimEnd();
    TrimRightAdds(AppendLine(l), "\r\n");
    TrimRightAdds([l.t] + "=", l.value);
  }

  lemma FirstIndex(s: string, c: char, i: nat)
    requires i < |s| && s[i] == c && c !in s[..i]
    ensures IndexOf(s, c) == i
  {
  }

  lemma LineDecodes(l: Line)
    requires l.t != '=' && l.value != []
    ensures DecodeLine(AppendLine(l)) == Ok(l)
  {
    var line := AppendLine(l);
    assert line[..1] == [l.t];
    FirstIndex(line, '=', 1);
    hide IndexOf;
    assert line[2..] == l.value;
  }

  lemma FirstScanned(l: Line, rest: string)
    requires Scannable(l)
    ensures Lines(AppendLine(l) + "\r\n" + rest) == [AppendLine(ScannedLine(l))] + Lines(rest)
  {
    var line := AppendLine(l);
    var text := line + "\r\n" + rest;
    hide Lines, IndexOf, Trim, TrimRight;
    var n := |line| + 2;
    assert text[..n] == line + "\r\n";
    assert text[n..] == rest;
    assert text[..n - 1] == line + "\r";
    assert '\n' !in line + "\r";
    FirstIndex(text, '\n', n - 1);
    TrimLine(l);
    LinesStep(text);
  }

  lemma {:induction false} AppendFirst(s: Session)
    requires s != []
    ensures AppendTo(s) == AppendLine(s[0]) + "\r\n" + AppendTo(s[1..])
  {
    if |s| > 1 {
      var init := s[..|s| - 1];
      AppendFirst(init);
      assert init[1..] == s[1..][..|s| - 2];
      assert s[1..][|s| - 2] == s[|s| - 1];
    }
  }

  lemma NoText()
    ensures Lines(AppendTo([])) == []
  {
  }

  /** What becomes of the text of any session whose lines are not lost: their ends are trimmed. */
  lemma {:induction false} ScanText(s: Session)
    requires forall l | l in s :: Scannable(l)
    ensures DecodeLines(Lines(AppendTo(s))) == (Scanned(s), false)
  {
    hide Lines, DecodeLine, AppendTo, AppendLine, TrimRight, IsSpace;
    if s == [] {
      NoText();
    } else {
      AppendFirst(s);
      FirstScanned(s[0], AppendTo(s[1..]));
      LineDecodes(ScannedLine(s[0]));
      ScanText(s[1..]);
      var lines := Lines(AppendTo(s[1..]));
      assert ([AppendLine(ScannedLine(s[0]))] + lines)[1..] == lines;
      assert Scanned(s) == [ScannedLine(s[0])] + Scanned(s[1..]);
    }
  }

  lemma CleanIsScanned(l: Line)
    requires Clean(l)
    ensures Scannable(l) && ScannedLine(l) == l
  {
    TrimRightNone(l.value);
  }

  lemma CleanRoundTrip(s: Session)
    requires forall l | l in s :: Clean(l)
    ensures DecodeLines(Lines(AppendTo(s))) == (s, false)
  {
    hide Clean, Scannable, ScannedLine, Lines, DecodeLines, AppendTo;
    forall l | l in s
      ensures Scannable(l) && ScannedLine(l) == l
    {
      CleanIsScanned(l);
    }
    ScanText(s);
    assert Scanned(s) == s;
  }

  /** Every scanned line is trimmed and has no newline in it. */
  lemma {:induction false} ScannedIsTrimmed(text: string)
    ensures forall b | b in Lines(text) :: Trimmed(b)
    decreases |text|
  {
    NoLines();
    hide Lines, Trim, FirstLine, IsSpace;
    if text != [] {
      var n := FirstLine(text);
      ScannedIsTrimmed(text[n..]);
      LinesStep(text);
      FirstLineEnds(text);
      TrimmedLine(text[..n]);
    }
  }

  lemma FirstLineEnds(text: string)
    requires text != []
    ensures var n := FirstLine(text); '\n' !in text[..n][..n - 1]
  {
    var n := FirstLine(text);
    assert text[..n][..n - 1] == text[..n - 1];
  }

  lemma TrimmedLine(line: string)
    requires line != [] && '\n' !in line[..|line| - 1]
    ensures '\n' !in Trim(line)
  {
    var l := TrimLeft(line);
    var r := TrimRight(l);
    forall i | 0 <= i < |r|
      ensures r[i] != '\n'
    {
      var k := |line| - |l| + i;
      assert r[i] == line[k];
      if k == |line| - 1 {
        assert i == |l| - 1 == |r| - 1;
      } else {
        assert line[..|line| - 1][k] == line[k];
      }
    }
  }

  predicate Trimmed(b: string) {
    b != [] && !IsSpace(b[0]) && !IsSpace(b[|b| - 1]) && '\n' !in b
  }

  lemma TrimmedIsClean(b: string)
    requires Trimmed(b)
    ensures DecodeLine(b).Ok? ==> Clean(DecodeLine(b).value)
  {
    hide IndexOf, IsSpace;
    var i := IndexOf(b, '=');
    if i >= 0 && |b| > i + 1 {
      var v := b[i + 1..];
      assert v[|v| - 1] == b[|b| - 1];
      assert RUNE_ERROR != '=' && !IsSpace(RUNE_ERROR) by {
        RuneErrorIsNoSpace();
      }
    }
  }

  lemma RuneErrorIsNoSpace()
    ensures !IsSpace(RUNE_ERROR)
  {
  }

  /** Whatever text is decoded, its lines are clean; a missing type shows as the replacement character. */
  lemma {:induction false} DecodedIsClean(lines: seq<string>)
    requires forall b | b in lines :: Trimmed(b)
    ensures forall l | l in DecodeLines(lines).0 :: Clean(l)
  {
    hide Clean, DecodeLine, Trimmed;
    if lines != [] {
      TrimmedIsClean(lines[0]);
      DecodedIsClean(lines[1..]);
    }
  }

  // ----- What scanning and decoding a line mean -----

  predicate AllSpace(s: string) {
    forall i | 0 <= i < |s| :: IsSpace(s[i])
  }

  lemma {:induction false} TrimLeftAdds(a: string, b: string)
    ensures TrimLeft(a) != [] ==> TrimLeft(a + b) == TrimLeft(a) + b
    ensures TrimLeft(a) == [] ==> TrimLeft(a + b) == TrimLeft(b)
  {
    hide *;
    if a == [] {
      TrimLeftNothing(b);
    } else if IsSpace(a[0]) {
      SpaceFirst(a, b);
      TrimLeftAdds(a[1..], b);
    } else {
      NoSpaceFirst(a, b);
    }
  }

  lemma TrimLeftNothing(b: string)
    ensures TrimLeft([]) == [] && [] + b == b
  {
  }

  lemma SpaceFirst(a: string, b: string)
    requires a != [] && IsSpace(a[0])
    ensures TrimLeft(a) == TrimLeft(a[1..]) && TrimLeft(a + b) == TrimLeft(a[1..] + b)
  {
    assert (a + b)[1..] == a[1..] + b;
  }

  lemma NoSpaceFirst(a: string, b: string)
    requires a != [] && !IsSpace(a[0])
    ensures TrimLeft(a) == a && TrimLeft(a + b) == a + b
  {
  }

  lemma TrimUnfolds(s: string)
    ensures Trim(s) == TrimRight(TrimLeft(s))
  {
  }

  /** Trimming cuts the white space off both ends and nothing else. */
  lemma TrimIs(a: string, m: string, b: string)
    requires AllSpace(a) && AllSpace(b) && m != [] && !IsSpace(m[0]) && !IsSpace(m[|m| - 1])
    ensures Trim(a + m + b) == m
  {
    SpacesTrimmed(a);
    SpacesTrimmed(b);
    assert TrimLeft(m) == m;
    hide TrimLeft, TrimRight, IsSpace;
    TrimLeftAdds(a, m);
    TrimLeftAdds(a + m, b);
    TrimRightNone(m);
    TrimRightAdds(m, b);
  }

  lemma {:induction false} SpacesTrimmed(a: string)
    requires AllSpace(a)
    ensures TrimLeft(a) == [] && TrimRight(a) == []
  {
    if a != [] {
      SpacesTrimmed(a[1..]);
      SpacesTrimmed(a[..|a| - 1]);
    }
  }

  lemma TrimNewline(a: string)
    ensures Trim(a + "\n") == Trim(a)
  {
    hide TrimLeft, TrimRight, Trim;
    SpacesTrimmed("\n");
    TrimLeftAdds(a, "\n");
    TrimRightAdds(TrimLeft(a), "\n");
    NoSpaces();
    TrimUnfolds(a);
    TrimUnfolds(a + "\n");
  }

  lemma NoSpaces()
    ensures TrimRight([]) == []
  {
  }

  /** A text without newlines is one line, or none if it is blank. */
  lemma LinesOfOne(a: string)
    requires '\n' !in a
    ensures Lines(a) == if Trim(a) == [] then [] else [Trim(a)]
  {
    hide Lines, Trim, IndexOf;
    NoLines();
    if a == [] {
      TrimNothing();
    } else {
      LinesStep(a);
      assert IndexOf(a, '\n') == -1;
      assert a[..|a|] == a && a[|a|..] == [];
      assert [Trim(a)] + [] == [Trim(a)];
    }
  }

  lemma TrimNothing()
    ensures Trim("") == ""
  {
  }

  /** Newlines separate lines; the last line needs none. */
  lemma {:induction false} LinesSplit(a: string, b: string)
    ensures Lines(a + "\n" + b) == Lines(a) + Lines(b)
    decreases |a|
  {
    hide Lines, Trim, IndexOf, FirstLine;
    var i := IndexOf(a, '\n');
    if i == -1 {
      LastSplits(a, b);
    } else {
      var text := a + "\n" + b;
      assert text[i] == '\n' && text[..i] == a[..i];
      FirstLineIs(text, i);
      FirstLineIs(a, i);
      LinesStep(text);
      LinesStep(a);
      assert text[..i + 1] == a[..i + 1];
      assert text[i + 1..] == a[i + 1..] + "\n" + b;
      LinesSplit(a[i + 1..], b);
      var line, rest := [Trim(a[..i + 1])], Lines(a[i + 1..]);
      assert line + rest + Lines(b) == line + (rest + Lines(b));
    }
  }

  lemma LastSplits(a: string, b: string)
    requires '\n' !in a
    ensures Lines(a + "\n" + b) == Lines(a) + Lines(b)
  {
    hide Lines, Trim, IndexOf, FirstLine;
    var text := a + "\n" + b;
    assert text[|a|] == '\n' && text[..|a|] == a;
    FirstLineIs(text, |a|);
    LinesStep(text);
    assert text[..|a| + 1] == a + "\n" && text[|a| + 1..] == b;
    TrimNewline(a);
    LinesOfOne(a);
  }

  lemma FirstLineIs(text: string, i: nat)
    requires i < |text| && text[i] == '\n' && '\n' !in text[..i]
    ensures FirstLine(text) == i + 1
  {
    FirstIndex(text, '\n', i);
    hide IndexOf;
  }

  /** The first '=' divides a line; only the first character before it counts, and the value must not be empty. */
  lemma LineRead(p: string, v: string)
    requires '=' !in p
    ensures DecodeLine(p) == Err
    ensures DecodeLine(p + "=" + v)
         == if v == [] then Err else Ok(Line(if p == [] then '\U{FFFD}' else p[0], v))
  {
    var b := p + "=" + v;
    assert b[..|p|] == p && b[|p|] == '=';
    FirstIndex(b, '=', |p|);
    assert b[|p| + 1..] == v;
    hide IndexOf;
  }

  /** A session is read back from its own text exactly when all its lines are clean. */
  lemma SessionRoundTrip(s: Session)
    ensures DecodeLines(Lines(AppendTo(s))) == (s, false) <==> forall l | l in s :: Clean(l)
  {
    if forall l | l in s :: Clean(l) {
      CleanRoundTrip(s);
    }
    ScannedIsTrimmed(AppendTo(s));
    DecodedIsClean(Lines(AppendTo(s)));
  }
}
